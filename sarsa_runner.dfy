/**
 * The newer generic SARSA runner: a step-by-step mode over the current
 * (state, action) pair and a whole-episode loop, both recording visits in a
 * `Trajectory` and improving the agent with (s, a, sample, a') after every
 * transition.
 */
module SarsaRunner {
  import opened Wrappers
  import opened DataStructures
  import opened Seqs
  import opened Trajectory
  import opened Episode

  class SarsaRunner<S(==), A> {
    const environment: Environment<S, A>
    /** The agent's `sampleActionFromState`: the action it draws for a state on its k-th draw. */
    const sampleActionFromState: (S, nat) -> A
    /** How many actions the agent has drawn so far: the index of its next draw. */
    var draws: nat
    const maxRunTimeStepsInEpisode: int
    /** The pair the step-by-step mode stands on. */
    var currentStateAction: StateAction<S, A>
    const trajectory: Trajectory<S, A>
    /** The improvement calls made on the agent so far, oldest first. */
    var agentCalls: seq<AgentCall<S, A>>

    ghost predicate Valid()
      reads this, trajectory
    {
      trajectory.Valid()
    }

    /**
     * `getStartingStateAction` with `restartForNextEpisode`'s random draw and
     * the agent's draw index passed in: a fresh start state and the action
     * the agent draws for it.
     */
    function GetStartingStateAction(draw: nat, k: nat): (p: StateAction<S, A>)
      ensures p.state == environment.restartForNextEpisode(None, draw)
      ensures p.action == sampleActionFromState(p.state, k)
    {
      var startingState := environment.restartForNextEpisode(None, draw);
      StateAction(startingState, sampleActionFromState(startingState, k))
    }

    /** The runner starts on a starting pair drawn with `draw` and the agent's first draw, with an empty trajectory. */
    constructor (environment: Environment<S, A>, sampleActionFromState: (S, nat) -> A, draw: nat)
      ensures Valid() && fresh(trajectory)
      ensures this.environment == environment && this.sampleActionFromState == sampleActionFromState
      ensures maxRunTimeStepsInEpisode == MAX_RUN_TIME_STEPS_IN_EPISODE
      ensures currentStateAction.state == environment.restartForNextEpisode(None, draw)
      ensures currentStateAction.action == sampleActionFromState(currentStateAction.state, 0)
      ensures trajectory.list == [] && trajectory.firstVisit == {} && agentCalls == [] && draws == 1
    {
      this.environment := environment;
      this.sampleActionFromState := sampleActionFromState;
      draws := 1;
      maxRunTimeStepsInEpisode := MAX_RUN_TIME_STEPS_IN_EPISODE;
      var startingState := environment.restartForNextEpisode(None, draw);
      currentStateAction := StateAction(startingState, sampleActionFromState(startingState, 0));
      trajectory := new Trajectory();
      agentCalls := [];
    }

    /** `start`: clears the trajectory and stands on a fresh starting pair, with the agent's next draw. */
    method Start(draw: nat)
      modifies this, trajectory
      ensures Valid()
      ensures trajectory.list == [] && trajectory.firstVisit == {}
      ensures currentStateAction.state == environment.restartForNextEpisode(None, draw)
      ensures currentStateAction.action == sampleActionFromState(currentStateAction.state, old(draws))
      ensures agentCalls == old(agentCalls) && draws == old(draws) + 1
    {
      trajectory.Clear();
      currentStateAction := GetStartingStateAction(draw, draws);
      draws := draws + 1;
    }

    /**
     * `step`: the current pair transitions, the agent draws the next action,
     * the pair's visit joins the trajectory, the agent is improved with
     * (s, a, sample, a'), and the runner stands on (s', a').
     */
    method Step()
      requires Valid()
      modifies this, trajectory
      ensures Valid()
      ensures var p := old(currentStateAction);
              var sample := environment.sampleNextStateFromStateAction(p.state, p.action);
              var nextAction := sampleActionFromState(sample.state, old(draws));
              && trajectory.list
                 == old(trajectory.list) + [Visit(p.state, p.action, sample.reward, p.state !in old(trajectory.firstVisit))]
              && trajectory.firstVisit == old(trajectory.firstVisit) + {p.state}
              && agentCalls == old(agentCalls) + [SarsaCall(p.state, p.action, sample, nextAction)]
              && currentStateAction == StateAction(sample.state, nextAction)
      ensures draws == old(draws) + 1
    {
      var nextStateSample := environment.sampleNextStateFromStateAction(currentStateAction.state,
                                                                        currentStateAction.action);
      var nextAction := sampleActionFromState(nextStateSample.state, draws);
      draws := draws + 1;
      trajectory.Add(currentStateAction.state, currentStateAction.action, nextStateSample.reward);
      agentCalls := agentCalls + [SarsaCall(currentStateAction.state, currentStateAction.action,
                                            nextStateSample, nextAction)];
      currentStateAction := StateAction(nextStateSample.state, nextAction);
    }

    /** `canStillStep`: the current pair's state is not a terminating one. */
    function CanStillStep(): (b: bool)
      reads this
      ensures b <==> !environment.isTerminatingState(currentStateAction.state)
    {
      !environment.isTerminatingState(currentStateAction.state)
    }

    /** `end`: the agent learns while stepping, so nothing is left to do. */
    method End()
      ensures unchanged(this) && unchanged(trajectory)
    {
    }

    /** `currentPosition`: the pair the step-by-step mode stands on. */
    function CurrentPosition(): (p: StateAction<S, A>)
      reads this
      ensures p == currentStateAction
    {
      currentStateAction
    }

    /**
     * `runOneEpisode` with `restartForNextEpisode`'s random draw passed in:
     * the trajectory is cleared and then holds one visit per step that
     * records the next action a' in place of the action taken, flagged on
     * its state's first visit, while each improvement gets the action taken;
     * the agent's draws go on from where they were, and the step-by-step
     * pair is untouched.
     */
    method RunOneEpisode(draw: nat)
      requires Valid()
      modifies this, trajectory
      ensures Valid()
      ensures var start := GetStartingStateAction(draw, old(draws));
              var steps := SarsaRollout(environment, sampleActionFromState, start.state, start.action,
                                        Iterations(maxRunTimeStepsInEpisode), old(draws));
              && trajectory.list == Stamp({}, NextActionVisits(steps))
              && trajectory.firstVisit == StatesOf(NextActionVisits(steps))
              && agentCalls == old(agentCalls) + SarsaCalls(steps)
              && draws == old(draws) + |steps| + 1
      ensures currentStateAction == old(currentStateAction)
    {
      trajectory.Clear();
      var statePointer := environment.restartForNextEpisode(None, draw);
      var action := sampleActionFromState(statePointer, draws);
      var calls, used := RecordSarsaEpisode(trajectory, environment, sampleActionFromState, statePointer, action,
                                            maxRunTimeStepsInEpisode, draws, agentCalls);
      agentCalls, draws := calls, used + 1;
    }
  }

  /**
   * The episode loop of `runOneEpisode`, from (`statePointer`, `action`)
   * with `maxTime` as the budget and `action` the agent's draw `k0`, adding to
   * trajectory `t` and extending the call log; `draws` is the index of the
   * agent's last draw afterwards.
   */
  method RecordSarsaEpisode<S(==), A>(t: Trajectory<S, A>, environment: Environment<S, A>,
                                      sampleActionFromState: (S, nat) -> A, statePointer: S, action: A,
                                      maxTime: int, k0: nat, agentCalls: seq<AgentCall<S, A>>)
    returns (calls: seq<AgentCall<S, A>>, draws: nat)
    requires t.Valid()
    modifies t
    ensures t.Valid()
    ensures var steps := SarsaRollout(environment, sampleActionFromState, statePointer, action, Iterations(maxTime), k0);
            && t.list == old(t.list) + Stamp(old(t.firstVisit), NextActionVisits(steps))
            && t.firstVisit == old(t.firstVisit) + StatesOf(NextActionVisits(steps))
            && calls == agentCalls + SarsaCalls(steps)
            && draws == k0 + |steps|
  {
    var maxTime := maxTime;
    var statePointer := statePointer;
    var action := action;
    ghost var episode := SarsaRollout(environment, sampleActionFromState, statePointer, action, Iterations(maxTime), k0);
    ghost var pending := episode;
    calls := agentCalls;
    draws := k0;
    while !environment.isTerminatingState(statePointer) && maxTime > 1
      invariant t.Valid()
      invariant pending == SarsaRollout(environment, sampleActionFromState, statePointer, action, Iterations(maxTime), draws)
      invariant t.list + Stamp(t.firstVisit, NextActionVisits(pending))
                == old(t.list) + Stamp(old(t.firstVisit), NextActionVisits(episode))
      invariant t.firstVisit + StatesOf(NextActionVisits(pending)) == old(t.firstVisit) + StatesOf(NextActionVisits(episode))
      invariant calls + SarsaCalls(pending) == agentCalls + SarsaCalls(episode)
      invariant draws + |pending| == k0 + |episode|
      decreases maxTime
    {
      maxTime := maxTime - 1;
      var nextStateSample := environment.sampleNextStateFromStateAction(statePointer, action);
      var nextAction := sampleActionFromState(nextStateSample.state, draws + 1);
      var call := SarsaCall(statePointer, action, nextStateSample, nextAction);
      ghost var rest := SarsaRollout(environment, sampleActionFromState, nextStateSample.state, nextAction,
                                     Iterations(maxTime), draws + 1);
      assert pending == [SarsaStep(statePointer, action, nextStateSample, nextAction)] + rest;
      SarsaRecordsCons(SarsaStep(statePointer, action, nextStateSample, nextAction), rest);
      StampStep(t.list, t.firstVisit, NewVisit(statePointer, nextAction, nextStateSample.reward), NextActionVisits(rest));
      ShiftHead(calls, call, SarsaCalls(rest));
      t.Add(statePointer, nextAction, nextStateSample.reward);
      calls := calls + [call];
      pending := rest;
      statePointer := nextStateSample.state;
      action := nextAction;
      draws := draws + 1;
    }
    assert pending == [];
  }
}
