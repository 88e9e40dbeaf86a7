/**
 * The newer generic Q-learning runner: a step-by-step mode driven from
 * outside (`start`, `step`, `canStillStep`, `end`) and a whole-episode loop,
 * both recording visits in a `Trajectory` and improving the agent after
 * every transition.
 */
module QLearningRunner {
  import opened Wrappers
  import opened DataStructures
  import opened Seqs
  import opened Trajectory
  import opened Episode

  class QLearningRunner<S(==), A> {
    const environment: Environment<S, A>
    /** The agent's `sampleActionFromState`: the action it draws for a state on its k-th draw. */
    const sampleActionFromState: (S, nat) -> A
    /** How many actions the agent has drawn so far: the index of its next draw. */
    var draws: nat
    var maxRunTimeStepsInEpisode: int
    /** The state the step-by-step mode stands on. */
    var currentState: S
    const trajectory: Trajectory<S, A>
    /** The improvement calls made on the agent so far, oldest first. */
    var agentCalls: seq<AgentCall<S, A>>

    ghost predicate Valid()
      reads this, trajectory
    {
      trajectory.Valid()
    }

    /** The runner starts on the environment's restart state, drawn with `draw`, with an empty trajectory. */
    constructor (environment: Environment<S, A>, sampleActionFromState: (S, nat) -> A, draw: nat)
      ensures Valid() && fresh(trajectory)
      ensures this.environment == environment && this.sampleActionFromState == sampleActionFromState
      ensures maxRunTimeStepsInEpisode == MAX_RUN_TIME_STEPS_IN_EPISODE
      ensures currentState == environment.restartForNextEpisode(None, draw)
      ensures trajectory.list == [] && trajectory.firstVisit == {} && agentCalls == [] && draws == 0
    {
      this.environment := environment;
      this.sampleActionFromState := sampleActionFromState;
      draws := 0;
      maxRunTimeStepsInEpisode := MAX_RUN_TIME_STEPS_IN_EPISODE;
      currentState := environment.restartForNextEpisode(None, draw);
      trajectory := new Trajectory();
      agentCalls := [];
    }

    /** `start`: clears the trajectory and restarts from the current state, with `draw` as the random draw. */
    method Start(draw: nat)
      modifies this, trajectory
      ensures Valid()
      ensures trajectory.list == [] && trajectory.firstVisit == {}
      ensures currentState == environment.restartForNextEpisode(Some(old(currentState)), draw)
      ensures maxRunTimeStepsInEpisode == old(maxRunTimeStepsInEpisode) && agentCalls == old(agentCalls)
      ensures draws == old(draws)
    {
      trajectory.Clear();
      currentState := environment.restartForNextEpisode(Some(currentState), draw);
    }

    /**
     * `step`: the agent draws an action, one visit (current state, action,
     * reward) joins the trajectory, the runner moves to the sampled state,
     * and the agent is improved with that already-advanced state.
     */
    method Step()
      requires Valid()
      modifies this, trajectory
      ensures Valid()
      ensures var action := sampleActionFromState(old(currentState), old(draws));
              var sample := environment.sampleNextStateFromStateAction(old(currentState), action);
              && trajectory.list
                 == old(trajectory.list) + [Visit(old(currentState), action, sample.reward,
                                                  old(currentState) !in old(trajectory.firstVisit))]
              && trajectory.firstVisit == old(trajectory.firstVisit) + {old(currentState)}
              && currentState == sample.state
              && agentCalls == old(agentCalls) + [QLearningCall(sample.state, action, sample)]
      ensures maxRunTimeStepsInEpisode == old(maxRunTimeStepsInEpisode) && draws == old(draws) + 1
    {
      var action := sampleActionFromState(currentState, draws);
      draws := draws + 1;
      var nextStateSample := environment.sampleNextStateFromStateAction(currentState, action);
      trajectory.Add(currentState, action, nextStateSample.reward);
      currentState := nextStateSample.state;
      agentCalls := agentCalls + [QLearningCall(currentState, action, nextStateSample)];
    }

    /** `canStillStep`: the current state is not a terminating one. */
    function CanStillStep(): (b: bool)
      reads this
      ensures b <==> !environment.isTerminatingState(currentState)
    {
      !environment.isTerminatingState(currentState)
    }

    /** `end`: the agent learns while stepping, so nothing is left to do. */
    method End()
      ensures unchanged(this) && unchanged(trajectory)
    {
    }

    /**
     * `runOneEpisode` with `restartForNextEpisode`'s random draw passed in:
     * the trajectory is cleared and then holds the episode's visits, each
     * flagged on its state's first visit, and each step improves the agent
     * with the state it left; the agent's draws go on from where they were,
     * and the step-by-step state is untouched.
     */
    method RunOneEpisode(draw: nat)
      requires Valid()
      modifies this, trajectory
      ensures Valid()
      ensures var steps := Rollout(environment, sampleActionFromState, environment.restartForNextEpisode(None, draw),
                                   Iterations(maxRunTimeStepsInEpisode), old(draws));
              && trajectory.list == Stamp({}, Visits(steps))
              && trajectory.firstVisit == StatesOf(Visits(steps))
              && agentCalls == old(agentCalls) + QLearningCalls(steps)
              && draws == old(draws) + |steps|
      ensures currentState == old(currentState) && maxRunTimeStepsInEpisode == old(maxRunTimeStepsInEpisode)
    {
      trajectory.Clear();
      var statePointer := environment.restartForNextEpisode(None, draw);
      var calls, used := RecordQLearningEpisode(trajectory, environment, sampleActionFromState, statePointer,
                                                maxRunTimeStepsInEpisode, draws, agentCalls);
      agentCalls, draws := calls, used;
    }
  }

  /**
   * The episode loop of `runOneEpisode`, from `statePointer` with `maxTime`
   * as the budget and `k0` as the agent's next draw, adding to trajectory `t`
   * and extending the call log; `draws` is the agent's next draw afterwards.
   */
  method RecordQLearningEpisode<S(==), A>(t: Trajectory<S, A>, environment: Environment<S, A>,
                                          sampleActionFromState: (S, nat) -> A, statePointer: S, maxTime: int,
                                          k0: nat, agentCalls: seq<AgentCall<S, A>>)
    returns (calls: seq<AgentCall<S, A>>, draws: nat)
    requires t.Valid()
    modifies t
    ensures t.Valid()
    ensures var steps := Rollout(environment, sampleActionFromState, statePointer, Iterations(maxTime), k0);
            && t.list == old(t.list) + Stamp(old(t.firstVisit), Visits(steps))
            && t.firstVisit == old(t.firstVisit) + StatesOf(Visits(steps))
            && calls == agentCalls + QLearningCalls(steps)
            && draws == k0 + |steps|
  {
    var maxTime := maxTime;
    var statePointer := statePointer;
    ghost var episode := Rollout(environment, sampleActionFromState, statePointer, Iterations(maxTime), k0);
    ghost var pending := episode;
    calls := agentCalls;
    draws := k0;
    while !environment.isTerminatingState(statePointer) && maxTime > 1
      invariant t.Valid()
      invariant pending == Rollout(environment, sampleActionFromState, statePointer, Iterations(maxTime), draws)
      invariant t.list + Stamp(t.firstVisit, Visits(pending)) == old(t.list) + Stamp(old(t.firstVisit), Visits(episode))
      invariant t.firstVisit + StatesOf(Visits(pending)) == old(t.firstVisit) + StatesOf(Visits(episode))
      invariant calls + QLearningCalls(pending) == agentCalls + QLearningCalls(episode)
      invariant draws + |pending| == k0 + |episode|
      decreases maxTime
    {
      RolloutUnfold(environment, sampleActionFromState, statePointer, Iterations(maxTime), draws);
      maxTime := maxTime - 1;
      var action := sampleActionFromState(statePointer, draws);
      var nextStateSample := environment.sampleNextStateFromStateAction(statePointer, action);
      var call := QLearningCall(statePointer, action, nextStateSample);
      ghost var rest := Rollout(environment, sampleActionFromState, nextStateSample.state, Iterations(maxTime), draws + 1);
      RecordsCons(Step(statePointer, action, nextStateSample), rest);
      StampStep(t.list, t.firstVisit, NewVisit(statePointer, action, nextStateSample.reward), Visits(rest));
      ShiftHead(calls, call, QLearningCalls(rest));
      t.Add(statePointer, action, nextStateSample.reward);
      calls := calls + [call];
      pending := rest;
      statePointer := nextStateSample.state;
      draws := draws + 1;
    }
    assert pending == [];
  }
}
