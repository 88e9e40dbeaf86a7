/**
 * The older generic Q-learning runner: one episode of at most 9999 steps,
 * each recorded unflagged and followed at once by a Q-learning improvement
 * with the state it left.
 */
module LegacyQLearningRunner {
  import opened Wrappers
  import opened DataStructures
  import opened Seqs
  import opened Episode

  class QLearningRunner<S, A> {
    const environment: Environment<S, A>
    /** The agent's `sampleActionFromState`: the action it draws for a state on its k-th draw. */
    const sampleActionFromState: (S, nat) -> A
    /** How many actions the agent has drawn so far: the index of its next draw. */
    var draws: nat
    var maxRunTimeStepsInEpisode: int
    var trajectory: seq<Visit<S, A>>
    /** The improvement calls made on the agent so far, oldest first. */
    var agentCalls: seq<AgentCall<S, A>>

    constructor (environment: Environment<S, A>, sampleActionFromState: (S, nat) -> A)
      ensures this.environment == environment && this.sampleActionFromState == sampleActionFromState
      ensures maxRunTimeStepsInEpisode == MAX_RUN_TIME_STEPS_IN_EPISODE
      ensures trajectory == [] && agentCalls == [] && draws == 0
    {
      this.environment := environment;
      this.sampleActionFromState := sampleActionFromState;
      draws := 0;
      maxRunTimeStepsInEpisode := MAX_RUN_TIME_STEPS_IN_EPISODE;
      trajectory := [];
      agentCalls := [];
    }

    /** `reset`: clears the trajectory. */
    method Reset()
      modifies this
      ensures trajectory == []
      ensures maxRunTimeStepsInEpisode == old(maxRunTimeStepsInEpisode) && agentCalls == old(agentCalls)
      ensures draws == old(draws)
    {
      trajectory := [];
    }

    /**
     * `runOneEpisode` with `restartForNextEpisode`'s random draw passed in:
     * the agent's draws continue from where the last episode left them; the
     * trajectory grows by the episode's visits, none flagged, and each step
     * improves the agent with (state left, action, sample), in order.
     */
    method RunOneEpisode(draw: nat)
      modifies this
      ensures var steps := Rollout(environment, sampleActionFromState, environment.restartForNextEpisode(None, draw),
                                   Iterations(maxRunTimeStepsInEpisode), old(draws));
              && trajectory == old(trajectory) + Visits(steps)
              && agentCalls == old(agentCalls) + QLearningCalls(steps)
              && draws == old(draws) + |steps|
      ensures maxRunTimeStepsInEpisode == old(maxRunTimeStepsInEpisode)
    {
      var statePointer := environment.restartForNextEpisode(None, draw);
      var visits, calls, used := PlayQLearningEpisode(environment, sampleActionFromState, statePointer,
                                                      maxRunTimeStepsInEpisode, draws, trajectory, agentCalls);
      trajectory, agentCalls, draws := visits, calls, used;
    }
  }

  /**
   * The episode loop of `runOneEpisode`, from `statePointer` with `maxTime`
   * as the budget and `k0` as the agent's next draw, over the trajectory and
   * call log it extends; `draws` is the agent's next draw afterwards.
   */
  method PlayQLearningEpisode<S, A>(environment: Environment<S, A>, sampleActionFromState: (S, nat) -> A,
                                    statePointer: S, maxTime: int, k0: nat,
                                    trajectory: seq<Visit<S, A>>, agentCalls: seq<AgentCall<S, A>>)
    returns (visits: seq<Visit<S, A>>, calls: seq<AgentCall<S, A>>, draws: nat)
    ensures var steps := Rollout(environment, sampleActionFromState, statePointer, Iterations(maxTime), k0);
            && visits == trajectory + Visits(steps)
            && calls == agentCalls + QLearningCalls(steps)
            && draws == k0 + |steps|
  {
    var maxTime := maxTime;
    var statePointer := statePointer;
    ghost var episode := Rollout(environment, sampleActionFromState, statePointer, Iterations(maxTime), k0);
    ghost var pending := episode;
    visits, calls := trajectory, agentCalls;
    draws := k0;
    while !environment.isTerminatingState(statePointer) && maxTime > 1
      invariant pending == Rollout(environment, sampleActionFromState, statePointer, Iterations(maxTime), draws)
      invariant visits + Visits(pending) == trajectory + Visits(episode)
      invariant calls + QLearningCalls(pending) == agentCalls + QLearningCalls(episode)
      invariant draws + |pending| == k0 + |episode|
      decreases maxTime
    {
      RolloutUnfold(environment, sampleActionFromState, statePointer, Iterations(maxTime), draws);
      maxTime := maxTime - 1;
      var action := sampleActionFromState(statePointer, draws);
      var nextStateSample := environment.sampleNextStateFromStateAction(statePointer, action);
      var visit := NewVisit(statePointer, action, nextStateSample.reward);
      ghost var rest := Rollout(environment, sampleActionFromState, nextStateSample.state, Iterations(maxTime), draws + 1);
      RecordsCons(Step(statePointer, action, nextStateSample), rest);
      ShiftHead(visits, visit, Visits(rest));
      ShiftHead(calls, QLearningCall(statePointer, action, nextStateSample), QLearningCalls(rest));
      visits := visits + [visit];
      calls := calls + [QLearningCall(statePointer, action, nextStateSample)];
      pending := rest;
      statePointer := nextStateSample.state;
      draws := draws + 1;
    }
    assert pending == [];
  }
}
