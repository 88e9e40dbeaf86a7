/**
 * The older generic Monte Carlo runner: one episode of at most 9999 steps,
 * each visit flagged when its state is new since the last reset, then one
 * Monte Carlo improvement with the whole trajectory.
 */
module LegacyMonteCarloRunner {
  import opened Wrappers
  import opened DataStructures
  import opened Trajectory
  import opened Episode

  class MonteCarloRunner<S(==), A> {
    const environment: Environment<S, A>
    /** The agent's `sampleActionFromState`: the action it draws for a state on its k-th draw. */
    const sampleActionFromState: (S, nat) -> A
    /** How many actions the agent has drawn so far: the index of its next draw. */
    var draws: nat
    var maxRunTimeStepsInEpisode: int
    /** The states met since the last `reset`. */
    var firstVisit: set<S>
    var trajectory: seq<Visit<S, A>>
    /** The improvement calls made on the agent so far, oldest first. */
    var agentCalls: seq<AgentCall<S, A>>

    constructor (environment: Environment<S, A>, sampleActionFromState: (S, nat) -> A)
      ensures this.environment == environment && this.sampleActionFromState == sampleActionFromState
      ensures maxRunTimeStepsInEpisode == MAX_RUN_TIME_STEPS_IN_EPISODE
      ensures firstVisit == {} && trajectory == [] && agentCalls == [] && draws == 0
    {
      this.environment := environment;
      this.sampleActionFromState := sampleActionFromState;
      draws := 0;
      maxRunTimeStepsInEpisode := MAX_RUN_TIME_STEPS_IN_EPISODE;
      firstVisit := {};
      trajectory := [];
      agentCalls := [];
    }

    /** `reset`: clears the trajectory and the first-visit set. */
    method Reset()
      modifies this
      ensures trajectory == [] && firstVisit == {}
      ensures maxRunTimeStepsInEpisode == old(maxRunTimeStepsInEpisode) && agentCalls == old(agentCalls)
      ensures draws == old(draws)
    {
      trajectory := [];
      firstVisit := {};
    }

    /**
     * `runOneEpisode` with `restartForNextEpisode`'s random draw passed in:
     * the agent's draws continue from where the last episode left them; the
     * trajectory grows by the episode's visits, each flagged iff its state
     * was not met since the last reset, and the agent is then improved once
     * with the whole trajectory.
     */
    method RunOneEpisode(draw: nat)
      modifies this
      ensures var steps := Rollout(environment, sampleActionFromState, environment.restartForNextEpisode(None, draw),
                                   Iterations(maxRunTimeStepsInEpisode), old(draws));
              && trajectory == old(trajectory) + Stamp(old(firstVisit), Visits(steps))
              && firstVisit == old(firstVisit) + StatesOf(Visits(steps))
              && draws == old(draws) + |steps|
      ensures agentCalls == old(agentCalls) + [MonteCarloCall(trajectory)]
      ensures maxRunTimeStepsInEpisode == old(maxRunTimeStepsInEpisode)
    {
      var statePointer := environment.restartForNextEpisode(None, draw);
      var visits, seen, used := PlayEpisode(environment, sampleActionFromState, statePointer, maxRunTimeStepsInEpisode,
                                            draws, trajectory, firstVisit);
      trajectory, firstVisit, draws := visits, seen, used;
      agentCalls := agentCalls + [MonteCarloCall(trajectory)];
    }
  }

  /**
   * The episode loop of `runOneEpisode`, from `statePointer` with `maxTime`
   * as the budget and `k0` as the agent's next draw, over the trajectory and
   * first-visit set it extends; `draws` is the agent's next draw afterwards.
   */
  method PlayEpisode<S(==), A>(environment: Environment<S, A>, sampleActionFromState: (S, nat) -> A,
                               statePointer: S, maxTime: int, k0: nat, trajectory: seq<Visit<S, A>>,
                               firstVisit: set<S>)
    returns (visits: seq<Visit<S, A>>, seen: set<S>, draws: nat)
    ensures var steps := Rollout(environment, sampleActionFromState, statePointer, Iterations(maxTime), k0);
            && visits == trajectory + Stamp(firstVisit, Visits(steps))
            && seen == firstVisit + StatesOf(Visits(steps))
            && draws == k0 + |steps|
  {
    var maxTime := maxTime;
    var statePointer := statePointer;
    ghost var episode := Visits(Rollout(environment, sampleActionFromState, statePointer, Iterations(maxTime), k0));
    ghost var pending := episode;
    visits, seen := trajectory, firstVisit;
    draws := k0;
    while !environment.isTerminatingState(statePointer) && maxTime > 1
      invariant pending == Visits(Rollout(environment, sampleActionFromState, statePointer, Iterations(maxTime), draws))
      invariant visits + Stamp(seen, pending) == trajectory + Stamp(firstVisit, episode)
      invariant seen + StatesOf(pending) == firstVisit + StatesOf(episode)
      invariant draws + |pending| == k0 + |episode|
      decreases maxTime
    {
      RolloutUnfold(environment, sampleActionFromState, statePointer, Iterations(maxTime), draws);
      maxTime := maxTime - 1;
      var action := sampleActionFromState(statePointer, draws);
      var nextStateSample := environment.sampleNextStateFromStateAction(statePointer, action);
      var visit := NewVisit(statePointer, action, nextStateSample.reward);
      ghost var rest := Rollout(environment, sampleActionFromState, nextStateSample.state, Iterations(maxTime), draws + 1);
      RecordsCons(Step(statePointer, action, nextStateSample), rest);
      StampStep(visits, seen, visit, Visits(rest));
      if statePointer !in seen {
        visit := visit.(isFirstVisit := true);
      }
      seen := seen + {statePointer};
      visits := visits + [visit];
      pending := Visits(rest);
      statePointer := nextStateSample.state;
      draws := draws + 1;
    }
    assert Rollout(environment, sampleActionFromState, statePointer, Iterations(maxTime), draws) == [];
  }
}
