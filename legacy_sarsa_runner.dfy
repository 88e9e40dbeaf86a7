/**
 * The older race-track SARSA runner: the first action is drawn before the
 * loop, and each step transitions with the current action, draws the next
 * one for the state reached, records the visit and improves the race car
 * with (s, a, sample, a').
 */
module LegacySarsaRunner {
  import opened DataStructures
  import opened Seqs
  import opened Episode
  import opened LegacyRaceTrack

  class SarsaRunner {
    var raceTrack: RaceTrack
    /** The race car's `sampleActionFromState`: the action it draws for a state on its k-th draw. */
    const sampleActionFromState: (RaceTrackState, nat) -> RaceTrackAction
    /** How many actions the race car has drawn so far: the index of its next draw. */
    var draws: nat
    var maxRunTimeStepsInEpisode: int
    var trajectory: seq<Visit<RaceTrackState, RaceTrackAction>>
    /** The improvement calls made on the race car so far, oldest first. */
    var agentCalls: seq<AgentCall<RaceTrackState, RaceTrackAction>>

    constructor (raceTrack: RaceTrack, sampleActionFromState: (RaceTrackState, nat) -> RaceTrackAction)
      ensures this.raceTrack == raceTrack && this.sampleActionFromState == sampleActionFromState
      ensures maxRunTimeStepsInEpisode == MAX_RUN_TIME_STEPS_IN_EPISODE
      ensures trajectory == [] && agentCalls == [] && draws == 0
    {
      this.raceTrack := raceTrack;
      this.sampleActionFromState := sampleActionFromState;
      draws := 0;
      maxRunTimeStepsInEpisode := MAX_RUN_TIME_STEPS_IN_EPISODE;
      trajectory := [];
      agentCalls := [];
    }

    /** `reset`: clears the trajectory. */
    method Reset()
      modifies this
      ensures trajectory == []
      ensures raceTrack == old(raceTrack) && maxRunTimeStepsInEpisode == old(maxRunTimeStepsInEpisode)
      ensures agentCalls == old(agentCalls) && draws == old(draws)
    {
      trajectory := [];
    }

    /**
     * `runOneEpisode` with `getRandomStartingState`'s random choice passed
     * in: the first action is the race car's next draw for the starting
     * cell, and its draws go on from there; the trajectory grows by one
     * unflagged visit (s, a, r) per step, and each step improves the race car
     * with (s, a, sample, a'), a' becoming the next step's action.
     */
    method RunOneEpisode(choice: nat)
      requires raceTrack.Loaded() && |raceTrack.startingStates| > 0
      modifies this
      ensures raceTrack == old(raceTrack) && raceTrack.GetRandomStartingState(choice) in raceTrack.startingStates
      ensures var start := raceTrack.GetRandomStartingState(choice);
              var steps := SarsaRollout(TrackEnvironment(), sampleActionFromState, start,
                                        sampleActionFromState(start, old(draws)),
                                        Iterations(maxRunTimeStepsInEpisode), old(draws));
              && trajectory == old(trajectory) + SarsaVisits(steps)
              && agentCalls == old(agentCalls) + SarsaCalls(steps)
              && draws == old(draws) + |steps| + 1
      ensures maxRunTimeStepsInEpisode == old(maxRunTimeStepsInEpisode)
    {
      var statePointer := raceTrack.GetRandomStartingState(choice);
      var action := sampleActionFromState(statePointer, draws);
      var visits, calls, used := PlaySarsaEpisode(TrackEnvironment(), sampleActionFromState, statePointer, action,
                                                  maxRunTimeStepsInEpisode, draws, trajectory, agentCalls);
      trajectory, agentCalls, draws := visits, calls, used + 1;
    }
  }

  /**
   * The episode loop of `runOneEpisode`, from (`statePointer`, `action`)
   * with `maxTime` as the budget and `action` the agent's draw `k0`, over the
   * trajectory and call log it extends; `draws` is the index of the agent's
   * last draw afterwards.
   */
  method PlaySarsaEpisode<S, A>(environment: Environment<S, A>, sampleActionFromState: (S, nat) -> A,
                                statePointer: S, action: A, maxTime: int, k0: nat,
                                trajectory: seq<Visit<S, A>>, agentCalls: seq<AgentCall<S, A>>)
    returns (visits: seq<Visit<S, A>>, calls: seq<AgentCall<S, A>>, draws: nat)
    ensures var steps := SarsaRollout(environment, sampleActionFromState, statePointer, action, Iterations(maxTime), k0);
            && visits == trajectory + SarsaVisits(steps)
            && calls == agentCalls + SarsaCalls(steps)
            && draws == k0 + |steps|
  {
    var maxTime := maxTime;
    var statePointer := statePointer;
    var action := action;
    ghost var episode := SarsaRollout(environment, sampleActionFromState, statePointer, action, Iterations(maxTime), k0);
    ghost var pending := episode;
    visits, calls := trajectory, agentCalls;
    draws := k0;
    while !environment.isTerminatingState(statePointer) && maxTime > 1
      invariant pending == SarsaRollout(environment, sampleActionFromState, statePointer, action, Iterations(maxTime), draws)
      invariant visits + SarsaVisits(pending) == trajectory + SarsaVisits(episode)
      invariant calls + SarsaCalls(pending) == agentCalls + SarsaCalls(episode)
      invariant draws + |pending| == k0 + |episode|
      decreases maxTime
    {
      maxTime := maxTime - 1;
      var nextStateSample := environment.sampleNextStateFromStateAction(statePointer, action);
      var nextAction := sampleActionFromState(nextStateSample.state, draws + 1);
      var visit := NewVisit(statePointer, action, nextStateSample.reward);
      var call := SarsaCall(statePointer, action, nextStateSample, nextAction);
      ghost var rest := SarsaRollout(environment, sampleActionFromState, nextStateSample.state, nextAction,
                                     Iterations(maxTime), draws + 1);
      assert pending == [SarsaStep(statePointer, action, nextStateSample, nextAction)] + rest;
      SarsaRecordsCons(SarsaStep(statePointer, action, nextStateSample, nextAction), rest);
      ShiftHead(visits, visit, SarsaVisits(rest));
      ShiftHead(calls, call, SarsaCalls(rest));
      visits := visits + [visit];
      calls := calls + [call];
      pending := rest;
      statePointer := nextStateSample.state;
      action := nextAction;
      draws := draws + 1;
    }
    assert pending == [];
  }
}
