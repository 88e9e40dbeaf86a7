/**
 * The older race-track Monte Carlo runner: the generic Monte Carlo episode
 * loop on the loaded race track, started on a starting cell, followed by one
 * improvement of the race car with the whole trajectory.
 */
module LegacyRunner {
  import opened Wrappers
  import opened DataStructures
  import opened Grid
  import opened Trajectory
  import opened Episode
  import opened LegacyRaceTrack
  import opened LegacyMonteCarloRunner

  class Runner {
    var raceTrack: RaceTrack
    /** The race car's `sampleActionFromState`: the action it draws for a state on its k-th draw. */
    const sampleActionFromState: (RaceTrackState, nat) -> RaceTrackAction
    /** How many actions the race car has drawn so far: the index of its next draw. */
    var draws: nat
    var maxRunTimeStepsInEpisode: int
    /** The states met since the last `reset`. */
    var firstVisit: set<RaceTrackState>
    var trajectory: seq<Visit<RaceTrackState, RaceTrackAction>>
    /** The improvement calls made on the race car so far, oldest first. */
    var agentCalls: seq<AgentCall<RaceTrackState, RaceTrackAction>>

    constructor (raceTrack: RaceTrack, sampleActionFromState: (RaceTrackState, nat) -> RaceTrackAction)
      ensures this.raceTrack == raceTrack && this.sampleActionFromState == sampleActionFromState
      ensures maxRunTimeStepsInEpisode == MAX_RUN_TIME_STEPS_IN_EPISODE
      ensures firstVisit == {} && trajectory == [] && agentCalls == [] && draws == 0
    {
      this.raceTrack := raceTrack;
      this.sampleActionFromState := sampleActionFromState;
      draws := 0;
      maxRunTimeStepsInEpisode := MAX_RUN_TIME_STEPS_IN_EPISODE;
      firstVisit := {};
      trajectory := [];
      agentCalls := [];
    }

    /** `reset`: clears the trajectory and the first-visit set. */
    method Reset()
      modifies this
      ensures trajectory == [] && firstVisit == {}
      ensures raceTrack == old(raceTrack) && maxRunTimeStepsInEpisode == old(maxRunTimeStepsInEpisode)
      ensures agentCalls == old(agentCalls) && draws == old(draws)
    {
      trajectory := [];
      firstVisit := {};
    }

    /**
     * `runOneEpisode` with `getRandomStartingState`'s random choice passed
     * in: the episode starts on a starting cell and the race car's draws
     * continue from where the last episode left them; the trajectory grows by
     * the episode's visits, each flagged iff its state was not met since the
     * last reset, and the race car is then improved once with the whole
     * trajectory.
     */
    method RunOneEpisode(choice: nat)
      requires raceTrack.Loaded() && |raceTrack.startingStates| > 0
      modifies this
      ensures raceTrack == old(raceTrack) && raceTrack.GetRandomStartingState(choice) in raceTrack.startingStates
      ensures var steps := Rollout(TrackEnvironment(), sampleActionFromState, raceTrack.GetRandomStartingState(choice),
                                   Iterations(maxRunTimeStepsInEpisode), old(draws));
              && trajectory == old(trajectory) + Stamp(old(firstVisit), Visits(steps))
              && firstVisit == old(firstVisit) + StatesOf(Visits(steps))
              && draws == old(draws) + |steps|
      ensures agentCalls == old(agentCalls) + [MonteCarloCall(trajectory)]
      ensures maxRunTimeStepsInEpisode == old(maxRunTimeStepsInEpisode)
    {
      var statePointer := raceTrack.GetRandomStartingState(choice);
      var visits, seen, used := PlayEpisode(TrackEnvironment(), sampleActionFromState, statePointer,
                                            maxRunTimeStepsInEpisode, draws, trajectory, firstVisit);
      trajectory, firstVisit, draws := visits, seen, used;
      agentCalls := agentCalls + [MonteCarloCall(trajectory)];
    }
  }

  /**
   * On the loaded track `TrackEnvironment` is the race track itself: it
   * restarts on the starting cell, and on every cell its terminal test and
   * its moves are the track's.
   */
  lemma TrackEnvironmentIsRaceTrack(raceTrack: RaceTrack, previous: Option<RaceTrackState>, choice: nat,
                                    s: RaceTrackState, a: RaceTrackAction)
    requires raceTrack.Loaded() && |raceTrack.startingStates| > 0 && InBoard(raceTrack.board, s)
    ensures TrackEnvironment().restartForNextEpisode(previous, choice) == raceTrack.GetRandomStartingState(choice)
    ensures InBoard(raceTrack.board, Destination(raceTrack.size, s, a))
    ensures TrackEnvironment().isTerminatingState(s) == raceTrack.IsTerminatingState(s)
    ensures TrackEnvironment().sampleNextStateFromStateAction(s, a) == raceTrack.SampleNextStateFromStateAction(s, a)
  {
    TrackNextAgrees(s, a);
  }

  /**
   * Every step of an episode on the loaded track starts and ends on a cell,
   * so the track's own terminal test and moves apply all along the episode.
   */
  lemma EpisodeOnTrack(raceTrack: RaceTrack, pick: (RaceTrackState, nat) -> RaceTrackAction, choice: nat, n: nat, i: nat)
    requires raceTrack.Loaded() && |raceTrack.startingStates| > 0
    requires i < |Rollout(TrackEnvironment(), pick, raceTrack.GetRandomStartingState(choice), n, 0)|
    ensures var r := Rollout(TrackEnvironment(), pick, raceTrack.GetRandomStartingState(choice), n, 0);
            InBoard(raceTrack.board, r[i].state) && InBoard(raceTrack.board, r[i].sample.state)
  {
    TrackCells();
    TrackRolloutOnBoard(pick, raceTrack.GetRandomStartingState(choice), n, 0, i);
  }
}
