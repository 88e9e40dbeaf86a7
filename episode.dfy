/**
 * What the episode runners share: the environment they drive, the calls they
 * make on their agent, the step budget, and reference definitions of the
 * episodes they play, against which every runner loop is proved.
 */
module Episode {
  import opened Wrappers
  import opened DataStructures
  import opened Grid
  import opened Trajectory

  /**
   * The environment as the runners use it. `restartForNextEpisode` is given
   * the previous state, if any, and a random draw.
   */
  datatype Environment<!S, !A> = Environment(
    restartForNextEpisode: (Option<S>, nat) -> S,
    isTerminatingState: S -> bool,
    sampleNextStateFromStateAction: (S, A) -> NextStateSample<S>)

  /** The loaded race track as an environment: every restart lands on its only starting cell, (2, 10). */
  function TrackEnvironment(): Environment<RaceTrackState, RaceTrackAction>
  {
    Environment((previous: Option<RaceTrackState>, draw: nat) => RaceTrackState(2, 10), TrackTerminal, TrackNext)
  }

  /** The improvement calls a runner makes on its agent, with their arguments. */
  datatype AgentCall<S, A> =
    | MonteCarloCall(trajectory: seq<Visit<S, A>>)
    | QLearningCall(state: S, action: A, sample: NextStateSample<S>)
    | SarsaCall(state: S, action: A, sample: NextStateSample<S>, nextAction: A)

  /** `maxRunTimeStepsInEpisode` as every runner initialises it. */
  const MAX_RUN_TIME_STEPS_IN_EPISODE: int := 10000

  /**
   * How many times `while (... && maxTime > 1) { maxTime -= 1; ... }` can
   * run when `maxTime` starts at m.
   */
  function Iterations(m: int): (n: nat)
    ensures m > 1 ==> n == m - 1
    ensures m <= 1 ==> n == 0
  {
    if m > 1 then m - 1 else 0
  }

  // --------------------------------------------------------- one action per step

  /** One step of an episode: the state, the action taken there, and what the environment answered. */
  datatype Step<S, A> = Step(state: S, action: A, sample: NextStateSample<S>)

  /**
   * The steps an episode plays from s with at most n iterations left, the
   * agent picking `pick(state, k)` on its k-th draw.
   */
  function Rollout<S, A>(env: Environment<S, A>, pick: (S, nat) -> A, s: S, n: nat, k: nat): seq<Step<S, A>>
    decreases n
  {
    if n == 0 || env.isTerminatingState(s) then []
    else
      var a := pick(s, k);
      var sample := env.sampleNextStateFromStateAction(s, a);
      [Step(s, a, sample)] + Rollout(env, pick, sample.state, n - 1, k + 1)
  }

  /**
   * Successive episodes draw afresh: with an agent whose choice depends on
   * its draw index, an episode that picks up the draws where the previous
   * one stopped plays different actions from the same start.
   */
  lemma NextEpisodeDrawsAfresh()
    ensures var env := Environment((previous: Option<int>, draw: nat) => 0, (s: int) => false,
                                   (s: int, a: int) => NextStateSample(s, a as real));
            var pick := (s: int, k: nat) => k as int;
            var first := Rollout(env, pick, 0, 2, 0);
            |first| == 2 && Rollout(env, pick, 0, 2, |first|) != first
  {
    var env := Environment((previous: Option<int>, draw: nat) => 0, (s: int) => false,
                           (s: int, a: int) => NextStateSample(s, a as real));
    var pick := (s: int, k: nat) => k as int;
    RolloutUnfold(env, pick, 0, 2, 0);
    RolloutUnfold(env, pick, 0, 1, 1);
    RolloutUnfold(env, pick, 0, 2, 2);
    var first := Rollout(env, pick, 0, 2, 0);
    assert first[0].action == 0;
    assert Rollout(env, pick, 0, 2, 2)[0].action == 2;
  }

  /** One iteration of an episode loop: the first step, then the episode from where it lands. */
  lemma RolloutUnfold<S, A>(env: Environment<S, A>, pick: (S, nat) -> A, s: S, n: nat, k: nat)
    requires n > 0 && !env.isTerminatingState(s)
    ensures var sample := env.sampleNextStateFromStateAction(s, pick(s, k));
            Rollout(env, pick, s, n, k) == [Step(s, pick(s, k), sample)] + Rollout(env, pick, sample.state, n - 1, k + 1)
  {
  }

  /** The state an episode stands in after the steps taken from s. */
  function After<S, A>(s: S, steps: seq<Step<S, A>>): S
  {
    if steps == [] then s else steps[|steps| - 1].sample.state
  }

  /**
   * An episode is a chain: step i starts where step i - 1 ended (step 0 at
   * s), off a non-terminal state, takes the agent's (k + i)-th draw and gets
   * the environment's answer.
   */
  lemma {:induction false} RolloutAt<S, A>(env: Environment<S, A>, pick: (S, nat) -> A, s: S, n: nat, k: nat, i: nat)
    requires i < |Rollout(env, pick, s, n, k)|
    ensures var r := Rollout(env, pick, s, n, k);
            && r[i].state == (if i == 0 then s else r[i - 1].sample.state)
            && !env.isTerminatingState(r[i].state)
            && r[i].action == pick(r[i].state, k + i)
            && r[i].sample == env.sampleNextStateFromStateAction(r[i].state, r[i].action)
    decreases n
  {
    var r := Rollout(env, pick, s, n, k);
    var a := pick(s, k);
    var sample := env.sampleNextStateFromStateAction(s, a);
    var rest := Rollout(env, pick, sample.state, n - 1, k + 1);
    assert r == [Step(s, a, sample)] + rest;
    if i > 0 {
      RolloutAt(env, pick, sample.state, n - 1, k + 1, i - 1);
      assert r[i] == rest[i - 1];
      assert r[i - 1] == if i == 1 then Step(s, a, sample) else rest[i - 2];
    }
  }

  /** At most n steps are played, and fewer only when a terminal state is reached. */
  lemma {:induction false} RolloutStops<S, A>(env: Environment<S, A>, pick: (S, nat) -> A, s: S, n: nat, k: nat)
    ensures var r := Rollout(env, pick, s, n, k);
            && |r| <= n
            && (|r| < n ==> env.isTerminatingState(After(s, r)))
    decreases n
  {
    if n != 0 && !env.isTerminatingState(s) {
      var a := pick(s, k);
      var sample := env.sampleNextStateFromStateAction(s, a);
      var rest := Rollout(env, pick, sample.state, n - 1, k + 1);
      RolloutStops(env, pick, sample.state, n - 1, k + 1);
      var r := [Step(s, a, sample)] + rest;
      assert After(s, r) == After(sample.state, rest);
    }
  }

  /** An episode on the track that starts on a cell stays on cells. */
  lemma {:induction false} TrackRolloutOnBoard(pick: (RaceTrackState, nat) -> RaceTrackAction, s: RaceTrackState,
                                               n: nat, k: nat, i: nat)
    requires InBoard(TRACK, s)
    requires i < |Rollout(TrackEnvironment(), pick, s, n, k)|
    ensures var r := Rollout(TrackEnvironment(), pick, s, n, k);
            InBoard(TRACK, r[i].state) && InBoard(TRACK, r[i].sample.state)
  {
    var r := Rollout(TrackEnvironment(), pick, s, n, k);
    RolloutAt(TrackEnvironment(), pick, s, n, k, i);
    if i > 0 {
      TrackRolloutOnBoard(pick, s, n, k, i - 1);
    }
    TrackNextAgrees(r[i].state, r[i].action);
  }

  /** A terminal start plays no step. */
  lemma TerminalStartIsEmpty<S, A>(env: Environment<S, A>, pick: (S, nat) -> A, s: S, n: nat, k: nat)
    requires env.isTerminatingState(s)
    ensures Rollout(env, pick, s, n, k) == []
  {
  }

  /** The visits an episode records, one (state, action, reward) per step, flags cleared. */
  function Visits<S, A>(steps: seq<Step<S, A>>): (vs: seq<Visit<S, A>>)
    ensures |vs| == |steps|
  {
    seq(|steps|, i requires 0 <= i < |steps| =>
      NewVisit(steps[i].state, steps[i].action, steps[i].sample.reward))
  }

  /** The Q-learning calls of an episode: the state before the transition, the action and the sample. */
  function QLearningCalls<S, A>(steps: seq<Step<S, A>>): (cs: seq<AgentCall<S, A>>)
    ensures |cs| == |steps|
  {
    seq(|steps|, i requires 0 <= i < |steps| =>
      QLearningCall(steps[i].state, steps[i].action, steps[i].sample))
  }

  /**
   * The Q-learning calls of the step-by-step mode: the state passed is the
   * one reached by the transition.
   */
  function AdvancedQLearningCalls<S, A>(steps: seq<Step<S, A>>): (cs: seq<AgentCall<S, A>>)
    ensures |cs| == |steps|
  {
    seq(|steps|, i requires 0 <= i < |steps| =>
      QLearningCall(steps[i].sample.state, steps[i].action, steps[i].sample))
  }

  /** Every visit and call of an episode is its step's, index for index. */
  lemma RecordsAt<S, A>(steps: seq<Step<S, A>>)
    ensures forall i :: 0 <= i < |steps| ==>
              && Visits(steps)[i] == Visit(steps[i].state, steps[i].action, steps[i].sample.reward, false)
              && QLearningCalls(steps)[i] == QLearningCall(steps[i].state, steps[i].action, steps[i].sample)
              && AdvancedQLearningCalls(steps)[i]
                 == QLearningCall(steps[i].sample.state, steps[i].action, steps[i].sample)
  {
  }

  /** An episode that starts with step st records st's visit and call, then the rest's. */
  lemma RecordsCons<S, A>(st: Step<S, A>, steps: seq<Step<S, A>>)
    ensures Visits([st] + steps) == [NewVisit(st.state, st.action, st.sample.reward)] + Visits(steps)
    ensures QLearningCalls([st] + steps) == [QLearningCall(st.state, st.action, st.sample)] + QLearningCalls(steps)
    ensures AdvancedQLearningCalls([st] + steps)
            == [QLearningCall(st.sample.state, st.action, st.sample)] + AdvancedQLearningCalls(steps)
  {
    assert Visits([st] + steps) == [NewVisit(st.state, st.action, st.sample.reward)] + Visits(steps);
    assert QLearningCalls([st] + steps) == [QLearningCall(st.state, st.action, st.sample)] + QLearningCalls(steps);
    assert AdvancedQLearningCalls([st] + steps)
           == [QLearningCall(st.sample.state, st.action, st.sample)] + AdvancedQLearningCalls(steps);
  }

  /**
   * The i-th stamped visit of an episode: step i's state, action and
   * reward, flagged exactly when the state is neither in `seen` nor met at
   * an earlier step.
   */
  lemma StampedVisitsAt<S, A>(steps: seq<Step<S, A>>, seen: set<S>, i: nat)
    requires i < |steps|
    ensures Stamp(seen, Visits(steps))[i]
            == Visit(steps[i].state, steps[i].action, steps[i].sample.reward,
                     steps[i].state !in seen && forall j :: 0 <= j < i ==> steps[j].state != steps[i].state)
  {
    var vs := Visits(steps);
    StampAt(seen, vs);
    forall j | 0 <= j < i
      ensures vs[..i][j].state == steps[j].state
    {
    }
    if steps[i].state in StatesOf(vs[..i]) {
      var j :| 0 <= j < i && vs[..i][j].state == steps[i].state;
    }
  }

  /**
   * The step-by-step mode reports a different state than the episode loop
   * whenever a transition moves: the calls differ exactly where a step changes state.
   */
  lemma AdvancedCallsDiffer<S, A>(steps: seq<Step<S, A>>, i: nat)
    requires i < |steps|
    ensures AdvancedQLearningCalls(steps)[i] == QLearningCalls(steps)[i] <==> steps[i].sample.state == steps[i].state
  {
  }

  // ------------------------------------------------------------------ SARSA

  /** One SARSA step: the pair acted on, the environment's answer and the action drawn for the next state. */
  datatype SarsaStep<S, A> = SarsaStep(state: S, action: A, sample: NextStateSample<S>, nextAction: A)

  /**
   * The steps a SARSA episode plays from s with action a already drawn, at
   * most n iterations left; the next action is the agent's (k + 1)-th draw.
   */
  function SarsaRollout<S, A>(env: Environment<S, A>, pick: (S, nat) -> A, s: S, a: A, n: nat, k: nat)
    : seq<SarsaStep<S, A>>
    decreases n
  {
    if n == 0 || env.isTerminatingState(s) then []
    else
      var sample := env.sampleNextStateFromStateAction(s, a);
      var nextAction := pick(sample.state, k + 1);
      [SarsaStep(s, a, sample, nextAction)] + SarsaRollout(env, pick, sample.state, nextAction, n - 1, k + 1)
  }

  /** The pair a SARSA episode stands on after the steps taken from (s, a). */
  function SarsaAfter<S, A>(s: S, a: A, steps: seq<SarsaStep<S, A>>): StateAction<S, A>
  {
    if steps == [] then StateAction(s, a)
    else StateAction(steps[|steps| - 1].sample.state, steps[|steps| - 1].nextAction)
  }

  /**
   * A SARSA episode is a chain of pairs: step i acts on the pair step i - 1
   * left (step 0 on (s, a)), off a non-terminal state, and its next action is
   * the agent's (k + i + 1)-th draw, for the state reached.
   */
  lemma {:induction false} SarsaRolloutAt<S, A>(env: Environment<S, A>, pick: (S, nat) -> A, s: S, a: A,
                                                n: nat, k: nat, i: nat)
    requires i < |SarsaRollout(env, pick, s, a, n, k)|
    ensures var r := SarsaRollout(env, pick, s, a, n, k);
            && StateAction(r[i].state, r[i].action)
               == (if i == 0 then StateAction(s, a) else StateAction(r[i - 1].sample.state, r[i - 1].nextAction))
            && !env.isTerminatingState(r[i].state)
            && r[i].sample == env.sampleNextStateFromStateAction(r[i].state, r[i].action)
            && r[i].nextAction == pick(r[i].sample.state, k + i + 1)
    decreases n
  {
    var r := SarsaRollout(env, pick, s, a, n, k);
    var sample := env.sampleNextStateFromStateAction(s, a);
    var nextAction := pick(sample.state, k + 1);
    var rest := SarsaRollout(env, pick, sample.state, nextAction, n - 1, k + 1);
    assert r == [SarsaStep(s, a, sample, nextAction)] + rest;
    if i > 0 {
      SarsaRolloutAt(env, pick, sample.state, nextAction, n - 1, k + 1, i - 1);
      assert r[i] == rest[i - 1];
      assert r[i - 1] == if i == 1 then SarsaStep(s, a, sample, nextAction) else rest[i - 2];
    }
  }

  /** At most n SARSA steps are played, and fewer only when a terminal state is reached. */
  lemma {:induction false} SarsaRolloutStops<S, A>(env: Environment<S, A>, pick: (S, nat) -> A, s: S, a: A,
                                                   n: nat, k: nat)
    ensures var r := SarsaRollout(env, pick, s, a, n, k);
            && |r| <= n
            && (|r| < n ==> env.isTerminatingState(SarsaAfter(s, a, r).state))
    decreases n
  {
    if n != 0 && !env.isTerminatingState(s) {
      var sample := env.sampleNextStateFromStateAction(s, a);
      var nextAction := pick(sample.state, k + 1);
      var rest := SarsaRollout(env, pick, sample.state, nextAction, n - 1, k + 1);
      SarsaRolloutStops(env, pick, sample.state, nextAction, n - 1, k + 1);
      var r := [SarsaStep(s, a, sample, nextAction)] + rest;
      assert SarsaAfter(s, a, r) == SarsaAfter(sample.state, nextAction, rest);
    }
  }

  /** The visits of a SARSA episode: (state, action, reward) per step. */
  function SarsaVisits<S, A>(steps: seq<SarsaStep<S, A>>): (vs: seq<Visit<S, A>>)
    ensures |vs| == |steps|
  {
    seq(|steps|, i requires 0 <= i < |steps| =>
      NewVisit(steps[i].state, steps[i].action, steps[i].sample.reward))
  }

  /** The visits the newer SARSA episode loop records: the next action in place of the action taken. */
  function NextActionVisits<S, A>(steps: seq<SarsaStep<S, A>>): (vs: seq<Visit<S, A>>)
    ensures |vs| == |steps|
  {
    seq(|steps|, i requires 0 <= i < |steps| =>
      NewVisit(steps[i].state, steps[i].nextAction, steps[i].sample.reward))
  }

  /** The SARSA calls of an episode: (s, a, sample, a') per step. */
  function SarsaCalls<S, A>(steps: seq<SarsaStep<S, A>>): (cs: seq<AgentCall<S, A>>)
    ensures |cs| == |steps|
  {
    seq(|steps|, i requires 0 <= i < |steps| =>
      SarsaCall(steps[i].state, steps[i].action, steps[i].sample, steps[i].nextAction))
  }

  /** Every SARSA visit and call is its step's, index for index. */
  lemma SarsaRecordsAt<S, A>(steps: seq<SarsaStep<S, A>>)
    ensures forall i :: 0 <= i < |steps| ==>
              && SarsaVisits(steps)[i] == Visit(steps[i].state, steps[i].action, steps[i].sample.reward, false)
              && NextActionVisits(steps)[i] == Visit(steps[i].state, steps[i].nextAction, steps[i].sample.reward, false)
              && SarsaCalls(steps)[i] == SarsaCall(steps[i].state, steps[i].action, steps[i].sample, steps[i].nextAction)
  {
  }

  /** A SARSA episode that starts with step st records st's visits and call, then the rest's. */
  lemma SarsaRecordsCons<S, A>(st: SarsaStep<S, A>, steps: seq<SarsaStep<S, A>>)
    ensures SarsaVisits([st] + steps) == [NewVisit(st.state, st.action, st.sample.reward)] + SarsaVisits(steps)
    ensures NextActionVisits([st] + steps) == [NewVisit(st.state, st.nextAction, st.sample.reward)] + NextActionVisits(steps)
    ensures SarsaCalls([st] + steps) == [SarsaCall(st.state, st.action, st.sample, st.nextAction)] + SarsaCalls(steps)
  {
    assert SarsaVisits([st] + steps) == [NewVisit(st.state, st.action, st.sample.reward)] + SarsaVisits(steps);
    assert NextActionVisits([st] + steps)
           == [NewVisit(st.state, st.nextAction, st.sample.reward)] + NextActionVisits(steps);
    assert SarsaCalls([st] + steps) == [SarsaCall(st.state, st.action, st.sample, st.nextAction)] + SarsaCalls(steps);
  }

  /**
   * The recorded action of the newer SARSA loop is the action taken one step
   * later: visit i + 1 of the honest record carries the action visit i shows.
   */
  lemma NextActionVisitsShifted<S, A>(env: Environment<S, A>, pick: (S, nat) -> A, s: S, a: A, n: nat, k: nat, i: nat)
    requires i + 1 < |SarsaRollout(env, pick, s, a, n, k)|
    ensures var r := SarsaRollout(env, pick, s, a, n, k);
            NextActionVisits(r)[i].action == SarsaVisits(r)[i + 1].action
  {
    SarsaRolloutAt(env, pick, s, a, n, k, i + 1);
  }
}
