/**
 * The older combined race-car agent: one set of tables shared by a
 * strict-average Monte Carlo pass, a Q-learning step and a SARSA step, with
 * every state offered the four race-track actions.
 */
module LegacyRaceCar {
  import opened DataStructures
  import opened Seqs
  import opened Sampler
  import opened Trajectory
  import opened Learning

  class RaceCar {
    var gamma: real
    var epsilon: real
    var alpha: real
    var q: map<StateAction<RaceTrackState, RaceTrackAction>, real>
    var pi: map<RaceTrackState, Dist<RaceTrackAction>>
    /** `returns` of the source: every return recorded per pair. */
    var returnLists: map<StateAction<RaceTrackState, RaceTrackAction>, seq<real>>

    /** `actionsForState`: `RACETRACK_ACTIONS` for every state (see `ActionsForStateComplete`). */
    static function ActionsForState(state: RaceTrackState): seq<RaceTrackAction>
    {
      RACETRACK_ACTIONS
    }

    /** The actions offered in each state: `ActionsForState`, fixed by the constructor. */
    const actionsForState: RaceTrackState -> seq<RaceTrackAction>

    /** Every state is offered four actions, and every stored policy is over them. */
    ghost predicate Valid()
      reads this
    {
      && PoliciesOver(pi, actionsForState)
      && forall s :: |actionsForState(s)| == 4
    }

    /** A new agent with empty tables; the defaults are those of the source. */
    constructor (gamma: real := 1.0, epsilon: real := 0.5, alpha: real := 0.1)
      ensures Valid()
      ensures actionsForState == ActionsForState
      ensures this.gamma == gamma && this.epsilon == epsilon && this.alpha == alpha
      ensures q == map[] && pi == map[] && returnLists == map[]
    {
      actionsForState := ActionsForState;
      this.gamma := gamma;
      this.epsilon := epsilon;
      this.alpha := alpha;
      q := map[];
      pi := map[];
      returnLists := map[];
    }

    /** `getOrCreatePolicyForState`: the stored policy, created uniform over `RACETRACK_ACTIONS` when missing. */
    method GetOrCreatePolicyForState(raceTrackState: RaceTrackState) returns (policy: Dist<RaceTrackAction>)
      requires Valid()
      modifies this
      ensures Valid()
      ensures pi == WithPolicy(old(pi), raceTrackState, actionsForState(raceTrackState)) && policy == pi[raceTrackState]
      ensures q == old(q) && returnLists == old(returnLists)
      ensures gamma == old(gamma) && epsilon == old(epsilon) && alpha == old(alpha)
    {
      WithPolicyOver(pi, raceTrackState, actionsForState);
      if raceTrackState !in pi {
        var newProbs := NewUniformPolicy(actionsForState(raceTrackState));
        pi := pi[raceTrackState := newProbs];
      }
      policy := pi[raceTrackState];
    }

    /** `sampleActionFromState` with the random draw u passed in: the action the state's policy picks. */
    method SampleActionFromState(state: RaceTrackState, u: real) returns (action: RaceTrackAction)
      requires Valid()
      modifies this
      ensures Valid()
      ensures pi == WithPolicy(old(pi), state, actionsForState(state))
      ensures action == SampleOf(pi[state], u) && action in actionsForState(state)
      ensures q == old(q) && returnLists == old(returnLists)
      ensures gamma == old(gamma) && epsilon == old(epsilon) && alpha == old(alpha)
    {
      var actionProbs := GetOrCreatePolicyForState(state);
      assert |actionProbs.events| > 0 by {
        assert |multiset(Items(actionProbs.events))| == |multiset(actionsForState(state))|;
      }
      action := SampleOf(actionProbs, u);
      assert action in multiset(actionsForState(state)) by {
        assert action in multiset(Items(actionProbs.events));
      }
    }

    /**
     * `improvePolicyWithMonteCarlo`: the strict-average fold over the
     * reversed visit list; the tables become `McFold` of the old ones, and
     * every flagged state's policy ends epsilon-greedy on a largest Q-value.
     */
    method ImprovePolicyWithMonteCarlo(trajectory: seq<Visit<RaceTrackState, RaceTrackAction>>)
      requires Valid()
      modifies this
      ensures Valid()
      ensures var t := McFold(McTables(old(q), old(returnLists), 0.0), StrictAverage, gamma, Reverse(trajectory));
              q == t.q && returnLists == t.returnLists
      ensures PassPolicies(old(pi), pi, q, StampedStates(Reverse(trajectory)), actionsForState, epsilon)
      ensures gamma == old(gamma) && epsilon == old(epsilon) && alpha == old(alpha)
    {
      var reversed := Reverse(trajectory);
      var q1, r1, _, p1 := MonteCarloPass(q, returnLists, 0.0, pi, StrictAverage, gamma, epsilon,
                                          reversed, actionsForState);
      q, returnLists, pi := q1, r1, p1;
    }

    /**
     * `improvePolicyWithQLearning`: only (state, action) changes in `q`, to
     * the Q-learning value, and the state's policy becomes epsilon-greedy.
     */
    method ImprovePolicyWithQLearning(state: RaceTrackState, action: RaceTrackAction,
                                      nextStateSample: NextStateSample<RaceTrackState>)
      requires Valid()
      modifies this
      ensures Valid()
      ensures q == old(q)[StateAction(state, action) :=
                          QLearningValue(old(q), state, action, nextStateSample, actionsForState(state), gamma, alpha)]
      ensures pi == TdPolicies(old(pi), q, state, actionsForState(state), epsilon)
      ensures returnLists == old(returnLists)
      ensures gamma == old(gamma) && epsilon == old(epsilon) && alpha == old(alpha)
    {
      var table, policies := QLearningImprove(q, pi, state, action, nextStateSample, actionsForState,
                                              gamma, alpha, epsilon);
      q, pi := table, policies;
    }

    /**
     * `improvePolicyWithSarsa`: only (state, action) changes in `q`, to the
     * SARSA value, and the state's policy becomes epsilon-greedy.
     */
    method ImprovePolicyWithSarsa(state: RaceTrackState, action: RaceTrackAction,
                                  nextStateSample: NextStateSample<RaceTrackState>, nextAction: RaceTrackAction)
      requires Valid()
      modifies this
      ensures Valid()
      ensures q == old(q)[StateAction(state, action) :=
                          SarsaValue(old(q), state, action, nextStateSample, nextAction, gamma, alpha)]
      ensures pi == TdPolicies(old(pi), q, state, actionsForState(state), epsilon)
      ensures returnLists == old(returnLists)
      ensures gamma == old(gamma) && epsilon == old(epsilon) && alpha == old(alpha)
    {
      var table, policies := SarsaImprove(q, pi, state, action, nextStateSample, nextAction, actionsForState,
                                          gamma, alpha, epsilon);
      q, pi := table, policies;
    }
  }

  /** Every state is offered each of the four race-track actions exactly once. */
  lemma ActionsForStateComplete(state: RaceTrackState)
    ensures |RaceCar.ActionsForState(state)| == 4 && Distinct(RaceCar.ActionsForState(state))
    ensures forall a: RaceTrackAction :: a in RaceCar.ActionsForState(state)
  {
    RaceTrackActionsComplete();
  }

  /**
   * With the four distinct race-track actions every rewritten policy's
   * weights add up to 1, after a Monte Carlo pass as after a TD step.
   */
  lemma RaceCarPoliciesSumToOne(pi: map<RaceTrackState, Dist<RaceTrackAction>>,
                                q: map<StateAction<RaceTrackState, RaceTrackAction>, real>,
                                s: RaceTrackState, eps: real)
    requires PoliciesOver(pi, RaceCar.ActionsForState)
    ensures TdPolicies(pi, q, s, RaceCar.ActionsForState(s), eps)[s].cumulativeWeight == 1.0
    ensures s in pi && EpsGreedyAt(pi[s], q, s, RaceCar.ActionsForState(s), eps) ==> pi[s].cumulativeWeight == 1.0
  {
    var actions := RaceCar.ActionsForState(s);
    ActionsForStateComplete(s);
    TdPoliciesSpec(pi, q, s, actions, eps);
    if s in pi && EpsGreedyAt(pi[s], q, s, actions, eps) {
      var k :| k in q && k.state == s && IsMaxAt(q, s, k.action) && GreedyShaped(pi[s], k.action, actions, eps);
      GreedyTotalIsOne(k.action, actions, eps);
    }
  }
}
