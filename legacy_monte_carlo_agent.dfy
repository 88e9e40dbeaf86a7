/**
 * The older Monte Carlo agent: the same lazy policies and first-visit pass as
 * the newer one, but every Q-value is the plain mean of its recorded returns.
 */
module LegacyMonteCarloAgent {
  import opened DataStructures
  import opened Seqs
  import opened Sampler
  import opened Trajectory
  import opened Learning

  class MonteCarloAgent<S(==), A(==)> {
    var gamma: real
    var epsilon: real
    var q: map<StateAction<S, A>, real>
    var pi: map<S, Dist<A>>
    /** `returns` of the source: every return recorded per pair. */
    var returnLists: map<StateAction<S, A>, seq<real>>
    /** The abstract `actionsForState`, fixed by the concrete agent. */
    const actionsForState: S -> seq<A>

    /** Every stored policy is over its state's actions, and every Q-value is the mean of its pair's returns. */
    ghost predicate Valid()
      reads this
    {
      PoliciesOver(pi, actionsForState) && QIsMean(McTables(q, returnLists, 0.0))
    }

    /** A new agent with empty tables; the defaults are those of the source. */
    constructor (actionsForState: S -> seq<A>, gamma: real := 1.0, epsilon: real := 0.5)
      ensures Valid()
      ensures this.actionsForState == actionsForState
      ensures this.gamma == gamma && this.epsilon == epsilon
      ensures q == map[] && pi == map[] && returnLists == map[]
    {
      this.actionsForState := actionsForState;
      this.gamma := gamma;
      this.epsilon := epsilon;
      q := map[];
      pi := map[];
      returnLists := map[];
    }

    /** `getOrCreatePolicyForState`: the stored policy, created uniform over the state's actions when missing. */
    method GetOrCreatePolicyForState(state: S) returns (policy: Dist<A>)
      requires Valid()
      modifies this
      ensures Valid()
      ensures pi == WithPolicy(old(pi), state, actionsForState(state)) && policy == pi[state]
      ensures q == old(q) && returnLists == old(returnLists)
      ensures gamma == old(gamma) && epsilon == old(epsilon)
    {
      WithPolicyOver(pi, state, actionsForState);
      if state !in pi {
        var newProbs := NewUniformPolicy(actionsForState(state));
        pi := pi[state := newProbs];
      }
      policy := pi[state];
    }

    /** `sampleActionFromState` with the random draw u passed in: an action of the state, from its policy. */
    method SampleActionFromState(state: S, u: real) returns (action: A)
      requires Valid()
      requires |actionsForState(state)| > 0
      modifies this
      ensures Valid()
      ensures pi == WithPolicy(old(pi), state, actionsForState(state))
      ensures action == SampleOf(pi[state], u) && action in actionsForState(state)
      ensures q == old(q) && returnLists == old(returnLists)
      ensures gamma == old(gamma) && epsilon == old(epsilon)
    {
      var policy := GetOrCreatePolicyForState(state);
      assert |policy.events| > 0 by {
        assert |multiset(Items(policy.events))| == |multiset(actionsForState(state))|;
      }
      action := SampleOf(policy, u);
      assert action in multiset(actionsForState(state)) by {
        assert action in multiset(Items(policy.events));
      }
    }

    /**
     * `improvePolicy`: the fold over the reversed trajectory with strict
     * averaging: the tables become `McFold` of the old ones, every Q-value
     * stays the mean of its pair's returns, and every flagged state's policy
     * ends epsilon-greedy on a largest Q-value of that state.
     */
    method ImprovePolicy(trajectory: Trajectory<S, A>)
      requires Valid()
      modifies this
      ensures Valid()
      ensures var t := McFold(McTables(old(q), old(returnLists), 0.0), StrictAverage, gamma, trajectory.Reversed());
              q == t.q && returnLists == t.returnLists
      ensures PassPolicies(old(pi), pi, q, StampedStates(trajectory.Reversed()), actionsForState, epsilon)
      ensures gamma == old(gamma) && epsilon == old(epsilon)
    {
      var reversed := trajectory.Reversed();
      StrictAverageKeepsMean(McTables(q, returnLists, 0.0), gamma, reversed);
      var q1, r1, _, p1 := MonteCarloPass(q, returnLists, 0.0, pi, StrictAverage, gamma, epsilon,
                                          reversed, actionsForState);
      q, returnLists, pi := q1, r1, p1;
    }
  }
}
