/**
 * The newer Monte Carlo agent: lazily created uniform policies, sampling
 * from them, and on-policy first-visit Monte Carlo control for
 * epsilon-soft policies (section 5.4 of Sutton and Barto's "Reinforcement
 * Learning: An Introduction"), with the alpha rule of this revision.
 */
module MonteCarloAgent {
  import opened DataStructures
  import opened Seqs
  import opened Sampler
  import opened Trajectory
  import opened Learning

  class MonteCarloAgent<S(==), A(==)> {
    var gamma: real
    var epsilon: real
    var alpha: real
    var q: map<StateAction<S, A>, real>
    var pi: map<S, Dist<A>>
    /** `returns` of the source: every return recorded per pair. */
    var returnLists: map<StateAction<S, A>, seq<real>>
    /** The abstract `actionsForState`, fixed by the concrete agent. */
    const actionsForState: S -> seq<A>

    /** Every stored policy is over its state's actions. */
    ghost predicate Valid()
      reads this
    {
      PoliciesOver(pi, actionsForState)
    }

    /** A new agent with empty tables; the defaults are those of the source. */
    constructor (actionsForState: S -> seq<A>, gamma: real := 1.0, epsilon: real := 0.5, alpha: real := 0.125)
      ensures Valid()
      ensures this.actionsForState == actionsForState
      ensures this.gamma == gamma && this.epsilon == epsilon && this.alpha == alpha
      ensures q == map[] && pi == map[] && returnLists == map[]
    {
      this.actionsForState := actionsForState;
      this.gamma := gamma;
      this.epsilon := epsilon;
      this.alpha := alpha;
      q := map[];
      pi := map[];
      returnLists := map[];
    }

    /** `getOrCreatePolicyForState`: the stored policy, created uniform over the state's actions when missing. */
    method GetOrCreatePolicyForState(state: S) returns (policy: Dist<A>)
      requires Valid()
      modifies this
      ensures Valid()
      ensures pi == WithPolicy(old(pi), state, actionsForState(state)) && policy == pi[state]
      ensures q == old(q) && returnLists == old(returnLists)
      ensures gamma == old(gamma) && epsilon == old(epsilon) && alpha == old(alpha)
    {
      WithPolicyOver(pi, state, actionsForState);
      if state !in pi {
        var newProbs := NewUniformPolicy(actionsForState(state));
        pi := pi[state := newProbs];
      }
      policy := pi[state];
    }

    /** `sampleActionFromState` with the random draw u passed in: an action of the state, from its policy. */
    method SampleActionFromState(state: S, u: real) returns (action: A)
      requires Valid()
      requires |actionsForState(state)| > 0
      modifies this
      ensures Valid()
      ensures pi == WithPolicy(old(pi), state, actionsForState(state))
      ensures action == SampleOf(pi[state], u) && action in actionsForState(state)
      ensures q == old(q) && returnLists == old(returnLists)
      ensures gamma == old(gamma) && epsilon == old(epsilon) && alpha == old(alpha)
    {
      var policy := GetOrCreatePolicyForState(state);
      assert |policy.events| > 0 by {
        assert |multiset(Items(policy.events))| == |multiset(actionsForState(state))|;
      }
      action := SampleOf(policy, u);
      assert action in multiset(actionsForState(state)) by {
        assert action in multiset(Items(policy.events));
      }
    }

    /**
     * `improvePolicy`: the fold over the reversed trajectory with the alpha
     * rule: the tables become `McFold` of the old ones (see `McFoldFrame`
     * and `EmptyPass` for what that changes), and every flagged state's policy
     * ends epsilon-greedy on a largest Q-value of that state.
     */
    method ImprovePolicy(trajectory: Trajectory<S, A>)
      requires Valid()
      modifies this
      ensures Valid()
      ensures McTables(q, returnLists, alpha) ==
              McFold(McTables(old(q), old(returnLists), old(alpha)), AlphaNudge, gamma, trajectory.Reversed())
      ensures PassPolicies(old(pi), pi, q, StampedStates(trajectory.Reversed()), actionsForState, epsilon)
      ensures gamma == old(gamma) && epsilon == old(epsilon)
    {
      var reversed := trajectory.Reversed();
      var q1, r1, a1, p1 := MonteCarloPass(q, returnLists, alpha, pi, AlphaNudge, gamma, epsilon,
                                           reversed, actionsForState);
      q, returnLists, alpha, pi := q1, r1, a1, p1;
    }
  }
}
