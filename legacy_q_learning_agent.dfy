/**
 * The older Q-learning agent: lazily created uniform policies, and one
 * Q-learning step per transition followed by the epsilon-greedy rewrite of
 * the updated state's policy.
 */
module LegacyQLearningAgent {
  import opened DataStructures
  import opened Sampler
  import opened Learning

  class QLearningAgent<S(==), A(==)> {
    var gamma: real
    var epsilon: real
    var alpha: real
    var q: map<StateAction<S, A>, real>
    var pi: map<S, Dist<A>>
    /** The abstract `actionsForState`, fixed by the concrete agent. */
    const actionsForState: S -> seq<A>

    /** Every stored policy is over its state's actions. */
    ghost predicate Valid()
      reads this
    {
      PoliciesOver(pi, actionsForState)
    }

    /** A new agent with empty tables; the defaults are those of the source. */
    constructor (actionsForState: S -> seq<A>, gamma: real := 1.0, epsilon: real := 0.5, alpha: real := 0.1)
      ensures Valid()
      ensures this.actionsForState == actionsForState
      ensures this.gamma == gamma && this.epsilon == epsilon && this.alpha == alpha
      ensures q == map[] && pi == map[]
    {
      this.actionsForState := actionsForState;
      this.gamma := gamma;
      this.epsilon := epsilon;
      this.alpha := alpha;
      q := map[];
      pi := map[];
    }

    /** `getOrCreatePolicyForState`: the stored policy, created uniform over the state's actions when missing. */
    method GetOrCreatePolicyForState(state: S) returns (policy: Dist<A>)
      requires Valid()
      modifies this
      ensures Valid()
      ensures pi == WithPolicy(old(pi), state, actionsForState(state)) && policy == pi[state]
      ensures q == old(q)
      ensures gamma == old(gamma) && epsilon == old(epsilon) && alpha == old(alpha)
    {
      WithPolicyOver(pi, state, actionsForState);
      if state !in pi {
        var newProbs := NewUniformPolicy(actionsForState(state));
        pi := pi[state := newProbs];
      }
      policy := pi[state];
    }

    /** `sampleActionFromState` with the random draw u passed in: an action of the state, from its policy. */
    method SampleActionFromState(state: S, u: real) returns (action: A)
      requires Valid()
      requires |actionsForState(state)| > 0
      modifies this
      ensures Valid()
      ensures pi == WithPolicy(old(pi), state, actionsForState(state))
      ensures action == SampleOf(pi[state], u) && action in actionsForState(state)
      ensures q == old(q)
      ensures gamma == old(gamma) && epsilon == old(epsilon) && alpha == old(alpha)
    {
      var policy := GetOrCreatePolicyForState(state);
      assert |policy.events| > 0 by {
        assert |multiset(Items(policy.events))| == |multiset(actionsForState(state))|;
      }
      action := SampleOf(policy, u);
      assert action in multiset(actionsForState(state)) by {
        assert action in multiset(Items(policy.events));
      }
    }

    /**
     * `improvePolicy`: only the entry (state, action) of `q` is inserted or
     * changed, to the Q-learning value; then the state's policy is created if
     * needed and made epsilon-greedy on its best-ranked action.
     */
    method ImprovePolicy(state: S, action: A, nextStateSample: NextStateSample<S>)
      requires Valid()
      requires |actionsForState(state)| > 0
      modifies this
      ensures Valid()
      ensures q == old(q)[StateAction(state, action) :=
                          QLearningValue(old(q), state, action, nextStateSample, actionsForState(state), gamma, alpha)]
      ensures pi == TdPolicies(old(pi), q, state, actionsForState(state), epsilon)
      ensures gamma == old(gamma) && epsilon == old(epsilon) && alpha == old(alpha)
    {
      var table, policies := QLearningImprove(q, pi, state, action, nextStateSample, actionsForState,
                                              gamma, alpha, epsilon);
      q, pi := table, policies;
    }
  }
}
