/**
 * The learning rules the agents of both revisions share: lazily created
 * uniform policies, the epsilon-greedy rewrite of a state's policy, the
 * Q-learning and SARSA temporal-difference values, the two greedy-action
 * rules, and the first-visit Monte Carlo pass over a reversed trajectory.
 *
 * Tables are maps over `real`. A policy is the value of a
 * `ProbabilityDistribution` (a `Dist`), stored per state.
 */
module Learning {
  import opened Wrappers
  import opened DataStructures
  import opened Seqs
  import opened Sampler
  import opened Trajectory

  // ------------------------------------------------------------- policies

  /** `getOrCreatePolicyForState` on the policy map: a missing state gets a uniform policy. */
  function WithPolicy<S(==), A>(pi: map<S, Dist<A>>, s: S, actions: seq<A>): (r: map<S, Dist<A>>)
    ensures s in r && r.Keys == pi.Keys + {s}
    ensures s in pi ==> r == pi
  {
    if s in pi then pi else pi[s := Uniform(actions)]
  }

  /** Creating a policy a second time changes nothing; the first creation stores a uniform policy. */
  lemma WithPolicyIdempotent<S, A>(pi: map<S, Dist<A>>, s: S, actions: seq<A>)
    ensures WithPolicy(WithPolicy(pi, s, actions), s, actions) == WithPolicy(pi, s, actions)
    ensures s !in pi ==> WithPolicy(pi, s, actions)[s] == Uniform(actions)
    ensures forall t :: t in pi ==> WithPolicy(pi, s, actions)[t] == pi[t]
  {
  }

  /** Every stored policy's events are exactly the actions of its state. */
  ghost predicate PoliciesOver<S, A>(pi: map<S, Dist<A>>, actionsForState: S -> seq<A>)
  {
    forall s :: s in pi ==> multiset(Items(pi[s].events)) == multiset(actionsForState(s))
  }

  /** Lazy creation keeps every policy over its state's actions. */
  lemma WithPolicyOver<S, A>(pi: map<S, Dist<A>>, s: S, actionsForState: S -> seq<A>)
    requires PoliciesOver(pi, actionsForState)
    ensures PoliciesOver(WithPolicy(pi, s, actionsForState(s)), actionsForState)
  {
    UniformItems(actionsForState(s));
  }

  /** The initializer `getOrCreatePolicyForState` runs: a new distribution, `setEvents(actions)`, `normalize()`. */
  method NewUniformPolicy<A>(actions: seq<A>) returns (d: Dist<A>)
    ensures d == Uniform(actions)
    ensures multiset(Items(d.events)) == multiset(actions)
  {
    var newProbs := new ProbabilityDistribution<A>();
    newProbs.SetEvents(actions);
    assert newProbs.Value() == Dist(Seeded(actions), 0.0);
    newProbs.Normalize();
    d := newProbs.Value();
    UniformItems(actions);
  }

  // ------------------------------------------------------ epsilon-greedy

  /** The greedy action's weight, 1 - eps + eps / n. */
  function HighWeight(eps: real, n: nat): real
    requires n > 0
  {
    1.0 - eps + eps / n as real
  }

  /** Every other action's weight, eps / n. */
  function LowWeight(eps: real, n: nat): real
    requires n > 0
  {
    eps / n as real
  }

  /** `hi` for the greedy action, `lo` for every other. */
  function Pick<A(==)>(item: A, maxAction: A, hi: real, lo: real): real
  {
    if item == maxAction then hi else lo
  }

  function GreedyWeight<A(==)>(item: A, maxAction: A, eps: real, n: nat): real
    requires n > 0
  {
    Pick(item, maxAction, HighWeight(eps, n), LowWeight(eps, n))
  }

  /** Every event's weight set to `hi` or `lo`; items and densities stay. */
  function Picked<A(==)>(events: seq<Event<A>>, maxAction: A, hi: real, lo: real): (r: seq<Event<A>>)
    ensures |r| == |events|
    ensures Items(r) == Items(events)
    ensures forall i :: 0 <= i < |events| ==> r[i].integratedDensity == events[i].integratedDensity
  {
    seq(|events|, i requires 0 <= i < |events| => events[i].(weight := Pick(events[i].item, maxAction, hi, lo)))
  }

  /** The weight loop of every `improvePolicy`. */
  function Reweighted<A(==)>(events: seq<Event<A>>, maxAction: A, eps: real, n: nat): (r: seq<Event<A>>)
    requires n > 0 || events == []
  {
    if n == 0 then [] else Picked(events, maxAction, HighWeight(eps, n), LowWeight(eps, n))
  }

  /** The weight loop followed by `normalize`. */
  function GreedyPolicy<A(==)>(d: Dist<A>, maxAction: A, eps: real, n: nat): Dist<A>
    requires n > 0 || d.events == []
  {
    Normalized(Dist(Reweighted(d.events, maxAction, eps, n), d.cumulativeWeight))
  }

  /** The total weight of an epsilon-greedy policy over `actions` that prefers `maxAction`. */
  function GreedyTotal<A(==)>(maxAction: A, actions: seq<A>, eps: real): real
    requires |actions| > 0
  {
    var c := multiset(actions)[maxAction];
    Times(c, HighWeight(eps, |actions|)) + Times(|actions| - c, LowWeight(eps, |actions|))
  }

  /** k copies of x added up. */
  function Times(k: nat, x: real): real
  {
    if k == 0 then 0.0 else Times(k - 1, x) + x
  }

  lemma {:induction false} TimesIsProduct(k: nat, x: real)
    ensures Times(k, x) == k as real * x
  {
    if k > 0 {
      TimesIsProduct(k - 1, x);
      assert (k - 1) as real * x + x == k as real * x;
    }
  }

  /**
   * An epsilon-greedy policy over `actions` preferring `maxAction`: one event
   * per action, the greedy weights, sorted densities and the matching total.
   */
  ghost predicate GreedyShaped<A>(d: Dist<A>, maxAction: A, actions: seq<A>, eps: real)
  {
    && multiset(Items(d.events)) == multiset(actions)
    && DensitySorted(d.events)
    && (|actions| > 0 ==> d.cumulativeWeight == GreedyTotal(maxAction, actions, eps))
    && forall e :: e in d.events ==> |actions| > 0 && e.weight == GreedyWeight(e.item, maxAction, eps, |actions|)
  }

  /** The picked weights add up to c copies of `hi` and (n - c) of `lo`, c the greedy action's count. */
  lemma {:induction false} PickedSum<A>(events: seq<Event<A>>, maxAction: A, hi: real, lo: real)
    ensures WeightSum(Picked(events, maxAction, hi, lo)) ==
            Times(multiset(Items(events))[maxAction], hi)
            + Times(|events| - multiset(Items(events))[maxAction], lo)
  {
    if events == [] {
      assert Items(events) == [];
    } else {
      var init := events[..|events| - 1];
      var last := events[|events| - 1];
      PickedSum(init, maxAction, hi, lo);
      var r := Picked(events, maxAction, hi, lo);
      assert r[..|r| - 1] == Picked(init, maxAction, hi, lo);
      assert r[|r| - 1].weight == Pick(last.item, maxAction, hi, lo);
      CountItemsSnoc(events, maxAction);
    }
  }

  /** Dropping the last event lowers an item's count by one exactly when that event holds it. */
  lemma CountItemsSnoc<A>(events: seq<Event<A>>, x: A)
    requires |events| > 0
    ensures multiset(Items(events))[x] ==
            multiset(Items(events[..|events| - 1]))[x] + (if events[|events| - 1].item == x then 1 else 0)
  {
    var init := events[..|events| - 1];
    var last := events[|events| - 1];
    assert events == init + [last];
    ItemsSnoc(init, last);
    CountSnoc(Items(init), last.item, x);
  }

  lemma CountSnoc<A>(s: seq<A>, x: A, y: A)
    ensures multiset(s + [x])[y] == multiset(s)[y] + (if x == y then 1 else 0)
  {
    assert multiset(s + [x]) == multiset(s) + multiset{x};
  }

  /** Every event of a rewritten policy carries its greedy weight. */
  lemma GreedyPolicyWeights<A>(d: Dist<A>, maxAction: A, eps: real, n: nat)
    requires n > 0
    ensures forall e :: e in GreedyPolicy(d, maxAction, eps, n).events ==>
              e.weight == GreedyWeight(e.item, maxAction, eps, n)
  {
    var rw := Reweighted(d.events, maxAction, eps, n);
    var g := GreedyPolicy(d, maxAction, eps, n);
    NormalizedPermutes(Dist(rw, d.cumulativeWeight));
    forall e | e in g.events
      ensures e.weight == GreedyWeight(e.item, maxAction, eps, n)
    {
      assert (e.item, e.weight) in ItemWeights(rw);
      var i :| 0 <= i < |rw| && ItemWeights(rw)[i] == (e.item, e.weight);
      assert rw[i].item == e.item;
    }
  }

  /** The rewritten policy's total weight is the epsilon-greedy total. */
  lemma GreedyPolicyTotal<A>(d: Dist<A>, maxAction: A, actions: seq<A>, eps: real)
    requires multiset(Items(d.events)) == multiset(actions) && |actions| > 0
    ensures GreedyPolicy(d, maxAction, eps, |actions|).cumulativeWeight == GreedyTotal(maxAction, actions, eps)
  {
    var n := |actions|;
    assert |d.events| == n by {
      assert |multiset(Items(d.events))| == |multiset(actions)|;
    }
    var hi, lo := HighWeight(eps, n), LowWeight(eps, n);
    PickedSum(d.events, maxAction, hi, lo);
  }

  /** Rewriting a policy over `actions` gives an epsilon-greedy policy over `actions`. */
  lemma GreedyPolicyShaped<A>(d: Dist<A>, maxAction: A, actions: seq<A>, eps: real)
    requires multiset(Items(d.events)) == multiset(actions)
    ensures |actions| > 0 || d.events == []
    ensures GreedyShaped(GreedyPolicy(d, maxAction, eps, |actions|), maxAction, actions, eps)
  {
    assert |Items(d.events)| == |actions| by {
      assert |multiset(Items(d.events))| == |multiset(actions)|;
    }
    var rw := Reweighted(d.events, maxAction, eps, |actions|);
    NormalizedPermutes(Dist(rw, d.cumulativeWeight));
    if |actions| > 0 {
      GreedyPolicyTotal(d, maxAction, actions, eps);
      GreedyPolicyWeights(d, maxAction, eps, |actions|);
    }
  }

  /** With all actions distinct and the greedy one among them, the weights add up to 1. */
  lemma GreedyTotalIsOne<A>(maxAction: A, actions: seq<A>, eps: real)
    requires Distinct(actions) && maxAction in actions
    ensures GreedyTotal(maxAction, actions, eps) == 1.0
  {
    DistinctCount(actions, maxAction);
    var n := |actions| as real;
    TimesIsProduct(|actions| - 1, eps / n);
    assert Times(1, HighWeight(eps, |actions|)) == HighWeight(eps, |actions|);
    assert (|actions| - 1) as real * (eps / n) == eps - eps / n;
  }

  /** A greedy action that is not among the actions leaves total weight eps. */
  lemma GreedyTotalMissing<A>(maxAction: A, actions: seq<A>, eps: real)
    requires |actions| > 0 && maxAction !in actions
    ensures GreedyTotal(maxAction, actions, eps) == eps
  {
    assert multiset(actions)[maxAction] == 0;
    TimesIsProduct(|actions|, eps / |actions| as real);
  }

  /** A distinct sequence holds each of its elements once. */
  lemma {:induction false} DistinctCount<A>(s: seq<A>, x: A)
    requires Distinct(s) && x in s
    ensures multiset(s)[x] == 1
  {
    var init := s[..|s| - 1];
    var last := s[|s| - 1];
    assert s == init + [last];
    assert Distinct(init);
    if x == last {
      assert x !in init;
    } else {
      DistinctCount(init, x);
    }
  }

  /** For eps in [0, 1] the weights are non-negative, so `normalize` keeps the policy's order. */
  lemma GreedyPolicyKeepsOrder<A>(d: Dist<A>, maxAction: A, eps: real, n: nat)
    requires n > 0 && 0.0 <= eps <= 1.0
    ensures GreedyPolicy(d, maxAction, eps, n).events == WithPrefixSums(Reweighted(d.events, maxAction, eps, n))
    ensures Items(GreedyPolicy(d, maxAction, eps, n).events) == Items(d.events)
  {
    var rw := Reweighted(d.events, maxAction, eps, n);
    assert 0.0 <= eps / n as real <= 1.0 / n as real <= 1.0;
    assert forall k :: 0 <= k < |rw| ==> rw[k].weight >= 0.0;
    NormalizedNonNegative(Dist(rw, d.cumulativeWeight));
    PrefixSumsShape(rw);
  }

  /** The weight loop, rewriting each event in order. */
  method ReweightEvents<A(==)>(events: seq<Event<A>>, maxAction: A, eps: real, n: nat) returns (r: seq<Event<A>>)
    requires n > 0 || events == []
    ensures r == Reweighted(events, maxAction, eps, n)
  {
    r := events;
    var i := 0;
    while i < |r|
      invariant 0 <= i <= |r| == |events|
      invariant forall k :: 0 <= k < i ==> r[k] == events[k].(weight := GreedyWeight(events[k].item, maxAction, eps, n))
      invariant forall k :: i <= k < |r| ==> r[k] == events[k]
    {
      if r[i].item == maxAction {
        r := r[i := r[i].(weight := 1.0 - eps + (eps / n as real))];
      } else {
        r := r[i := r[i].(weight := eps / n as real)];
      }
      i := i + 1;
    }
  }

  // ---------------------------------------------------------- TD values

  /** A table entry, with a missing entry read as 0 (`getOrDefault(sa, 0.0)`). */
  function QOrZero<S(==), A(==)>(q: map<StateAction<S, A>, real>, k: StateAction<S, A>): real
  {
    if k in q then q[k] else 0.0
  }

  /** `max()` of a non-empty list of values. */
  function MaxOf(xs: seq<real>): (m: real)
    requires |xs| > 0
    ensures m in xs
    ensures forall i :: 0 <= i < |xs| ==> xs[i] <= m
  {
    if |xs| == 1 then xs[0]
    else
      var m := MaxOf(xs[..|xs| - 1]);
      if m < xs[|xs| - 1] then xs[|xs| - 1] else m
  }

  /** The largest value of the next state over the given actions, missing entries as 0. */
  function MaxNextQ<S(==), A(==)>(q: map<StateAction<S, A>, real>, next: S, actions: seq<A>): (m: real)
    requires |actions| > 0
    ensures forall a :: a in actions ==> QOrZero(q, StateAction(next, a)) <= m
    ensures exists a :: a in actions && QOrZero(q, StateAction(next, a)) == m
  {
    var xs := seq(|actions|, i requires 0 <= i < |actions| => QOrZero(q, StateAction(next, actions[i])));
    MappedMembers(q, next, actions);
    MaxOf(xs)
  }

  lemma MappedMembers<S, A>(q: map<StateAction<S, A>, real>, next: S, actions: seq<A>)
    ensures var xs := seq(|actions|, i requires 0 <= i < |actions| => QOrZero(q, StateAction(next, actions[i])));
            (forall a :: a in actions ==> QOrZero(q, StateAction(next, a)) in xs)
            && forall x :: x in xs ==> exists a :: a in actions && QOrZero(q, StateAction(next, a)) == x
  {
    var xs := seq(|actions|, i requires 0 <= i < |actions| => QOrZero(q, StateAction(next, actions[i])));
    forall a | a in actions
      ensures QOrZero(q, StateAction(next, a)) in xs
    {
      var i :| 0 <= i < |actions| && actions[i] == a;
      assert xs[i] == QOrZero(q, StateAction(next, a));
    }
    forall x | x in xs
      ensures exists a :: a in actions && QOrZero(q, StateAction(next, a)) == x
    {
      var i :| 0 <= i < |xs| && xs[i] == x;
      assert actions[i] in actions;
    }
  }

  /** `getOrPut(sa, 0.0)` stores the value a 0-default read gives, so no later 0-default read changes. */
  lemma DefaultInsertKeepsReads<S, A>(q: map<StateAction<S, A>, real>, sa: StateAction<S, A>, next: S, actions: seq<A>)
    requires |actions| > 0
    ensures forall k :: QOrZero(q[sa := QOrZero(q, sa)], k) == QOrZero(q, k)
    ensures MaxNextQ(q[sa := QOrZero(q, sa)], next, actions) == MaxNextQ(q, next, actions)
  {
    var q' := q[sa := QOrZero(q, sa)];
    var m, m' := MaxNextQ(q, next, actions), MaxNextQ(q', next, actions);
    var a :| a in actions && QOrZero(q, StateAction(next, a)) == m;
    var a' :| a' in actions && QOrZero(q', StateAction(next, a')) == m';
    assert QOrZero(q', StateAction(next, a)) == m;
    assert QOrZero(q, StateAction(next, a')) == m';
  }

  /**
   * The Q-learning value: old + alpha * (reward + gamma * maxQ - old), old and
   * maxQ read with missing entries as 0; for alpha in [0, 1] it lies between
   * the old value and the target. The maximum ranges over the actions
   * of the state being updated, as the source computes it.
   */
  function QLearningValue<S(==), A(==)>(q: map<StateAction<S, A>, real>, s: S, a: A, sample: NextStateSample<S>,
                                actions: seq<A>, gamma: real, alpha: real): (v: real)
    requires |actions| > 0
    ensures var prev := QOrZero(q, StateAction(s, a));
            var target := sample.reward + gamma * MaxNextQ(q, sample.state, actions);
            0.0 <= alpha <= 1.0 ==> (prev <= target ==> prev <= v <= target) && (target <= prev ==> target <= v <= prev)
  {
    var saValue := QOrZero(q, StateAction(s, a));
    var target := sample.reward + gamma * MaxNextQ(q, sample.state, actions);
    if 0.0 <= alpha <= 1.0 then
      TdStepBetween(saValue, target, alpha, Nudge(saValue, target, alpha));
      Nudge(saValue, target, alpha)
    else
      Nudge(saValue, target, alpha)
  }

  /**
   * The SARSA value: old + alpha * (reward + gamma * Q(s', a') - old), missing
   * entries as 0; for alpha in [0, 1] it lies between the old value and the
   * target.
   */
  function SarsaValue<S(==), A(==)>(q: map<StateAction<S, A>, real>, s: S, a: A, sample: NextStateSample<S>,
                            nextAction: A, gamma: real, alpha: real): (v: real)
    ensures var prev := QOrZero(q, StateAction(s, a));
            var target := sample.reward + gamma * QOrZero(q, StateAction(sample.state, nextAction));
            0.0 <= alpha <= 1.0 ==> (prev <= target ==> prev <= v <= target) && (target <= prev ==> target <= v <= prev)
  {
    var saValue := QOrZero(q, StateAction(s, a));
    var target := sample.reward + gamma * QOrZero(q, StateAction(sample.state, nextAction));
    if 0.0 <= alpha <= 1.0 then
      TdStepBetween(saValue, target, alpha, Nudge(saValue, target, alpha));
      Nudge(saValue, target, alpha)
    else
      Nudge(saValue, target, alpha)
  }

  /**
   * The table update of Q-learning's `improvePolicy`: `getOrPut(sa, 0.0)`,
   * the maximum over the next state, then the assignment of the new value.
   */
  method QLearningUpdate<S(==), A(==)>(q: map<StateAction<S, A>, real>, s: S, a: A, sample: NextStateSample<S>,
                                       actions: seq<A>, gamma: real, alpha: real) returns (r: map<StateAction<S, A>, real>)
    requires |actions| > 0
    ensures r == q[StateAction(s, a) := QLearningValue(q, s, a, sample, actions, gamma, alpha)]
  {
    var sa := StateAction(s, a);
    var saValue := QOrZero(q, sa);
    r := q[sa := saValue];
    DefaultInsertKeepsReads(q, sa, sample.state, actions);
    var maxQ := MaxNextQ(r, sample.state, actions);
    assert maxQ == MaxNextQ(q, sample.state, actions);
    var delta := sample.reward + gamma * maxQ - saValue;
    assert saValue + alpha * delta == QLearningValue(q, s, a, sample, actions, gamma, alpha);
    r := r[sa := saValue + alpha * delta];
  }

  /**
   * The table update of SARSA's `improvePolicy`: the next pair is read with
   * `getOrElse`, the current one with `getOrPut(sa, 0.0)`, then the new value
   * is assigned.
   */
  method SarsaUpdate<S(==), A(==)>(q: map<StateAction<S, A>, real>, s: S, a: A, sample: NextStateSample<S>,
                                   nextAction: A, gamma: real, alpha: real) returns (r: map<StateAction<S, A>, real>)
    ensures r == q[StateAction(s, a) := SarsaValue(q, s, a, sample, nextAction, gamma, alpha)]
  {
    var sa := StateAction(s, a);
    var nextValue := QOrZero(q, StateAction(sample.state, nextAction));
    var saValue := QOrZero(q, sa);
    r := q[sa := saValue];
    var delta := sample.reward + gamma * nextValue - saValue;
    assert r[sa] + alpha * delta == SarsaValue(q, s, a, sample, nextAction, gamma, alpha);
    r := r[sa := r[sa] + alpha * delta];
  }

  /** With alpha in [0, 1] a TD step moves the value between the old value and the target. */
  lemma TdStepBetween(prev: real, target: real, alpha: real, v: real)
    requires 0.0 <= alpha <= 1.0
    requires v == Nudge(prev, target, alpha)
    ensures prev <= target ==> prev <= v <= target
    ensures target <= prev ==> target <= v <= prev
  {
    var d := target - prev;
    var step := alpha * d;
    assert v == prev + step;
    if d >= 0.0 {
      assert 0.0 <= step <= d;
    } else {
      assert d <= step <= 0.0;
    }
  }

  /** Example: old 0, reward 2, gamma 0.9, alpha 0.5 and maxQ 4 give 2.8. */
  lemma QLearningExample(s: RaceTrackState, next: RaceTrackState)
    requires s != next
    ensures QLearningValue(map[StateAction(next, Up) := 4.0], s, Up, NextStateSample(next, 2.0),
                           [Up], 0.9, 0.5) == 2.8
  {
    var q := map[StateAction(next, Up) := 4.0];
    assert MaxNextQ(q, next, [Up]) == 4.0;
  }

  // ------------------------------------------------------ greedy actions

  /** An entry's rank; a missing entry is `None`, which ranks below every value (negative infinity). */
  function Rank<S(==), A(==)>(q: map<StateAction<S, A>, real>, k: StateAction<S, A>): Option<real>
  {
    if k in q then Some(q[k]) else None
  }

  /** x ranks strictly below y. */
  predicate Below(x: Option<real>, y: Option<real>)
  {
    y.Some? && (x.None? || x.value < y.value)
  }

  /** `maxBy`: the first index of a maximal rank. */
  function FirstMaxIndex(ranks: seq<Option<real>>): (i: nat)
    requires |ranks| > 0
    ensures i < |ranks|
    ensures forall j :: 0 <= j < |ranks| ==> !Below(ranks[i], ranks[j])
    ensures forall j :: 0 <= j < i ==> Below(ranks[j], ranks[i])
  {
    if |ranks| == 1 then 0
    else
      var b := FirstMaxIndex(ranks[..|ranks| - 1]);
      if Below(ranks[b], ranks[|ranks| - 1]) then |ranks| - 1 else b
  }

  /** The ranks of a policy's actions at state s, in event order. */
  function PolicyRanks<S(==), A(==)>(q: map<StateAction<S, A>, real>, s: S, events: seq<Event<A>>): seq<Option<real>>
  {
    seq(|events|, i requires 0 <= i < |events| => Rank(q, StateAction(s, events[i].item)))
  }

  /**
   * The temporal-difference agents' greedy action: the first policy action of
   * maximal value, missing entries ranking lowest, so an untried action is
   * never chosen over a tried one.
   */
  function TdGreedyAction<S(==), A(==)>(q: map<StateAction<S, A>, real>, s: S, events: seq<Event<A>>): (a: A)
    requires |events| > 0
    ensures a in Items(events)
    ensures forall e :: e in events ==> !Below(Rank(q, StateAction(s, a)), Rank(q, StateAction(s, e.item)))
    ensures (exists e :: e in events && StateAction(s, e.item) in q) ==> StateAction(s, a) in q
  {
    var ranks := PolicyRanks(q, s, events);
    var i := FirstMaxIndex(ranks);
    assert Items(events)[i] == events[i].item;
    forall e | e in events
      ensures !Below(Rank(q, StateAction(s, events[i].item)), Rank(q, StateAction(s, e.item)))
    {
      var j :| 0 <= j < |events| && events[j] == e;
      assert ranks[j] == Rank(q, StateAction(s, e.item));
    }
    events[i].item
  }

  /**
   * The policy rewrite after a temporal-difference update: create the state's
   * policy if needed, then make it epsilon-greedy on `TdGreedyAction`.
   */
  function TdPolicies<S(==), A(==)>(pi: map<S, Dist<A>>, q: map<StateAction<S, A>, real>, s: S,
                                    actions: seq<A>, eps: real): map<S, Dist<A>>
    requires s in pi ==> multiset(Items(pi[s].events)) == multiset(actions)
    requires |actions| > 0
  {
    var created := WithPolicy(pi, s, actions);
    UniformItems(actions);
    assert |Items(created[s].events)| == |actions| by {
      assert |multiset(Items(created[s].events))| == |multiset(actions)|;
    }
    var maxAction := TdGreedyAction(q, s, created[s].events);
    created[s := GreedyPolicy(created[s], maxAction, eps, |actions|)]
  }

  /** Over a policy whose events are `actions`, the greedy action is a best-ranked action. */
  lemma TdGreedyBest<S, A>(q: map<StateAction<S, A>, real>, s: S, events: seq<Event<A>>, actions: seq<A>)
    requires |events| > 0 && multiset(Items(events)) == multiset(actions)
    ensures TdGreedyAction(q, s, events) in actions
    ensures forall b :: b in actions ==>
              !Below(Rank(q, StateAction(s, TdGreedyAction(q, s, events))), Rank(q, StateAction(s, b)))
  {
    var a := TdGreedyAction(q, s, events);
    assert a in multiset(actions);
    forall b | b in actions
      ensures !Below(Rank(q, StateAction(s, a)), Rank(q, StateAction(s, b)))
    {
      assert b in multiset(Items(events));
      var j :| 0 <= j < |events| && Items(events)[j] == b;
      assert events[j] in events;
    }
  }

  /**
   * The rewrite touches only state s, whose new policy is epsilon-greedy on a
   * best-ranked action; with distinct actions its weights add up to 1.
   */
  lemma TdPoliciesSpec<S, A>(pi: map<S, Dist<A>>, q: map<StateAction<S, A>, real>, s: S,
                             actions: seq<A>, eps: real)
    requires s in pi ==> multiset(Items(pi[s].events)) == multiset(actions)
    requires |actions| > 0
    ensures var r := TdPolicies(pi, q, s, actions, eps);
            && r.Keys == pi.Keys + {s}
            && (forall t :: t in pi && t != s ==> r[t] == pi[t])
            && exists a :: a in actions
                 && (forall b :: b in actions ==> !Below(Rank(q, StateAction(s, a)), Rank(q, StateAction(s, b))))
                 && GreedyShaped(r[s], a, actions, eps)
    ensures Distinct(actions) ==> TdPolicies(pi, q, s, actions, eps)[s].cumulativeWeight == 1.0
  {
    var a := TdPoliciesShape(pi, q, s, actions, eps);
    if Distinct(actions) {
      GreedyTotalIsOne(a, actions, eps);
    }
  }

  /** The rewrite of state s with the best-ranked action `a` it picks, and only state s. */
  lemma TdPoliciesShape<S, A>(pi: map<S, Dist<A>>, q: map<StateAction<S, A>, real>, s: S,
                              actions: seq<A>, eps: real) returns (a: A)
    requires s in pi ==> multiset(Items(pi[s].events)) == multiset(actions)
    requires |actions| > 0
    ensures TdPolicies(pi, q, s, actions, eps).Keys == pi.Keys + {s}
    ensures forall t :: t in pi && t != s ==> TdPolicies(pi, q, s, actions, eps)[t] == pi[t]
    ensures a in actions
    ensures forall b :: b in actions ==> !Below(Rank(q, StateAction(s, a)), Rank(q, StateAction(s, b)))
    ensures GreedyShaped(TdPolicies(pi, q, s, actions, eps)[s], a, actions, eps)
  {
    var created := WithPolicy(pi, s, actions);
    UniformItems(actions);
    var policy := created[s];
    assert |Items(policy.events)| == |actions| by {
      assert |multiset(Items(policy.events))| == |multiset(actions)|;
    }
    a := TdGreedyAction(q, s, policy.events);
    TdGreedyBest(q, s, policy.events, actions);
    GreedyPolicyShaped(policy, a, actions, eps);
    TdPoliciesStored(pi, q, s, actions, eps, a);
  }

  /** The rewrite stores the greedy policy of `a` at s over the created policy, and touches nothing else. */
  lemma TdPoliciesStored<S, A>(pi: map<S, Dist<A>>, q: map<StateAction<S, A>, real>, s: S,
                               actions: seq<A>, eps: real, a: A)
    requires s in pi ==> multiset(Items(pi[s].events)) == multiset(actions)
    requires |actions| > 0
    requires |WithPolicy(pi, s, actions)[s].events| > 0
    requires a == TdGreedyAction(q, s, WithPolicy(pi, s, actions)[s].events)
    ensures TdPolicies(pi, q, s, actions, eps).Keys == pi.Keys + {s}
    ensures forall t :: t in pi && t != s ==> TdPolicies(pi, q, s, actions, eps)[t] == pi[t]
    ensures TdPolicies(pi, q, s, actions, eps)[s] == GreedyPolicy(WithPolicy(pi, s, actions)[s], a, eps, |actions|)
  {
    WithPolicyIdempotent(pi, s, actions);
  }

  /** The temporal-difference rewrite keeps every policy over its state's actions. */
  lemma TdPoliciesOver<S, A>(pi: map<S, Dist<A>>, q: map<StateAction<S, A>, real>, s: S,
                             actionsForState: S -> seq<A>, eps: real)
    requires PoliciesOver(pi, actionsForState) && |actionsForState(s)| > 0
    ensures PoliciesOver(TdPolicies(pi, q, s, actionsForState(s), eps), actionsForState)
  {
    TdPoliciesSpec(pi, q, s, actionsForState(s), eps);
  }

  /** One Q-learning step of an agent: the table update, then the policy rewrite of the state. */
  method QLearningImprove<S(==), A(==)>(q: map<StateAction<S, A>, real>, pi: map<S, Dist<A>>, s: S, a: A,
                                        sample: NextStateSample<S>, actionsForState: S -> seq<A>,
                                        gamma: real, alpha: real, eps: real)
    returns (q': map<StateAction<S, A>, real>, pi': map<S, Dist<A>>)
    requires PoliciesOver(pi, actionsForState) && |actionsForState(s)| > 0
    ensures q' == q[StateAction(s, a) := QLearningValue(q, s, a, sample, actionsForState(s), gamma, alpha)]
    ensures pi' == TdPolicies(pi, q', s, actionsForState(s), eps)
    ensures PoliciesOver(pi', actionsForState)
  {
    var actions := actionsForState(s);
    q' := QLearningUpdate(q, s, a, sample, actions, gamma, alpha);
    TdPoliciesOver(pi, q', s, actionsForState, eps);
    pi' := TdPolicyUpdate(pi, q', s, actions, eps);
  }

  /** One SARSA step of an agent: the table update, then the policy rewrite of the state. */
  method SarsaImprove<S(==), A(==)>(q: map<StateAction<S, A>, real>, pi: map<S, Dist<A>>, s: S, a: A,
                                    sample: NextStateSample<S>, nextAction: A, actionsForState: S -> seq<A>,
                                    gamma: real, alpha: real, eps: real)
    returns (q': map<StateAction<S, A>, real>, pi': map<S, Dist<A>>)
    requires PoliciesOver(pi, actionsForState) && |actionsForState(s)| > 0
    ensures q' == q[StateAction(s, a) := SarsaValue(q, s, a, sample, nextAction, gamma, alpha)]
    ensures pi' == TdPolicies(pi, q', s, actionsForState(s), eps)
    ensures PoliciesOver(pi', actionsForState)
  {
    q' := SarsaUpdate(q, s, a, sample, nextAction, gamma, alpha);
    TdPoliciesOver(pi, q', s, actionsForState, eps);
    pi' := TdPolicyUpdate(pi, q', s, actionsForState(s), eps);
  }

  /** The temporal-difference policy rewrite, with the weight loop. */
  method TdPolicyUpdate<S(==), A(==)>(pi: map<S, Dist<A>>, q: map<StateAction<S, A>, real>, s: S,
                                      actions: seq<A>, eps: real) returns (r: map<S, Dist<A>>)
    requires s in pi ==> multiset(Items(pi[s].events)) == multiset(actions)
    requires |actions| > 0
    ensures r == TdPolicies(pi, q, s, actions, eps)
  {
    r := WithPolicy(pi, s, actions);
    UniformItems(actions);
    var policy := r[s];
    assert |Items(policy.events)| == |actions| by {
      assert |multiset(Items(policy.events))| == |multiset(actions)|;
    }
    var maxAction := TdGreedyAction(q, s, policy.events);
    var events := ReweightEvents(policy.events, maxAction, eps, |actions|);
    r := r[s := Normalized(Dist(events, policy.cumulativeWeight))];
  }

  // ---------------------------------------------------------- Monte Carlo

  /** The arithmetic mean of a non-empty list of returns (`average()`). */
  function Mean(rs: seq<real>): real
    requires |rs| > 0
  {
    Sum(rs) / |rs| as real
  }

  function Sum(rs: seq<real>): real
  {
    if rs == [] then 0.0 else Sum(rs[..|rs| - 1]) + rs[|rs| - 1]
  }

  /** The return accumulated by the fold after the visits `rs` of the reversed trajectory. */
  function AccReturn<S, A>(gamma: real, rs: seq<Visit<S, A>>): real
  {
    if rs == [] then 0.0 else Discount(gamma, AccReturn(gamma, rs[..|rs| - 1]), rs[|rs| - 1].reward)
  }

  /** One fold step: the successor's return discounted by gamma, plus the visit's reward. */
  function Discount(gamma: real, successor: real, reward: real): real
  {
    gamma * successor + reward
  }

  /** The nudge of x towards `target` by the fraction alpha. */
  function Nudge(x: real, target: real, alpha: real): real
  {
    x + alpha * (target - x)
  }

  /** The discounted return from the first visit on, r0 + gamma * r1 + gamma^2 * r2 + ... */
  function DiscountedReturn<S, A>(gamma: real, vs: seq<Visit<S, A>>): real
  {
    if vs == [] then 0.0 else vs[0].reward + gamma * DiscountedReturn(gamma, vs[1..])
  }

  /**
   * Folding over the reversed trajectory computes, for the visit at index t of
   * the trajectory, the discounted return of the rewards from t onwards.
   */
  lemma {:induction false} AccReturnIsDiscounted<S, A>(gamma: real, vs: seq<Visit<S, A>>, t: nat)
    requires t <= |vs|
    ensures |Reverse(vs)| == |vs|
    ensures AccReturn(gamma, Reverse(vs)[..|vs| - t]) == DiscountedReturn(gamma, vs[t..])
    decreases |vs| - t
  {
    ReverseAt(vs);
    var rv := Reverse(vs);
    if t < |vs| {
      AccReturnIsDiscounted(gamma, vs, t + 1);
      var pre := rv[..|vs| - t];
      assert pre[..|pre| - 1] == rv[..|vs| - (t + 1)];
      assert pre[|pre| - 1] == vs[t];
      assert vs[t..][1..] == vs[t + 1..];
    } else {
      assert rv[..0] == [];
    }
  }

  /** Which update a Monte Carlo agent applies to the Q-value of a first visit. */
  datatype McRule =
    | StrictAverage  // Q is the mean of all returns recorded for the pair
    | AlphaNudge     // Q is the mean, then moved by alpha towards the new return

  /** The tables a Monte Carlo pass updates: Q-values, recorded returns and alpha. */
  datatype McTables<S(==), A(==)> = McTables(q: map<StateAction<S, A>, real>,
                                     returnLists: map<StateAction<S, A>, seq<real>>,
                                     alpha: real)

  /** The returns recorded for a pair, none when it has no list yet. */
  function ReturnsOf<S(==), A(==)>(returnLists: map<StateAction<S, A>, seq<real>>, sa: StateAction<S, A>): seq<real>
  {
    if sa in returnLists then returnLists[sa] else []
  }

  /** The alpha the nudge uses: a negative alpha is replaced, for good, by 1 / (number of returnLists). */
  function NudgeAlpha(alpha: real, count: nat): real
    requires count > 0
  {
    if alpha < 0.0 then 1.0 / count as real else alpha
  }

  /** One first visit: record the return g for the pair and recompute its Q-value. */
  function McStep<S(==), A(==)>(t: McTables<S, A>, rule: McRule, sa: StateAction<S, A>, g: real): (r: McTables<S, A>)
    ensures r.q.Keys == t.q.Keys + {sa} && r.returnLists.Keys == t.returnLists.Keys + {sa}
    ensures forall k :: k in t.q && k != sa ==> r.q[k] == t.q[k]
    ensures forall k :: k in t.returnLists && k != sa ==> r.returnLists[k] == t.returnLists[k]
    ensures r.returnLists[sa] == ReturnsOf(t.returnLists, sa) + [g]
  {
    var rs := ReturnsOf(t.returnLists, sa) + [g];
    var mean := Mean(rs);
    match rule
    case StrictAverage => McTables(t.q[sa := mean], t.returnLists[sa := rs], t.alpha)
    case AlphaNudge =>
      var a := NudgeAlpha(t.alpha, |rs|);
      McTables(t.q[sa := Nudge(mean, g, a)], t.returnLists[sa := rs], a)
  }

  /** The pairs of the flagged visits. */
  function FirstVisitPairs<S(==), A(==)>(rs: seq<Visit<S, A>>): set<StateAction<S, A>>
  {
    set i | 0 <= i < |rs| && rs[i].isFirstVisit :: StateAction(rs[i].state, rs[i].action)
  }

  /** The table part of `improvePolicy`: the fold over the reversed trajectory, updating first visits only. */
  function McFold<S(==), A(==)>(t: McTables<S, A>, rule: McRule, gamma: real, rs: seq<Visit<S, A>>): McTables<S, A>
  {
    if rs == [] then t
    else
      var prev := McFold(t, rule, gamma, rs[..|rs| - 1]);
      var v := rs[|rs| - 1];
      if v.isFirstVisit then McStep(prev, rule, StateAction(v.state, v.action), AccReturn(gamma, rs)) else prev
  }

  lemma FirstVisitPairsSnoc<S, A>(rs: seq<Visit<S, A>>)
    requires |rs| > 0
    ensures var v := rs[|rs| - 1];
            FirstVisitPairs(rs) == FirstVisitPairs(rs[..|rs| - 1]) +
              (if v.isFirstVisit then {StateAction(v.state, v.action)} else {})
  {
    var init := rs[..|rs| - 1];
    assert forall i :: 0 <= i < |init| ==> init[i] == rs[i];
  }

  /** A pass adds exactly the flagged pairs to both tables and leaves every other entry alone. */
  lemma {:induction false} McFoldFrame<S, A>(t: McTables<S, A>, rule: McRule, gamma: real, rs: seq<Visit<S, A>>)
    ensures var r := McFold(t, rule, gamma, rs);
            && r.q.Keys == t.q.Keys + FirstVisitPairs(rs)
            && r.returnLists.Keys == t.returnLists.Keys + FirstVisitPairs(rs)
            && (forall k :: k in t.q && k !in FirstVisitPairs(rs) ==> r.q[k] == t.q[k])
            && (forall k :: k in t.returnLists && k !in FirstVisitPairs(rs) ==> r.returnLists[k] == t.returnLists[k])
  {
    if rs != [] {
      McFoldFrame(t, rule, gamma, rs[..|rs| - 1]);
      FirstVisitPairsSnoc(rs);
    }
  }

  /** Every Q-value is the mean of the pair's recorded returns. */
  ghost predicate QIsMean<S, A>(t: McTables<S, A>)
  {
    forall k :: k in t.q ==> k in t.returnLists && |t.returnLists[k]| > 0 && t.q[k] == Mean(t.returnLists[k])
  }

  /** Under strict averaging a pass keeps every Q-value the mean of its returns. */
  lemma {:induction false} StrictAverageKeepsMean<S, A>(t: McTables<S, A>, gamma: real, rs: seq<Visit<S, A>>)
    requires QIsMean(t)
    ensures QIsMean(McFold(t, StrictAverage, gamma, rs))
  {
    if rs != [] {
      StrictAverageKeepsMean(t, gamma, rs[..|rs| - 1]);
    }
  }

  /** The first return recorded for a pair sets its Q-value to that return, whatever alpha is. */
  lemma FirstReturnSetsQ<S, A>(t: McTables<S, A>, rule: McRule, sa: StateAction<S, A>, g: real)
    requires sa !in t.returnLists
    ensures McStep(t, rule, sa, g).q[sa] == g
  {
    assert Sum([g]) == g by {
      assert [g][..0] == [];
    }
  }

  /**
   * With a non-negative alpha of at most 1 (or a negative one, which becomes
   * 1 / count), the nudged value lies between the mean and the new return.
   */
  lemma NudgeBetween<S, A>(t: McTables<S, A>, sa: StateAction<S, A>, g: real)
    requires t.alpha <= 1.0
    ensures var rs := ReturnsOf(t.returnLists, sa) + [g];
            var v := McStep(t, AlphaNudge, sa, g).q[sa];
            (Mean(rs) <= g ==> Mean(rs) <= v <= g) && (g <= Mean(rs) ==> g <= v <= Mean(rs))
    ensures 0.0 <= McStep(t, AlphaNudge, sa, g).alpha <= 1.0
  {
    var rs := ReturnsOf(t.returnLists, sa) + [g];
    var a := NudgeAlpha(t.alpha, |rs|);
    if t.alpha < 0.0 {
      assert 0.0 < 1.0 / |rs| as real <= 1.0;
    }
    var r := McStep(t, AlphaNudge, sa, g);
    TdStepBetween(Mean(rs), g, a, r.q[sa]);
  }

  /**
   * Example of the alpha rule: with alpha -1 and returns 1 then 3 for a pair,
   * the first step sets alpha to 1 and Q to 1; the second keeps alpha 1, so Q
   * becomes the latest return 3 rather than the mean 2.
   */
  lemma AlphaRuleExample(sa: StateAction<RaceTrackState, RaceTrackAction>)
    ensures var t1 := McStep(McTables(map[], map[], -1.0), AlphaNudge, sa, 1.0);
            var t2 := McStep(t1, AlphaNudge, sa, 3.0);
            t1.alpha == 1.0 && t1.q[sa] == 1.0 && t2.alpha == 1.0 && t2.q[sa] == 3.0
            && McStep(t1, StrictAverage, sa, 3.0).q[sa] == 2.0
  {
    var t1 := McStep(McTables(map[], map[], -1.0), AlphaNudge, sa, 1.0);
    assert Sum([1.0]) == 1.0 by {
      assert [1.0][..0] == [];
    }
    assert t1.returnLists[sa] == [1.0];
    var rs2 := [1.0] + [3.0];
    assert rs2[..1] == [1.0];
    assert Sum(rs2) == 4.0;
  }

  /**
   * Under the first-visit invariant, one pass appends to the returns of each
   * flagged visit's pair exactly the return accumulated at that visit.
   */
  lemma {:induction false} McFoldRecords<S, A>(t: McTables<S, A>, rule: McRule, gamma: real, rs: seq<Visit<S, A>>, i: nat)
    requires AtMostOneStampPerState(rs)
    requires i < |rs| && rs[i].isFirstVisit
    ensures var sa := StateAction(rs[i].state, rs[i].action);
            ReturnsOf(McFold(t, rule, gamma, rs).returnLists, sa) == ReturnsOf(t.returnLists, sa) + [AccReturn(gamma, rs[..i + 1])]
  {
    var init := rs[..|rs| - 1];
    var last := rs[|rs| - 1];
    var sa := StateAction(rs[i].state, rs[i].action);
    assert AtMostOneStampPerState(init) by {
      assert forall j :: 0 <= j < |init| ==> init[j] == rs[j];
    }
    McFoldFrame(t, rule, gamma, init);
    if i == |rs| - 1 {
      assert rs[..i + 1] == rs;
      assert sa !in FirstVisitPairs(init) by {
        forall j | 0 <= j < |init| && init[j].isFirstVisit
          ensures StateAction(init[j].state, init[j].action) != sa
        {
          assert init[j] == rs[j];
        }
      }
    } else {
      McFoldRecords(t, rule, gamma, init, i);
      assert init[..i + 1] == rs[..i + 1];
      assert rs[i] == init[i];
      assert last.isFirstVisit ==> StateAction(last.state, last.action) != sa;
    }
  }

  /**
   * On a trajectory flagged by the first-visit rule, the pass over its
   * reversal records for each flagged visit at index i exactly one new return:
   * the discounted return of the rewards from i onwards.
   */
  lemma PassRecordsReturns<S, A>(t: McTables<S, A>, rule: McRule, gamma: real, vs: seq<Visit<S, A>>, i: nat)
    requires FirstVisitStamped(vs)
    requires i < |vs| && vs[i].isFirstVisit
    ensures var sa := StateAction(vs[i].state, vs[i].action);
            ReturnsOf(McFold(t, rule, gamma, Reverse(vs)).returnLists, sa)
            == ReturnsOf(t.returnLists, sa) + [DiscountedReturn(gamma, vs[i..])]
  {
    FirstVisitUnique(vs);
    ReversedRecords(t, rule, gamma, vs, i);
    AccReturnIsDiscounted(gamma, vs, i);
  }

  /** The pass over the reversal records the fold's return at the visit's reversed position. */
  lemma ReversedRecords<S, A>(t: McTables<S, A>, rule: McRule, gamma: real, vs: seq<Visit<S, A>>, i: nat)
    requires AtMostOneStampPerState(vs)
    requires i < |vs| && vs[i].isFirstVisit
    ensures |Reverse(vs)| == |vs|
    ensures var sa := StateAction(vs[i].state, vs[i].action);
            ReturnsOf(McFold(t, rule, gamma, Reverse(vs)).returnLists, sa)
            == ReturnsOf(t.returnLists, sa) + [AccReturn(gamma, Reverse(vs)[..|vs| - i])]
  {
    var rv := Reverse(vs);
    var j := |vs| - 1 - i;
    assert |rv| == |vs| && AtMostOneStampPerState(rv) && rv[j] == vs[i] by {
      ReversedStamps(vs);
    }
    McFoldRecords(t, rule, gamma, rv, j);
    assert j + 1 == |vs| - i;
  }

  /** Reversing a list with at most one flag per state keeps at most one flag per state. */
  lemma ReversedStamps<S, A>(vs: seq<Visit<S, A>>)
    requires AtMostOneStampPerState(vs)
    ensures |Reverse(vs)| == |vs|
    ensures forall k :: 0 <= k < |vs| ==> Reverse(vs)[k] == vs[|vs| - 1 - k]
    ensures AtMostOneStampPerState(Reverse(vs))
  {
    var rv := Reverse(vs);
    ReverseAt(vs);
    forall a, b | 0 <= a < |rv| && 0 <= b < |rv| && rv[a].isFirstVisit && rv[b].isFirstVisit
                  && rv[a].state == rv[b].state
      ensures a == b
    {
      assert rv[a] == vs[|vs| - 1 - a] && rv[b] == vs[|vs| - 1 - b];
    }
  }

  // ---------------------------------------------- Monte Carlo greedy policy

  /** The pair (s, a) is in the table and no pair of state s has a larger value. */
  ghost predicate IsMaxAt<S, A>(q: map<StateAction<S, A>, real>, s: S, a: A)
  {
    StateAction(s, a) in q && forall k :: k in q && k.state == s ==> q[k] <= q[StateAction(s, a)]
  }

  /** `maxBy` over the entries of state s: a largest one exists once any entry of s does. */
  lemma {:induction false} MaxKeyExists<S, A>(q: map<StateAction<S, A>, real>, s: S, k0: StateAction<S, A>)
    returns (m: StateAction<S, A>)
    requires k0 in q && k0.state == s
    ensures m in q && m.state == s
    ensures forall k :: k in q && k.state == s ==> q[k] <= q[m]
    decreases q.Keys
  {
    if forall k :: k in q && k.state == s ==> q[k] <= q[k0] {
      m := k0;
    } else {
      var k1 :| k1 in q && k1.state == s && q[k1] > q[k0];
      var smaller := map k | k in q && k != k0 :: q[k];
      assert smaller.Keys < q.Keys by {
        assert k0 !in smaller.Keys;
      }
      m := MaxKeyExists(smaller, s, k1);
    }
  }

  /** The state's policy is epsilon-greedy on some action of largest Q-value at that state. */
  ghost predicate EpsGreedyAt<S, A>(d: Dist<A>, q: map<StateAction<S, A>, real>, s: S, actions: seq<A>, eps: real)
  {
    exists k :: k in q && k.state == s && IsMaxAt(q, s, k.action) && GreedyShaped(d, k.action, actions, eps)
  }

  /** Changing entries of other states keeps a maximum of state s. */
  lemma IsMaxAtFrame<S, A>(q: map<StateAction<S, A>, real>, q': map<StateAction<S, A>, real>, s: S, a: A)
    requires IsMaxAt(q, s, a)
    requires forall k: StateAction<S, A> :: k.state == s ==> (k in q <==> k in q') && (k in q ==> q[k] == q'[k])
    ensures IsMaxAt(q', s, a)
  {
  }

  /** A Q-update at another state keeps a state's epsilon-greedy policy epsilon-greedy. */
  lemma EpsGreedyFrame<S, A>(d: Dist<A>, q: map<StateAction<S, A>, real>, q': map<StateAction<S, A>, real>,
                             s: S, actions: seq<A>, eps: real)
    requires EpsGreedyAt(d, q, s, actions, eps)
    requires forall k: StateAction<S, A> :: k.state == s ==> (k in q <==> k in q') && (k in q ==> q[k] == q'[k])
    ensures EpsGreedyAt(d, q', s, actions, eps)
  {
    var k :| k in q && k.state == s && IsMaxAt(q, s, k.action) && GreedyShaped(d, k.action, actions, eps);
    IsMaxAtFrame(q, q', s, k.action);
  }

  /** The table update of one first visit, as `McStep` states it. */
  method McUpdate<S(==), A(==)>(q0: map<StateAction<S, A>, real>, returnLists0: map<StateAction<S, A>, seq<real>>,
                                alpha0: real, rule: McRule, sa: StateAction<S, A>, g: real)
    returns (q: map<StateAction<S, A>, real>, returnLists: map<StateAction<S, A>, seq<real>>, alpha: real)
    ensures McTables(q, returnLists, alpha) == McStep(McTables(q0, returnLists0, alpha0), rule, sa, g)
  {
    var rs := ReturnsOf(returnLists0, sa) + [g];
    returnLists := returnLists0[sa := rs];
    q := q0[sa := Mean(rs)];
    alpha := alpha0;
    if rule == AlphaNudge {
      if alpha < 0.0 {
        alpha := 1.0 / |rs| as real;
      }
      assert alpha == NudgeAlpha(alpha0, |rs|);
      var nudged := Nudge(q[sa], g, alpha);
      q := q[sa := nudged];
      assert q == q0[sa := nudged];
    }
  }

  /** `q.entries.filter { it.key.state == s }.maxBy { it.value }`: some entry of largest value at state s. */
  method MaxEntryOf<S(==), A(==)>(q: map<StateAction<S, A>, real>, s: S) returns (maxEntry: StateAction<S, A>)
    requires exists k :: k in q && k.state == s
    ensures maxEntry in q && maxEntry.state == s
    ensures IsMaxAt(q, s, maxEntry.action)
  {
    ghost var k0 :| k0 in q && k0.state == s;
    ghost var m := MaxKeyExists(q, s, k0);
    maxEntry :| maxEntry in q && maxEntry.state == s && forall k :: k in q && k.state == s ==> q[k] <= q[maxEntry];
    assert maxEntry == StateAction(s, maxEntry.action);
  }

  /**
   * The policy part of one first visit: the state's policy (created if
   * needed) rewritten epsilon-greedy on an entry of largest value at that state.
   */
  method McPolicyUpdate<S(==), A(==)>(pi0: map<S, Dist<A>>, q: map<StateAction<S, A>, real>, s: S, eps: real,
                                      actionsForState: S -> seq<A>) returns (pi: map<S, Dist<A>>)
    requires PoliciesOver(pi0, actionsForState)
    requires exists k :: k in q && k.state == s
    ensures PoliciesOver(pi, actionsForState)
    ensures pi.Keys == pi0.Keys + {s}
    ensures forall t :: t in pi0 && t != s ==> pi[t] == pi0[t]
    ensures EpsGreedyAt(pi[s], q, s, actionsForState(s), eps)
  {
    var maxEntry := MaxEntryOf(q, s);
    var maxAction := maxEntry.action;
    var actions := actionsForState(s);
    GreedyUpdateSpec(pi0, q, s, maxAction, eps, actionsForState);
    pi := WithPolicy(pi0, s, actions);
    var policy := pi[s];
    var events := ReweightEvents(policy.events, maxAction, eps, |actions|);
    pi := pi[s := Normalized(Dist(events, policy.cumulativeWeight))];
  }

  /**
   * Creating the state's policy and rewriting it epsilon-greedy on a
   * maximizing action keeps every policy over its actions, touches no other
   * state, and leaves state s epsilon-greedy.
   */
  lemma GreedyUpdateSpec<S, A>(pi0: map<S, Dist<A>>, q: map<StateAction<S, A>, real>, s: S, maxAction: A, eps: real,
                               actionsForState: S -> seq<A>)
    requires PoliciesOver(pi0, actionsForState)
    requires IsMaxAt(q, s, maxAction)
    ensures |actionsForState(s)| > 0 || WithPolicy(pi0, s, actionsForState(s))[s].events == []
    ensures var created := WithPolicy(pi0, s, actionsForState(s));
            var pi := created[s := GreedyPolicy(created[s], maxAction, eps, |actionsForState(s)|)];
            && PoliciesOver(pi, actionsForState)
            && pi.Keys == pi0.Keys + {s}
            && (forall t :: t in pi0 && t != s ==> pi[t] == pi0[t])
            && EpsGreedyAt(pi[s], q, s, actionsForState(s), eps)
  {
    var actions := actionsForState(s);
    WithPolicyOver(pi0, s, actionsForState);
    WithPolicyIdempotent(pi0, s, actions);
    var created := WithPolicy(pi0, s, actions);
    GreedyRewriteOver(created, s, maxAction, actionsForState, eps);
    var k := StateAction(s, maxAction);
    assert k in q && k.state == s && IsMaxAt(q, s, k.action);
  }

  /** Rewriting one stored policy epsilon-greedy keeps every policy over its state's actions. */
  lemma GreedyRewriteOver<S, A>(pi: map<S, Dist<A>>, s: S, maxAction: A, actionsForState: S -> seq<A>, eps: real)
    requires PoliciesOver(pi, actionsForState) && s in pi
    ensures |actionsForState(s)| > 0 || pi[s].events == []
    ensures var r := pi[s := GreedyPolicy(pi[s], maxAction, eps, |actionsForState(s)|)];
            PoliciesOver(r, actionsForState) && GreedyShaped(r[s], maxAction, actionsForState(s), eps)
  {
    GreedyPolicyShaped(pi[s], maxAction, actionsForState(s), eps);
  }

  /** The flagged states of a visit list grow by the last visit's state when it is flagged. */
  lemma StampedStatesSnoc<S, A>(rs: seq<Visit<S, A>>)
    requires |rs| > 0
    ensures var v := rs[|rs| - 1];
            StampedStates(rs) == StampedStates(rs[..|rs| - 1]) + (if v.isFirstVisit then {v.state} else {})
  {
    var init := rs[..|rs| - 1];
    assert forall i :: 0 <= i < |init| ==> init[i] == rs[i];
  }

  /** One more visit of the reversed trajectory: one more fold step. */
  lemma McFoldSnoc<S, A>(t: McTables<S, A>, rule: McRule, gamma: real, rs: seq<Visit<S, A>>, i: nat)
    requires i < |rs|
    ensures AccReturn(gamma, rs[..i + 1]) == Discount(gamma, AccReturn(gamma, rs[..i]), rs[i].reward)
    ensures McFold(t, rule, gamma, rs[..i + 1]) ==
            if rs[i].isFirstVisit
            then McStep(McFold(t, rule, gamma, rs[..i]), rule, StateAction(rs[i].state, rs[i].action),
                        AccReturn(gamma, rs[..i + 1]))
            else McFold(t, rule, gamma, rs[..i])
    ensures StampedStates(rs[..i + 1]) == StampedStates(rs[..i]) + (if rs[i].isFirstVisit then {rs[i].state} else {})
  {
    var pre := rs[..i + 1];
    assert pre[..|pre| - 1] == rs[..i] && pre[|pre| - 1] == rs[i];
    StampedStatesSnoc(pre);
  }

  /**
   * The policy side of a Monte Carlo pass after the flagged states `done`:
   * every policy is over its state's actions, exactly the states in `done`
   * were added or rewritten, and each of them is epsilon-greedy on Q.
   */
  ghost predicate PassPolicies<S, A>(pi0: map<S, Dist<A>>, pi: map<S, Dist<A>>, q: map<StateAction<S, A>, real>,
                                     done: set<S>, actionsForState: S -> seq<A>, eps: real)
  {
    && PoliciesOver(pi, actionsForState)
    && pi.Keys == pi0.Keys + done
    && (forall s :: s in pi0 && s !in done ==> pi[s] == pi0[s])
    && (forall s :: s in done ==> EpsGreedyAt(pi[s], q, s, actionsForState(s), eps))
  }

  /** One first visit of the pair sa keeps `PassPolicies`, with sa's state added to `done`. */
  lemma PassPoliciesStep<S, A>(pi0: map<S, Dist<A>>, piBefore: map<S, Dist<A>>, pi: map<S, Dist<A>>,
                               qBefore: map<StateAction<S, A>, real>, q: map<StateAction<S, A>, real>,
                               done: set<S>, sa: StateAction<S, A>, actionsForState: S -> seq<A>, eps: real)
    requires PassPolicies(pi0, piBefore, qBefore, done, actionsForState, eps)
    requires q.Keys == qBefore.Keys + {sa}
    requires forall k :: k in qBefore && k != sa ==> q[k] == qBefore[k]
    requires PoliciesOver(pi, actionsForState)
    requires pi.Keys == piBefore.Keys + {sa.state}
    requires forall s :: s in piBefore && s != sa.state ==> pi[s] == piBefore[s]
    requires EpsGreedyAt(pi[sa.state], q, sa.state, actionsForState(sa.state), eps)
    ensures PassPolicies(pi0, pi, q, done + {sa.state}, actionsForState, eps)
  {
    EpsGreedyKept(piBefore, pi, qBefore, q, done, sa, actionsForState, eps);
    PoliciesFrameStep(pi0, piBefore, pi, done, sa.state);
  }

  /** Storing one more state's policy extends the stored states by it and keeps the untouched policies. */
  lemma PoliciesFrameStep<S, A>(pi0: map<S, Dist<A>>, piBefore: map<S, Dist<A>>, pi: map<S, Dist<A>>,
                                done: set<S>, s: S)
    requires piBefore.Keys == pi0.Keys + done
    requires forall t :: t in pi0 && t !in done ==> piBefore[t] == pi0[t]
    requires pi.Keys == piBefore.Keys + {s}
    requires forall t :: t in piBefore && t != s ==> pi[t] == piBefore[t]
    ensures pi.Keys == pi0.Keys + (done + {s})
    ensures forall t :: t in pi0 && t !in done + {s} ==> pi[t] == pi0[t]
  {
  }

  /** A first visit of sa keeps the policy of every other flagged state epsilon-greedy. */
  lemma EpsGreedyKept<S, A>(piBefore: map<S, Dist<A>>, pi: map<S, Dist<A>>,
                            qBefore: map<StateAction<S, A>, real>, q: map<StateAction<S, A>, real>,
                            done: set<S>, sa: StateAction<S, A>, actionsForState: S -> seq<A>, eps: real)
    requires done <= piBefore.Keys
    requires forall s :: s in done ==> EpsGreedyAt(piBefore[s], qBefore, s, actionsForState(s), eps)
    requires q.Keys == qBefore.Keys + {sa}
    requires forall k :: k in qBefore && k != sa ==> q[k] == qBefore[k]
    requires pi.Keys == piBefore.Keys + {sa.state}
    requires forall s :: s in piBefore && s != sa.state ==> pi[s] == piBefore[s]
    ensures forall s :: s in done && s != sa.state ==> EpsGreedyAt(pi[s], q, s, actionsForState(s), eps)
  {
    forall s | s in done && s != sa.state
      ensures EpsGreedyAt(pi[s], q, s, actionsForState(s), eps)
    {
      forall k: StateAction<S, A> | k.state == s
        ensures (k in qBefore <==> k in q) && (k in qBefore ==> qBefore[k] == q[k])
      {
        assert k != sa;
      }
      EpsGreedyFrame(piBefore[s], qBefore, q, s, actionsForState(s), eps);
    }
  }

  /** A pass over an empty trajectory changes no table and no policy. */
  lemma EmptyPass<S, A>(t: McTables<S, A>, rule: McRule, gamma: real, pi0: map<S, Dist<A>>, pi: map<S, Dist<A>>,
                        actionsForState: S -> seq<A>, eps: real)
    requires PassPolicies(pi0, pi, McFold(t, rule, gamma, []).q, StampedStates<S, A>([]), actionsForState, eps)
    ensures McFold(t, rule, gamma, []) == t
    ensures pi == pi0
  {
  }

  /**
   * `improvePolicy` of both Monte Carlo agents: the fold over the reversed
   * trajectory, updating the tables as `McFold` does and leaving every flagged
   * state's policy epsilon-greedy on a largest Q-value of that state.
   */
  method MonteCarloPass<S(==), A(==)>(q0: map<StateAction<S, A>, real>, returnLists0: map<StateAction<S, A>, seq<real>>,
                                      alpha0: real, pi0: map<S, Dist<A>>, rule: McRule, gamma: real, eps: real,
                                      reversed: seq<Visit<S, A>>, actionsForState: S -> seq<A>)
    returns (q: map<StateAction<S, A>, real>, returnLists: map<StateAction<S, A>, seq<real>>,
             alpha: real, pi: map<S, Dist<A>>)
    requires PoliciesOver(pi0, actionsForState)
    ensures McTables(q, returnLists, alpha) == McFold(McTables(q0, returnLists0, alpha0), rule, gamma, reversed)
    ensures PassPolicies(pi0, pi, q, StampedStates(reversed), actionsForState, eps)
  {
    q, returnLists, alpha, pi := q0, returnLists0, alpha0, pi0;
    var successorReturn := 0.0;
    var i := 0;
    while i < |reversed|
      invariant 0 <= i <= |reversed|
      invariant McTables(q, returnLists, alpha) == McFold(McTables(q0, returnLists0, alpha0), rule, gamma, reversed[..i])
      invariant successorReturn == AccReturn(gamma, reversed[..i])
      invariant PassPolicies(pi0, pi, q, StampedStates(reversed[..i]), actionsForState, eps)
    {
      var visit := reversed[i];
      var accumulatedReturn := gamma * successorReturn + visit.reward;
      assert accumulatedReturn == Discount(gamma, successorReturn, visit.reward);
      McFoldSnoc(McTables(q0, returnLists0, alpha0), rule, gamma, reversed, i);
      if visit.isFirstVisit {
        var sa := StateAction(visit.state, visit.action);
        ghost var qBefore, piBefore := q, pi;
        q, returnLists, alpha := McUpdate(q, returnLists, alpha, rule, sa, accumulatedReturn);
        pi := McPolicyUpdate(pi, q, sa.state, eps, actionsForState);
        PassPoliciesStep(pi0, piBefore, pi, qBefore, q, StampedStates(reversed[..i]), sa, actionsForState, eps);
      }
      successorReturn := accumulatedReturn;
      i := i + 1;
    }
    assert reversed[..i] == reversed;
  }
}
