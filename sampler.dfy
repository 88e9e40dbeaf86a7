/**
 * The weighted sampler (`ProbabilityEvent` and `ProbabilityDistribution`):
 * events carry an item, a weight and an integrated density; `normalize`
 * writes prefix sums of the weights into the densities and sorts by them;
 * `sample` returns the first event whose density reaches the draw.
 */
module Sampler {

  /** `ProbabilityEvent`: an outcome, its weight and its integrated density. */
  datatype Event<T> = Event(item: T, weight: real, integratedDensity: real)

  /** The state of a distribution: its event list and its cumulative weight. */
  datatype Dist<T> = Dist(events: seq<Event<T>>, cumulativeWeight: real)

  /** The items of the events, in list order. */
  function Items<T>(es: seq<Event<T>>): seq<T>
  {
    seq(|es|, i requires 0 <= i < |es| => es[i].item)
  }

  /** The (item, weight) pair of every event, in list order. */
  function ItemWeights<T>(es: seq<Event<T>>): seq<(T, real)>
  {
    seq(|es|, i requires 0 <= i < |es| => (es[i].item, es[i].weight))
  }

  lemma ItemsSnoc<T>(es: seq<Event<T>>, e: Event<T>)
    ensures Items(es + [e]) == Items(es) + [e.item]
    ensures ItemWeights(es + [e]) == ItemWeights(es) + [(e.item, e.weight)]
  {
  }

  // ---------------------------------------------------------------- setEvents

  /** The events `setEvents(items)` appends: event i has weight 1/n and density i/n. */
  function Seeded<T>(items: seq<T>): seq<Event<T>>
  {
    seq(|items|, i requires 0 <= i < |items| =>
      Event(items[i], 1.0 / |items| as real, i as real / |items| as real))
  }

  // ---------------------------------------------------------------- normalize

  /** The sum of the weights, added front to back as the source's fold does. */
  function WeightSum<T>(es: seq<Event<T>>): real
  {
    if es == [] then 0.0 else WeightSum(es[..|es| - 1]) + es[|es| - 1].weight
  }

  /** Each event's density replaced by the sum of the weights up to and including it. */
  function WithPrefixSums<T>(es: seq<Event<T>>): seq<Event<T>>
  {
    seq(|es|, k requires 0 <= k < |es| => es[k].(integratedDensity := WeightSum(es[..k + 1])))
  }

  /** Densities are non-decreasing along the list. */
  predicate DensitySorted<T>(es: seq<Event<T>>)
  {
    forall i, j :: 0 <= i < j < |es| ==> es[i].integratedDensity <= es[j].integratedDensity
  }

  /** Inserts `e` after every event whose density is at most e's (so equal keys keep their order). */
  function InsertByDensity<T>(sorted: seq<Event<T>>, e: Event<T>): seq<Event<T>>
  {
    if sorted == [] || sorted[|sorted| - 1].integratedDensity <= e.integratedDensity then sorted + [e]
    else InsertByDensity(sorted[..|sorted| - 1], e) + [sorted[|sorted| - 1]]
  }

  /** `sortBy { integratedDensity }`: a stable sort by density. */
  function SortByDensity<T>(es: seq<Event<T>>): seq<Event<T>>
  {
    if es == [] then [] else InsertByDensity(SortByDensity(es[..|es| - 1]), es[|es| - 1])
  }

  /** What `normalize` leaves behind: prefix-summed densities, sorted, and the total weight. */
  function Normalized<T>(d: Dist<T>): Dist<T>
  {
    Dist(SortByDensity(WithPrefixSums(d.events)), WeightSum(d.events))
  }

  /** A fresh distribution after `setEvents(items)` and `normalize()`. */
  function Uniform<T>(items: seq<T>): Dist<T>
  {
    Normalized(Dist(Seeded(items), 0.0))
  }

  // ---------------------------------------------------------------- sample

  /** The first index at or after `from` whose density reaches r, or |es| when there is none. */
  function ScanFrom<T>(es: seq<Event<T>>, r: real, from: nat): (i: nat)
    requires from <= |es|
    decreases |es| - from
    ensures from <= i <= |es|
    ensures i < |es| ==> es[i].integratedDensity >= r
    ensures forall k :: from <= k < i ==> es[k].integratedDensity < r
  {
    if from == |es| then |es|
    else if es[from].integratedDensity >= r then from
    else ScanFrom(es, r, from + 1)
  }

  /** The index `sample` picks for the scaled draw r: the first density at least r, else index 0. */
  function SampleIndex<T>(es: seq<Event<T>>, r: real): (i: nat)
    requires |es| > 0
    ensures i < |es|
    ensures (exists k :: 0 <= k < |es| && es[k].integratedDensity >= r) ==>
              es[i].integratedDensity >= r && forall k :: 0 <= k < i ==> es[k].integratedDensity < r
    ensures (forall k :: 0 <= k < |es| ==> es[k].integratedDensity < r) ==> i == 0
  {
    var i := ScanFrom(es, r, 0);
    if i < |es| then i else 0
  }

  /** The item `sample` returns for the draw `u` (a value in [0, 1) scaled by the total weight). */
  function SampleOf<T>(d: Dist<T>, u: real): (item: T)
    requires |d.events| > 0
    ensures item in Items(d.events)
  {
    SampleIsItem(d.events, u * d.cumulativeWeight);
    d.events[SampleIndex(d.events, u * d.cumulativeWeight)].item
  }

  // ---------------------------------------------------------------- lemmas

  /** A sampled item is always one of the distribution's items. */
  lemma SampleIsItem<T>(es: seq<Event<T>>, r: real)
    requires |es| > 0
    ensures es[SampleIndex(es, r)].item in Items(es)
  {
    assert Items(es)[SampleIndex(es, r)] == es[SampleIndex(es, r)].item;
  }

  /** A one-event distribution samples its only item, whatever the draw. */
  lemma SingleEventSample<T>(e: Event<T>, r: real)
    ensures SampleIndex([e], r) == 0
  {
  }

  /**
   * On sorted densities, event i is sampled exactly when the draw falls into
   * (density of event i-1, density of event i].
   */
  lemma {:induction false} SampleInterval<T>(es: seq<Event<T>>, r: real, i: nat)
    requires DensitySorted(es) && i < |es|
    requires i == 0 || es[i - 1].integratedDensity < r
    requires r <= es[i].integratedDensity
    ensures SampleIndex(es, r) == i
  {
  }

  lemma WeightSumSnoc<T>(es: seq<Event<T>>, k: nat)
    requires k < |es|
    ensures WeightSum(es[..k + 1]) == WeightSum(es[..k]) + es[k].weight
  {
    assert es[..k + 1][..k] == es[..k];
  }

  /** With non-negative weights the prefix sums never decrease. */
  lemma {:induction false} PrefixSumsMonotone<T>(es: seq<Event<T>>, i: nat, j: nat)
    requires forall k :: 0 <= k < |es| ==> es[k].weight >= 0.0
    requires i <= j <= |es|
    ensures WeightSum(es[..i]) <= WeightSum(es[..j])
    decreases j - i
  {
    if i < j {
      PrefixSumsMonotone(es, i, j - 1);
      WeightSumSnoc(es, j - 1);
    }
  }

  /**
   * `normalize`'s densities: event k gets the sum of weights 0..k; items and
   * weights stay where they were; the last density is the total weight; with
   * non-negative weights the densities are already sorted.
   */
  lemma PrefixSumsShape<T>(es: seq<Event<T>>)
    ensures |WithPrefixSums(es)| == |es|
    ensures Items(WithPrefixSums(es)) == Items(es)
    ensures ItemWeights(WithPrefixSums(es)) == ItemWeights(es)
    ensures |es| > 0 ==> WithPrefixSums(es)[|es| - 1].integratedDensity == WeightSum(es)
    ensures (forall k :: 0 <= k < |es| ==> es[k].weight >= 0.0) ==> DensitySorted(WithPrefixSums(es))
  {
    var w := WithPrefixSums(es);
    assert forall k :: 0 <= k < |es| ==> w[k].item == es[k].item && w[k].weight == es[k].weight;
    assert Items(w) == Items(es);
    assert ItemWeights(w) == ItemWeights(es);
    if |es| > 0 {
      assert es[..|es|] == es;
      assert w[|es| - 1].integratedDensity == WeightSum(es[..|es|]);
    }
    if forall k :: 0 <= k < |es| ==> es[k].weight >= 0.0 {
      forall i, j | 0 <= i < j < |es|
        ensures w[i].integratedDensity <= w[j].integratedDensity
      {
        PrefixSumsMonotone(es, i + 1, j + 1);
      }
    }
  }

  /** Insertion adds exactly the inserted event, to the events, their items and their weights. */
  lemma {:induction false} InsertByDensityCounts<T>(sorted: seq<Event<T>>, e: Event<T>)
    ensures |InsertByDensity(sorted, e)| == |sorted| + 1
    ensures multiset(InsertByDensity(sorted, e)) == multiset(sorted) + multiset{e}
    ensures multiset(Items(InsertByDensity(sorted, e))) == multiset(Items(sorted)) + multiset{e.item}
    ensures multiset(ItemWeights(InsertByDensity(sorted, e))) ==
              multiset(ItemWeights(sorted)) + multiset{(e.item, e.weight)}
    decreases |sorted|
  {
    if sorted == [] || sorted[|sorted| - 1].integratedDensity <= e.integratedDensity {
      ItemsSnoc(sorted, e);
    } else {
      var init, last := sorted[..|sorted| - 1], sorted[|sorted| - 1];
      assert sorted == init + [last];
      InsertByDensityCounts(init, e);
      ItemsSnoc(InsertByDensity(init, e), last);
      ItemsSnoc(init, last);
    }
  }

  /** Insertion keeps a sorted list sorted and adds exactly the inserted event. */
  lemma {:induction false} InsertByDensityProps<T>(sorted: seq<Event<T>>, e: Event<T>)
    requires DensitySorted(sorted)
    ensures DensitySorted(InsertByDensity(sorted, e))
    ensures |InsertByDensity(sorted, e)| == |sorted| + 1
    ensures multiset(InsertByDensity(sorted, e)) == multiset(sorted) + multiset{e}
    ensures multiset(Items(InsertByDensity(sorted, e))) == multiset(Items(sorted)) + multiset{e.item}
    ensures multiset(ItemWeights(InsertByDensity(sorted, e))) ==
              multiset(ItemWeights(sorted)) + multiset{(e.item, e.weight)}
    decreases |sorted|
  {
    InsertByDensityCounts(sorted, e);
    if !(sorted == [] || sorted[|sorted| - 1].integratedDensity <= e.integratedDensity) {
      var init, last := sorted[..|sorted| - 1], sorted[|sorted| - 1];
      assert sorted == init + [last];
      InsertByDensityProps(init, e);
      var ins := InsertByDensity(init, e);
      // every element of `ins` is either e or an element of init, hence below `last`
      forall i | 0 <= i < |ins|
        ensures ins[i].integratedDensity <= last.integratedDensity
      {
        assert ins[i] in multiset(ins);
        if ins[i] != e {
          assert ins[i] in multiset(init);
          var k :| 0 <= k < |init| && init[k] == ins[i];
          assert sorted[k] == init[k];
        }
      }
    }
  }

  /** The stable sort yields a sorted permutation of its input. */
  lemma {:induction false} SortByDensityProps<T>(es: seq<Event<T>>)
    ensures DensitySorted(SortByDensity(es))
    ensures |SortByDensity(es)| == |es|
    ensures multiset(SortByDensity(es)) == multiset(es)
    ensures multiset(Items(SortByDensity(es))) == multiset(Items(es))
    ensures multiset(ItemWeights(SortByDensity(es))) == multiset(ItemWeights(es))
  {
    if es != [] {
      var init, last := es[..|es| - 1], es[|es| - 1];
      assert es == init + [last];
      SortByDensityProps(init);
      InsertByDensityProps(SortByDensity(init), last);
      ItemsSnoc(init, last);
    }
  }

  /** A list whose densities are already sorted is left as it is. */
  lemma {:induction false} SortByDensitySortedIsIdentity<T>(es: seq<Event<T>>)
    requires DensitySorted(es)
    ensures SortByDensity(es) == es
  {
    if es != [] {
      var init, last := es[..|es| - 1], es[|es| - 1];
      assert DensitySorted(init) by {
        forall i, j | 0 <= i < j < |init|
          ensures init[i].integratedDensity <= init[j].integratedDensity
        {
          assert init[i] == es[i] && init[j] == es[j];
        }
      }
      SortByDensitySortedIsIdentity(init);
      assert SortByDensity(es) == InsertByDensity(init, last);
      if init != [] {
        assert init[|init| - 1] == es[|es| - 2];
      }
      assert InsertByDensity(init, last) == init + [last];
      assert init + [last] == es;
    }
  }

  /**
   * `normalize` only permutes the events, keeping every item and every
   * (item, weight) pair, leaves densities sorted and records the total weight.
   */
  lemma NormalizedPermutes<T>(d: Dist<T>)
    ensures Normalized(d).cumulativeWeight == WeightSum(d.events)
    ensures DensitySorted(Normalized(d).events)
    ensures |Normalized(d).events| == |d.events|
    ensures multiset(Items(Normalized(d).events)) == multiset(Items(d.events))
    ensures multiset(ItemWeights(Normalized(d).events)) == multiset(ItemWeights(d.events))
    ensures forall e :: e in Normalized(d).events ==> (e.item, e.weight) in ItemWeights(d.events)
  {
    PrefixSumsShape(d.events);
    SortByDensityProps(WithPrefixSums(d.events));
    var n := Normalized(d).events;
    forall e | e in n
      ensures (e.item, e.weight) in ItemWeights(d.events)
    {
      var i :| 0 <= i < |n| && n[i] == e;
      assert ItemWeights(n)[i] == (e.item, e.weight);
      assert (e.item, e.weight) in multiset(ItemWeights(n));
    }
  }

  /**
   * With non-negative weights `normalize` keeps the list order: every event is
   * the input event with its prefix sum as density, and the last density is the
   * cumulative weight.
   */
  lemma NormalizedNonNegative<T>(d: Dist<T>)
    requires forall k :: 0 <= k < |d.events| ==> d.events[k].weight >= 0.0
    ensures Normalized(d).events == WithPrefixSums(d.events)
    ensures |d.events| > 0 ==>
              Normalized(d).events[|d.events| - 1].integratedDensity == Normalized(d).cumulativeWeight
  {
    PrefixSumsShape(d.events);
    SortByDensitySortedIsIdentity(WithPrefixSums(d.events));
  }

  /** Prefix sums of n equal weights 1/n. */
  lemma {:induction false} SeededPrefixSum<T>(items: seq<T>, k: nat)
    requires 0 < |items| && k <= |items|
    ensures WeightSum(Seeded(items)[..k]) == k as real / |items| as real
  {
    if k > 0 {
      SeededPrefixSum(items, k - 1);
      WeightSumSnoc(Seeded(items), k - 1);
    }
  }

  /**
   * A fresh policy over n > 0 items: event i holds item i with weight 1/n and
   * density (i+1)/n, and the cumulative weight is 1.
   */
  lemma UniformShape<T>(items: seq<T>)
    requires |items| > 0
    ensures |Uniform(items).events| == |items|
    ensures Items(Uniform(items).events) == items
    ensures forall i :: 0 <= i < |items| ==>
              Uniform(items).events[i] ==
                Event(items[i], 1.0 / |items| as real, (i + 1) as real / |items| as real)
    ensures Uniform(items).cumulativeWeight == 1.0
  {
    UniformIsPrefixSums(items);
    forall i | 0 <= i < |items|
      ensures Uniform(items).events[i] ==
                Event(items[i], 1.0 / |items| as real, (i + 1) as real / |items| as real)
    {
      UniformAt(items, i);
    }
    UniformTotal(items);
    assert Items(Uniform(items).events) == items by {
      forall i | 0 <= i < |items|
        ensures Items(Uniform(items).events)[i] == items[i]
      {
        assert Uniform(items).events[i].item == items[i];
      }
    }
  }

  /** A fresh uniform distribution's weights add up to 1. */
  lemma UniformTotal<T>(items: seq<T>)
    requires |items| > 0
    ensures Uniform(items).cumulativeWeight == 1.0
  {
    var n := |items| as real;
    SeededPrefixSum(items, |items|);
    assert Seeded(items)[..|items|] == Seeded(items);
    assert WeightSum(Seeded(items)) == n / n;
  }

  lemma UniformAt<T>(items: seq<T>, i: nat)
    requires i < |items|
    ensures WithPrefixSums(Seeded(items))[i] ==
              Event(items[i], 1.0 / |items| as real, (i + 1) as real / |items| as real)
  {
    SeededPrefixSum(items, i + 1);
    var es := Seeded(items);
    assert es[i] == Event(items[i], 1.0 / |items| as real, i as real / |items| as real);
    assert WithPrefixSums(es)[i] == es[i].(integratedDensity := WeightSum(es[..i + 1]));
  }

  lemma UniformIsPrefixSums<T>(items: seq<T>)
    ensures Uniform(items).events == WithPrefixSums(Seeded(items))
    ensures Uniform(items).cumulativeWeight == WeightSum(Seeded(items))
  {
    SeededNonNegative(items);
    NormalizedNonNegative(Dist(Seeded(items), 0.0));
  }

  lemma SeededNonNegative<T>(items: seq<T>)
    ensures forall k :: 0 <= k < |Seeded(items)| ==> Seeded(items)[k].weight >= 0.0
  {
  }

  /** A fresh policy ranges over exactly the given items, also when there are none. */
  lemma UniformItems<T>(items: seq<T>)
    ensures multiset(Items(Uniform(items).events)) == multiset(items)
  {
    if |items| > 0 {
      UniformShape(items);
    } else {
      NormalizedPermutes(Dist(Seeded(items), 0.0));
    }
  }

  // ---------------------------------------------------------------- the class

  /** `ProbabilityDistribution`: an event list and its cumulative weight, updated in place. */
  class ProbabilityDistribution<T> {
    var probabilities: seq<Event<T>>
    var cumulativeWeight: real

    constructor ()
      ensures probabilities == [] && cumulativeWeight == 0.0
    {
      probabilities := [];
      cumulativeWeight := 0.0;
    }

    /** The distribution's current value. */
    function Value(): Dist<T>
      reads this
    {
      Dist(probabilities, cumulativeWeight)
    }

    /** `setEvents`: appends one event per item, event i with weight 1/n and density i/n. */
    method SetEvents(events: seq<T>)
      modifies this
      ensures probabilities == old(probabilities) + Seeded(events)
      ensures cumulativeWeight == old(cumulativeWeight)
    {
      var size := |events| as real;
      var index := 0;
      while index < |events|
        invariant 0 <= index <= |events|
        invariant probabilities == old(probabilities) + Seeded(events)[..index]
        invariant cumulativeWeight == old(cumulativeWeight)
      {
        probabilities := probabilities + [Event(events[index], 1.0 / size, index as real / size)];
        assert Seeded(events)[..index + 1] == Seeded(events)[..index] + [Seeded(events)[index]];
        index := index + 1;
      }
      assert Seeded(events)[..|events|] == Seeded(events);
    }

    /** `normalize`: the fold writes prefix sums into the densities and the total into
        `cumulativeWeight`; then the list is sorted by density. */
    method Normalize()
      modifies this
      ensures Value() == Normalized(old(Value()))
    {
      ghost var es := probabilities;
      var sum := 0.0;
      var i := 0;
      while i < |probabilities|
        invariant |probabilities| == |es|
        invariant 0 <= i <= |es|
        invariant forall k :: 0 <= k < i ==> probabilities[k] == WithPrefixSums(es)[k]
        invariant forall k :: i <= k < |es| ==> probabilities[k] == es[k]
        invariant sum == WeightSum(es[..i])
      {
        WeightSumSnoc(es, i);
        sum := sum + probabilities[i].weight;
        probabilities := probabilities[i := probabilities[i].(integratedDensity := sum)];
        i := i + 1;
      }
      assert probabilities == WithPrefixSums(es);
      assert es[..|es|] == es;
      cumulativeWeight := sum;
      probabilities := SortByDensity(probabilities);
    }

    /**
     * `sample` with `Math.random()` passed in as u: the draw is scaled by the
     * cumulative weight and the first event whose density reaches it wins;
     * when none does, the first event's item is returned.
     */
    method Sample(u: real) returns (item: T)
      requires |probabilities| > 0
      ensures item == probabilities[SampleIndex(probabilities, u * cumulativeWeight)].item
      ensures item == SampleOf(Value(), u)
    {
      var r := u * cumulativeWeight;
      var i := 0;
      while i < |probabilities|
        invariant 0 <= i <= |probabilities|
        invariant forall k :: 0 <= k < i ==> probabilities[k].integratedDensity < r
      {
        if probabilities[i].integratedDensity >= r {
          return probabilities[i].item;
        }
        i := i + 1;
      }
      return probabilities[0].item;
    }
  }
}
