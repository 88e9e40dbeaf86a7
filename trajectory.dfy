/**
 * `Trajectory`: one episode's visits in order, plus the set of states seen so
 * far, which decides each new visit's first-visit flag.
 */
module Trajectory {
  import opened DataStructures
  import opened Seqs

  /** The states of a visit list. */
  function StatesOf<S, A>(vs: seq<Visit<S, A>>): set<S>
  {
    set i | 0 <= i < |vs| :: vs[i].state
  }

  /** The states whose visits carry the first-visit flag. */
  function StampedStates<S, A>(vs: seq<Visit<S, A>>): set<S>
  {
    set i | 0 <= i < |vs| && vs[i].isFirstVisit :: vs[i].state
  }

  /** A visit is flagged exactly when no earlier visit has its state. */
  ghost predicate FirstVisitStamped<S, A>(vs: seq<Visit<S, A>>)
  {
    forall i :: 0 <= i < |vs| ==>
      (vs[i].isFirstVisit <==> forall j :: 0 <= j < i ==> vs[j].state != vs[i].state)
  }

  /** No state carries the first-visit flag on two visits. */
  ghost predicate AtMostOneStampPerState<S, A>(vs: seq<Visit<S, A>>)
  {
    forall i, j ::
      (0 <= i < |vs| && 0 <= j < |vs| && vs[i].isFirstVisit && vs[j].isFirstVisit && vs[i].state == vs[j].state)
      ==> i == j
  }

  /**
   * The first-visit invariant: the flagged states are exactly the visited ones,
   * each flagged once, on its earliest visit.
   */
  lemma FirstVisitUnique<S, A>(vs: seq<Visit<S, A>>)
    requires FirstVisitStamped(vs)
    ensures StampedStates(vs) == StatesOf(vs)
    ensures AtMostOneStampPerState(vs)
    ensures forall i :: 0 <= i < |vs| && vs[i].isFirstVisit ==>
              forall j :: 0 <= j < |vs| && vs[j].state == vs[i].state ==> i <= j
  {
    forall s | s in StatesOf(vs)
      ensures s in StampedStates(vs)
    {
      var i :| 0 <= i < |vs| && vs[i].state == s;
      var k := EarliestVisit(vs, s, i);
      assert vs[k].isFirstVisit;
    }
  }

  /** Some visit at or before index i has the state `s` and no visit before it has it. */
  lemma {:induction false} EarliestVisit<S, A>(vs: seq<Visit<S, A>>, s: S, i: nat) returns (k: nat)
    requires i < |vs| && vs[i].state == s
    ensures k <= i && vs[k].state == s
    ensures forall j :: 0 <= j < k ==> vs[j].state != s
  {
    if exists j :: 0 <= j < i && vs[j].state == s {
      var j :| 0 <= j < i && vs[j].state == s;
      k := EarliestVisit(vs, s, j);
    } else {
      k := i;
    }
  }

  /**
   * How the older runners flag visits: against the set `seen` of states met
   * before, grown by each visited state.
   */
  function Stamp<S, A>(seen: set<S>, vs: seq<Visit<S, A>>): (r: seq<Visit<S, A>>)
    ensures |r| == |vs|
    decreases |vs|
  {
    if vs == [] then []
    else [vs[0].(isFirstVisit := vs[0].state !in seen)] + Stamp(seen + {vs[0].state}, vs[1..])
  }

  /** Stamping keeps each visit's state, action and reward, and flags it iff its state is new. */
  lemma {:induction false} StampAt<S, A>(seen: set<S>, vs: seq<Visit<S, A>>)
    ensures |Stamp(seen, vs)| == |vs|
    ensures forall i :: 0 <= i < |vs| ==>
              Stamp(seen, vs)[i] == vs[i].(isFirstVisit := vs[i].state !in seen + StatesOf(vs[..i]))
    decreases |vs|
  {
    if vs != [] {
      var v, rest := vs[0], vs[1..];
      StampAt(seen + {v.state}, rest);
      forall i | 0 < i < |vs|
        ensures Stamp(seen, vs)[i] == vs[i].(isFirstVisit := vs[i].state !in seen + StatesOf(vs[..i]))
      {
        assert vs[..i] == [v] + rest[..i - 1];
        StatesOfCons(v, rest[..i - 1]);
      }
      assert vs[..0] == [];
    }
  }

  /** Stamping a visit list that starts with v: v against `seen`, the rest against `seen` and v's state. */
  lemma {:induction false} StampCons<S, A>(seen: set<S>, v: Visit<S, A>, vs: seq<Visit<S, A>>)
    ensures Stamp(seen, [v] + vs) == [v.(isFirstVisit := v.state !in seen)] + Stamp(seen + {v.state}, vs)
  {
    assert ([v] + vs)[1..] == vs;
  }

  lemma StatesOfCons<S, A>(v: Visit<S, A>, vs: seq<Visit<S, A>>)
    ensures StatesOf([v] + vs) == {v.state} + StatesOf(vs)
  {
    var w := [v] + vs;
    assert w[0] == v;
    forall i | 0 <= i < |vs|
      ensures w[i + 1] == vs[i]
    {
    }
    forall s | s in StatesOf(w)
      ensures s in {v.state} + StatesOf(vs)
    {
      var i :| 0 <= i < |w| && w[i].state == s;
      if i > 0 {
        assert vs[i - 1].state == s;
      }
    }
  }

  /**
   * One stamping step: moving visit v from the pending list to the stamped
   * prefix, flagged against `seen`, with its state joining `seen`.
   */
  lemma {:induction false} StampStep<S, A>(done: seq<Visit<S, A>>, seen: set<S>, v: Visit<S, A>, vs: seq<Visit<S, A>>)
    ensures done + Stamp(seen, [v] + vs) == (done + [v.(isFirstVisit := v.state !in seen)]) + Stamp(seen + {v.state}, vs)
    ensures seen + StatesOf([v] + vs) == (seen + {v.state}) + StatesOf(vs)
  {
    StampCons(seen, v, vs);
    StatesOfCons(v, vs);
  }

  lemma StatesOfSnoc<S, A>(vs: seq<Visit<S, A>>, v: Visit<S, A>)
    ensures StatesOf(vs + [v]) == StatesOf(vs) + {v.state}
  {
    assert forall i :: 0 <= i < |vs| ==> (vs + [v])[i] == vs[i];
    assert (vs + [v])[|vs|] == v;
  }

  /** Stamping from an empty seen-set yields the first-visit invariant. */
  lemma StampFromEmpty<S, A>(vs: seq<Visit<S, A>>)
    ensures FirstVisitStamped(Stamp({}, vs))
    ensures StatesOf(Stamp({}, vs)) == StatesOf(vs)
  {
    StampAt({}, vs);
    var st := Stamp({}, vs);
    forall i | 0 <= i < |vs|
      ensures st[i].isFirstVisit <==> forall j :: 0 <= j < i ==> st[j].state != st[i].state
    {
      if !st[i].isFirstVisit {
        var j :| 0 <= j < i && vs[..i][j].state == vs[i].state;
        assert st[j].state == st[i].state;
      }
    }
    assert forall i :: 0 <= i < |vs| ==> st[i].state == vs[i].state;
  }

  /** A trajectory: the visit list and its first-visit set, both updated in place. */
  class Trajectory<S(==), A> {
    var firstVisit: set<S>
    var list: seq<Visit<S, A>>

    /** `firstVisit` holds the visited states, and the flags mark each state's earliest visit. */
    ghost predicate Valid()
      reads this
    {
      firstVisit == StatesOf(list) && FirstVisitStamped(list)
    }

    constructor ()
      ensures Valid() && list == [] && firstVisit == {}
    {
      firstVisit := {};
      list := [];
    }

    /** `clear`: empties the visit list and the first-visit set. */
    method Clear()
      modifies this
      ensures Valid() && list == [] && firstVisit == {}
    {
      list := [];
      firstVisit := {};
    }

    /**
     * `add`: appends one visit, flagged iff its state had not been seen; the
     * state joins the seen-set.
     */
    method Add(state: S, action: A, reward: real)
      requires Valid()
      modifies this
      ensures Valid()
      ensures list == old(list) + [Visit(state, action, reward, state !in old(firstVisit))]
      ensures firstVisit == old(firstVisit) + {state}
    {
      var visit := NewVisit(state, action, reward);
      if state !in firstVisit {
        firstVisit := firstVisit + {state};
        visit := visit.(isFirstVisit := true);
      }
      StatesOfSnoc(list, visit);
      assert visit.isFirstVisit <==> forall j :: 0 <= j < |list| ==> list[j].state != state;
      ghost var before := list;
      list := list + [visit];
      forall i | 0 <= i < |list|
        ensures list[i].isFirstVisit <==> forall j :: 0 <= j < i ==> list[j].state != list[i].state
      {
        assert forall j :: 0 <= j < |before| ==> list[j] == before[j];
        if i == |before| {
          assert list[i] == visit;
        }
      }
    }

    /** `size`: the number of visits. */
    function Size(): (n: nat)
      reads this
      ensures n == |list|
    {
      |list|
    }

    /** `last`: the most recently added visit (the source throws on an empty list). */
    function Last(): (v: Visit<S, A>)
      reads this
      requires |list| > 0
      ensures v == list[|list| - 1]
      ensures v in list
    {
      list[|list| - 1]
    }

    /** `reversed`: the visits newest first, without touching the trajectory. */
    function Reversed(): (r: seq<Visit<S, A>>)
      reads this
      ensures |r| == |list|
      ensures forall i :: 0 <= i < |list| ==> r[i] == list[|list| - 1 - i]
    {
      ReverseAt(list);
      Reverse(list)
    }
  }
}
