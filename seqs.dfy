/** Sequence helpers shared by the trajectory and the agents. */
module Seqs {

  /** The elements of `s` in reverse order (Kotlin's `List.reversed()`). */
  function Reverse<T>(s: seq<T>): seq<T>
  {
    if s == [] then [] else [s[|s| - 1]] + Reverse(s[..|s| - 1])
  }

  /** Reversal keeps the length and mirrors every index. */
  lemma {:induction false} ReverseAt<T>(s: seq<T>)
    ensures |Reverse(s)| == |s|
    ensures forall i :: 0 <= i < |s| ==> Reverse(s)[i] == s[|s| - 1 - i]
  {
    if s != [] {
      ReverseAt(s[..|s| - 1]);
    }
  }

  /** Reversal is its own inverse. */
  lemma ReverseReverse<T>(s: seq<T>)
    ensures Reverse(Reverse(s)) == s
  {
    ReverseAt(s);
    ReverseAt(Reverse(s));
  }

  /** Every element of the concatenation of `rows` in order. */
  function Flatten<T>(rows: seq<seq<T>>): seq<T>
  {
    if rows == [] then [] else Flatten(rows[..|rows| - 1]) + rows[|rows| - 1]
  }

  /** Moving the head of the rest onto the end of the prefix keeps the whole. */
  lemma ShiftHead<T>(done: seq<T>, x: T, rest: seq<T>)
    ensures done + ([x] + rest) == (done + [x]) + rest
  {
  }

  /** Flattening a prefix one row longer appends that row. */
  lemma FlattenSnoc<T>(rows: seq<seq<T>>, i: nat)
    requires i < |rows|
    ensures Flatten(rows[..i + 1]) == Flatten(rows[..i]) + rows[i]
  {
    assert rows[..i + 1][..i] == rows[..i];
  }

  /** The length of a flattening is the sum of the row lengths; pinned down for equal-length rows. */
  lemma {:induction false} FlattenUniformLength<T>(rows: seq<seq<T>>, w: nat)
    requires forall y :: 0 <= y < |rows| ==> |rows[y]| == w
    ensures |Flatten(rows)| == |rows| * w
  {
    if rows != [] {
      var init := rows[..|rows| - 1];
      FlattenUniformLength(init, w);
      assert |Flatten(rows)| == |Flatten(init)| + |rows[|rows| - 1]|;
      assert |Flatten(init)| == (|rows| - 1) * w;
      assert (|rows| - 1) * w + w == |rows| * w;
    }
  }

  /** In a flattening of rows of width `w`, cell (y, x) sits at index y * w + x. */
  lemma {:induction false} FlattenAt<T>(rows: seq<seq<T>>, w: nat, y: nat, x: nat)
    requires forall r :: 0 <= r < |rows| ==> |rows[r]| == w
    requires y < |rows| && x < w
    ensures y * w + x < |Flatten(rows)|
    ensures Flatten(rows)[y * w + x] == rows[y][x]
  {
    var init := rows[..|rows| - 1];
    FlattenUniformLength(init, w);
    FlattenUniformLength(rows, w);
    assert |Flatten(init)| == (|rows| - 1) * w;
    if y < |rows| - 1 {
      FlattenAt(init, w, y, x);
      assert y * w + x < |Flatten(init)|;
    } else {
      assert y * w == |Flatten(init)|;
    }
  }
}
