/**
 * The race-track rules that both `RaceTrack` revisions implement identically:
 * the hard-coded track, how its start and end cells are found, the transition
 * dynamics (walls block, edges clamp, rewards -1.5 / 1.0 / -1.0) and the
 * trajectory overlay drawing.
 */
module Grid {
  import opened DataStructures
  import opened Seqs

  const OPEN_STATE: char := ' '
  const STARTING_STATE: char := '1'
  const ENDING_STATE: char := '2'
  const WALL: char := '@'

  /** The hard-coded level, one string per board row, after indentation is trimmed. */
  const TRACK: seq<string> := [
    "@@@@@@@@@@@@@@@@@@@@@@",
    "@            @@    2 @",
    "@            @@      @",
    "@            @@      @",
    "@            @@      @",
    "@                    @",
    "@                    @",
    "@                    @",
    "@     @@             @",
    "@     @@             @",
    "@ 1   @@             @",
    "@@@@@@@@@@@@@@@@@@@@@@"
  ]

  // ---------------------------------------------------------------- cells

  /** The cells of row `y` holding `c`, left to right. */
  function RowCells(row: seq<char>, y: int, c: char): seq<RaceTrackState>
  {
    if row == [] then []
    else RowCells(row[..|row| - 1], y, c) + (if row[|row| - 1] == c then [RaceTrackState(|row| - 1, y)] else [])
  }

  /** The cells of the whole board holding `c`, in row-major order. */
  function CellsWith(lines: seq<seq<char>>, c: char): seq<RaceTrackState>
  {
    if lines == [] then []
    else CellsWith(lines[..|lines| - 1], c) + RowCells(lines[|lines| - 1], |lines| - 1, c)
  }

  /**
   * The inner loop of `load`: copies one line letter by letter and appends
   * its '1' and '2' cells, left to right, to the starting and ending cells.
   */
  method ScanRow(letters: seq<char>, y: int, starts: seq<RaceTrackState>, ends: seq<RaceTrackState>)
    returns (row: seq<char>, starts': seq<RaceTrackState>, ends': seq<RaceTrackState>)
    ensures row == letters
    ensures starts' == starts + RowCells(letters, y, STARTING_STATE)
    ensures ends' == ends + RowCells(letters, y, ENDING_STATE)
  {
    row, starts', ends' := [], starts, ends;
    var x := 0;
    while x < |letters|
      invariant 0 <= x <= |letters|
      invariant row == letters[..x]
      invariant starts' == starts + RowCells(letters[..x], y, STARTING_STATE)
      invariant ends' == ends + RowCells(letters[..x], y, ENDING_STATE)
    {
      assert letters[..x + 1][..x] == letters[..x];
      if letters[x] == STARTING_STATE {
        starts' := starts' + [RaceTrackState(x, y)];
      } else if letters[x] == ENDING_STATE {
        ends' := ends' + [RaceTrackState(x, y)];
      }
      row := row + [letters[x]];
      x := x + 1;
    }
    assert letters[..x] == letters;
  }

  /**
   * The outer loop of `load`: appends one board row per line and the
   * line's cells, and sets the size to (first line's length, line count),
   * the width only on the first line read.
   */
  method ReadLines(lines: seq<string>, board: seq<seq<char>>, size: (int, int),
                   starts: seq<RaceTrackState>, ends: seq<RaceTrackState>)
    returns (board': seq<seq<char>>, size': (int, int), starts': seq<RaceTrackState>, ends': seq<RaceTrackState>)
    ensures board' == board + lines
    ensures size' == if |lines| == 0 then (size.0, 0) else (|lines[0]|, |lines|)
    ensures starts' == starts + CellsWith(lines, STARTING_STATE)
    ensures ends' == ends + CellsWith(lines, ENDING_STATE)
  {
    board', size', starts', ends' := board, (size.0, |lines|), starts, ends;
    var isFirstRead := true;
    var y := 0;
    while y < |lines|
      invariant 0 <= y <= |lines|
      invariant isFirstRead <==> y == 0
      invariant size' == if y == 0 then (size.0, |lines|) else (|lines[0]|, |lines|)
      invariant board' == board + lines[..y]
      invariant starts' == starts + CellsWith(lines[..y], STARTING_STATE)
      invariant ends' == ends + CellsWith(lines[..y], ENDING_STATE)
    {
      var letters := lines[y];
      if isFirstRead {
        size' := (|letters|, size'.1);
      }
      isFirstRead := false;
      var row;
      row, starts', ends' := ScanRow(letters, y, starts', ends');
      assert lines[..y + 1][..y] == lines[..y];
      board' := board' + [row];
      y := y + 1;
    }
    assert lines[..y] == lines;
  }

  /** `p` comes before `q` when the board is read row by row. */
  predicate RowMajorBefore(p: RaceTrackState, q: RaceTrackState)
  {
    p.y < q.y || (p.y == q.y && p.x < q.x)
  }

  predicate RowMajorSorted(s: seq<RaceTrackState>)
  {
    forall i, j :: 0 <= i < j < |s| ==> RowMajorBefore(s[i], s[j])
  }

  /** A row's cells holding `c` are exactly its `c` positions, in increasing x. */
  lemma {:induction false} RowCellsSpec(row: seq<char>, y: int, c: char)
    ensures forall p :: p in RowCells(row, y, c) <==> p.y == y && 0 <= p.x < |row| && row[p.x] == c
    ensures RowMajorSorted(RowCells(row, y, c))
  {
    if row != [] {
      var init := row[..|row| - 1];
      RowCellsSpec(init, y, c);
      assert forall x :: 0 <= x < |init| ==> init[x] == row[x];
    }
  }

  /** The board's cells holding `c` are exactly its `c` positions, in row-major order. */
  lemma {:induction false} CellsWithSpec(lines: seq<seq<char>>, c: char)
    ensures forall p :: p in CellsWith(lines, c) <==>
              0 <= p.y < |lines| && 0 <= p.x < |lines[p.y]| && lines[p.y][p.x] == c
    ensures RowMajorSorted(CellsWith(lines, c))
  {
    if lines != [] {
      var init := lines[..|lines| - 1];
      var last := |lines| - 1;
      CellsWithSpec(init, c);
      RowCellsSpec(lines[last], last, c);
      assert forall y :: 0 <= y < |init| ==> init[y] == lines[y];
      var a := CellsWith(init, c);
      var b := RowCells(lines[last], last, c);
      assert CellsWith(lines, c) == a + b;
      forall i, j | 0 <= i < j < |a + b|
        ensures RowMajorBefore((a + b)[i], (a + b)[j])
      {
        if j >= |a| && i < |a| {
          assert (a + b)[i] in a;
          assert (a + b)[j] in b;
        }
      }
    }
  }

  /** The first two entries of a row-major sorted sequence differ. */
  lemma SortedHeadsDiffer(s: seq<RaceTrackState>)
    requires RowMajorSorted(s)
    ensures |s| >= 2 ==> s[0] != s[1]
  {
  }

  /** A row-major sorted, non-empty sequence whose every entry is `p` is `[p]`. */
  lemma SortedSingleton(s: seq<RaceTrackState>, p: RaceTrackState)
    requires RowMajorSorted(s) && |s| > 0
    requires forall i :: 0 <= i < |s| ==> s[i] == p
    ensures s == [p]
  {
    SortedHeadsDiffer(s);
  }

  /** A board with exactly one `c` cell lists just that cell. */
  lemma OnlyCell(lines: seq<seq<char>>, c: char, p: RaceTrackState)
    requires 0 <= p.y < |lines| && 0 <= p.x < |lines[p.y]| && lines[p.y][p.x] == c
    requires forall y, x :: 0 <= y < |lines| && 0 <= x < |lines[y]| && lines[y][x] == c ==> x == p.x && y == p.y
    ensures CellsWith(lines, c) == [p]
  {
    CellsWithSpec(lines, c);
    var cells := CellsWith(lines, c);
    assert p in cells;
    assert forall i :: 0 <= i < |cells| ==> cells[i] in cells;
    SortedSingleton(cells, p);
  }

  /** The hard-coded track has one start cell, (2, 10). */
  lemma TrackStartCell()
    ensures CellsWith(TRACK, STARTING_STATE) == [RaceTrackState(2, 10)]
  {
    forall y | 0 <= y < |TRACK| && y != 10
      ensures STARTING_STATE !in TRACK[y]
    {
    }
    forall y, x | 0 <= y < |TRACK| && 0 <= x < |TRACK[y]| && TRACK[y][x] == STARTING_STATE
      ensures x == 2 && y == 10
    {
      assert TRACK[y][x] in TRACK[y];
    }
    OnlyCell(TRACK, STARTING_STATE, RaceTrackState(2, 10));
  }

  /** The hard-coded track has one end cell, (19, 1). */
  lemma TrackEndCell()
    ensures CellsWith(TRACK, ENDING_STATE) == [RaceTrackState(19, 1)]
  {
    forall y | 0 <= y < |TRACK| && y != 1
      ensures ENDING_STATE !in TRACK[y]
    {
    }
    forall y, x | 0 <= y < |TRACK| && 0 <= x < |TRACK[y]| && TRACK[y][x] == ENDING_STATE
      ensures x == 19 && y == 1
    {
      assert TRACK[y][x] in TRACK[y];
    }
    OnlyCell(TRACK, ENDING_STATE, RaceTrackState(19, 1));
  }

  /** The hard-coded track has one start cell, (2, 10), and one end cell, (19, 1). */
  lemma TrackCells()
    ensures CellsWith(TRACK, STARTING_STATE) == [RaceTrackState(2, 10)]
    ensures CellsWith(TRACK, ENDING_STATE) == [RaceTrackState(19, 1)]
  {
    TrackStartCell();
    TrackEndCell();
  }

  // ------------------------------------------------------------- dynamics

  /** Every row has `size.0` cells and there are `size.1` rows. */
  predicate Rectangular(board: seq<seq<char>>, size: (int, int))
  {
    |board| > 0 && size.1 == |board| && forall y :: 0 <= y < |board| ==> |board[y]| == size.0
  }

  /** The hard-coded track is a 22 by 12 rectangle. */
  lemma TrackRectangular()
    ensures Rectangular(TRACK, (22, 12))
  {
  }

  predicate InBoard(board: seq<seq<char>>, s: RaceTrackState)
  {
    0 <= s.y < |board| && 0 <= s.x < |board[s.y]|
  }

  /** `transitionReward`: the reward for landing on (or bumping into) a cell. */
  function Reward(c: char): real
  {
    if c == WALL then -1.5 else if c == ENDING_STATE then 1.0 else -1.0
  }

  /** The would-be position one step in the action's direction. */
  function Target(s: RaceTrackState, a: RaceTrackAction): RaceTrackState
  {
    match a
    case Up => RaceTrackState(s.x, s.y - 1)
    case Down => RaceTrackState(s.x, s.y + 1)
    case Left => RaceTrackState(s.x - 1, s.y)
    case Right => RaceTrackState(s.x + 1, s.y)
  }

  /** Whether the move would leave the board through the edge the action faces. */
  predicate AtEdge(size: (int, int), s: RaceTrackState, a: RaceTrackAction)
  {
    match a
    case Up => s.y == 0
    case Down => s.y == size.1 - 1
    case Left => s.x == 0
    case Right => s.x == size.0 - 1
  }

  /** The cell a move looks up: the current one at the edge, else the target. */
  function Destination(size: (int, int), s: RaceTrackState, a: RaceTrackAction): RaceTrackState
  {
    if AtEdge(size, s, a) then s else Target(s, a)
  }

  /** `nextStateAs`: a wall at (nx, ny) keeps the agent at (x, y); anything else moves it there. */
  function NextStateAs(board: seq<seq<char>>, x: int, y: int, nx: int, ny: int): (r: NextStateSample<RaceTrackState>)
    requires InBoard(board, RaceTrackState(nx, ny))
    ensures r.state == RaceTrackState(x, y) || r.state == RaceTrackState(nx, ny)
    ensures r.reward == Reward(board[ny][nx])
  {
    var c := board[ny][nx];
    NextStateSample(if c == WALL then RaceTrackState(x, y) else RaceTrackState(nx, ny), Reward(c))
  }

  /**
   * `sampleNextStateFromStateAction`: the source indexes the board at the
   * looked-up cell, so that cell must exist.
   */
  function Transition(board: seq<seq<char>>, size: (int, int), s: RaceTrackState, a: RaceTrackAction)
    : (r: NextStateSample<RaceTrackState>)
    requires InBoard(board, Destination(size, s, a))
    ensures r.state == s || r.state == Destination(size, s, a)
    ensures r.reward == -1.5 || r.reward == 1.0 || r.reward == -1.0
  {
    var d := Destination(size, s, a);
    NextStateAs(board, s.x, s.y, d.x, d.y)
  }

  /** Walls block with -1.5; the end cell is entered with 1.0; any other cell with -1.0. */
  lemma TransitionRules(board: seq<seq<char>>, size: (int, int), s: RaceTrackState, a: RaceTrackAction)
    requires InBoard(board, Destination(size, s, a))
    ensures var d := Destination(size, s, a);
            var c := board[d.y][d.x];
            && (c == WALL ==> Transition(board, size, s, a) == NextStateSample(s, -1.5))
            && (c == ENDING_STATE ==> Transition(board, size, s, a) == NextStateSample(d, 1.0))
            && (c != WALL && c != ENDING_STATE ==> Transition(board, size, s, a) == NextStateSample(d, -1.0))
  {
  }

  /** Each action moves exactly one coordinate by exactly one. */
  lemma TargetOneStep(s: RaceTrackState, a: RaceTrackAction)
    ensures var t := Target(s, a);
            (t.x == s.x && (t.y == s.y - 1 || t.y == s.y + 1)) || (t.y == s.y && (t.x == s.x - 1 || t.x == s.x + 1))
    ensures a == Up ==> Target(s, a) == RaceTrackState(s.x, s.y - 1)
    ensures a == Down ==> Target(s, a) == RaceTrackState(s.x, s.y + 1)
    ensures a == Left ==> Target(s, a) == RaceTrackState(s.x - 1, s.y)
    ensures a == Right ==> Target(s, a) == RaceTrackState(s.x + 1, s.y)
  {
  }

  /** At the edge the move is clamped: the state stays and the reward is the current cell's. */
  lemma EdgeClamp(board: seq<seq<char>>, size: (int, int), s: RaceTrackState, a: RaceTrackAction)
    requires InBoard(board, s) && AtEdge(size, s, a)
    ensures Transition(board, size, s, a) == NextStateSample(s, Reward(board[s.y][s.x]))
  {
  }

  /** On a rectangular board every move from a cell is defined and lands on a cell. */
  lemma TransitionStaysInBoard(board: seq<seq<char>>, size: (int, int), s: RaceTrackState, a: RaceTrackAction)
    requires Rectangular(board, size) && InBoard(board, s)
    ensures InBoard(board, Destination(size, s, a))
    ensures InBoard(board, Transition(board, size, s, a).state)
  {
  }

  /** `isTerminatingState` of the loaded track, made total: off the board nothing is terminal. */
  predicate TrackTerminal(s: RaceTrackState)
  {
    InBoard(TRACK, s) && TRACK[s.y][s.x] == ENDING_STATE
  }

  /**
   * `sampleNextStateFromStateAction` of the loaded track, made total: off the
   * board (never reached from a cell, see `TrackNextAgrees`) the state stays
   * with no reward.
   */
  function TrackNext(s: RaceTrackState, a: RaceTrackAction): NextStateSample<RaceTrackState>
  {
    if InBoard(TRACK, Destination((22, 12), s, a)) then Transition(TRACK, (22, 12), s, a)
    else NextStateSample(s, 0.0)
  }

  /** On a cell of the track the total versions are the track's own rules, and moves stay on the board. */
  lemma TrackNextAgrees(s: RaceTrackState, a: RaceTrackAction)
    requires InBoard(TRACK, s)
    ensures InBoard(TRACK, Destination((22, 12), s, a))
    ensures TrackNext(s, a) == Transition(TRACK, (22, 12), s, a)
    ensures InBoard(TRACK, TrackNext(s, a).state)
    ensures TrackTerminal(s) <==> TRACK[s.y][s.x] == ENDING_STATE
  {
    TrackRectangular();
    TransitionStaysInBoard(TRACK, (22, 12), s, a);
  }

  // -------------------------------------------------------------- drawing

  /** The board rows, each followed by a newline. */
  function Framed(board: seq<seq<char>>): (rows: seq<seq<char>>)
    ensures |rows| == |board|
    ensures forall y :: 0 <= y < |board| ==> rows[y] == board[y] + ['\n']
  {
    seq(|board|, y requires 0 <= y < |board| => board[y] + ['\n'])
  }

  /** Every visit names a cell of `grid`. */
  ghost predicate VisitsIn(grid: seq<seq<char>>, visits: seq<Visit<RaceTrackState, RaceTrackAction>>)
  {
    forall i :: 0 <= i < |visits| ==> InBoard(grid, visits[i].state)
  }

  /** Overwrites each visited cell with the visit's action character, in visit order. */
  function Paint(grid: seq<seq<char>>, visits: seq<Visit<RaceTrackState, RaceTrackAction>>): (r: seq<seq<char>>)
    requires VisitsIn(grid, visits)
    ensures |r| == |grid|
    ensures forall y :: 0 <= y < |grid| ==> |r[y]| == |grid[y]|
  {
    if visits == [] then grid
    else
      var g := Paint(grid, visits[..|visits| - 1]);
      var v := visits[|visits| - 1];
      g[v.state.y := g[v.state.y][v.state.x := v.action.Char()]]
  }

  /** A painted cell shows the action of its last visit; an unvisited cell is untouched. */
  lemma {:induction false} PaintCell(grid: seq<seq<char>>, visits: seq<Visit<RaceTrackState, RaceTrackAction>>, x: int, y: int)
    requires VisitsIn(grid, visits) && InBoard(grid, RaceTrackState(x, y))
    ensures (forall i :: 0 <= i < |visits| ==> visits[i].state != RaceTrackState(x, y)) ==>
              Paint(grid, visits)[y][x] == grid[y][x]
    ensures forall i :: 0 <= i < |visits| && visits[i].state == RaceTrackState(x, y) &&
              (forall j :: i < j < |visits| ==> visits[j].state != RaceTrackState(x, y))
              ==> Paint(grid, visits)[y][x] == visits[i].action.Char()
  {
    if visits != [] {
      var init := visits[..|visits| - 1];
      var v := visits[|visits| - 1];
      assert forall i :: 0 <= i < |init| ==> init[i] == visits[i];
      PaintCell(grid, init, x, y);
      var g := Paint(grid, init);
      assert Paint(grid, visits) == g[v.state.y := g[v.state.y][v.state.x := v.action.Char()]];
      if v.state != RaceTrackState(x, y) {
        assert Paint(grid, visits)[y][x] == g[y][x];
      }
    }
  }

  /** The board drawn as a string: the rows, each followed by a newline. */
  function Render(board: seq<seq<char>>): string
  {
    Flatten(Framed(board))
  }

  /** The drawing of a rectangular board: cell (x, y) sits at y * (w + 1) + x, and each row ends in a newline. */
  lemma RenderAt(board: seq<seq<char>>, w: nat, x: nat, y: nat)
    requires forall r :: 0 <= r < |board| ==> |board[r]| == w
    requires y < |board| && x <= w
    ensures |Render(board)| == |board| * (w + 1)
    ensures y * (w + 1) + x < |Render(board)|
    ensures Render(board)[y * (w + 1) + x] == if x == w then '\n' else board[y][x]
  {
    FlattenUniformLength(Framed(board), w + 1);
    FlattenAt(Framed(board), w + 1, y, x);
  }

  /**
   * The trajectory drawing of a rectangular board: at position
   * pos = y * (w + 1) + x a visited cell shows its last visit's action, any
   * other position the board (or the row's newline).
   */
  lemma DrawnAt(board: seq<seq<char>>, w: nat, visits: seq<Visit<RaceTrackState, RaceTrackAction>>,
                x: nat, y: nat, pos: nat)
    requires forall r :: 0 <= r < |board| ==> |board[r]| == w
    requires VisitsIn(Framed(board), visits)
    requires y < |board| && x <= w && pos == y * (w + 1) + x
    ensures |Flatten(Paint(Framed(board), visits))| == |Render(board)| == |board| * (w + 1)
    ensures pos < |Render(board)|
    ensures (forall i :: 0 <= i < |visits| ==> visits[i].state != RaceTrackState(x, y)) ==>
              Flatten(Paint(Framed(board), visits))[pos] == Render(board)[pos]
    ensures forall i :: 0 <= i < |visits| && visits[i].state == RaceTrackState(x, y) &&
              (forall j :: i < j < |visits| ==> visits[j].state != RaceTrackState(x, y))
              ==> Flatten(Paint(Framed(board), visits))[pos] == visits[i].action.Char()
  {
    var framed := Framed(board);
    var painted := Paint(framed, visits);
    assert forall r :: 0 <= r < |painted| ==> |painted[r]| == w + 1;
    FlattenUniformLength(painted, w + 1);
    FlattenAt(painted, w + 1, y, x);
    PaintCell(framed, visits, x, y);
    RenderAt(board, w, x, y);
  }

  /** With no visits the drawing is the plain rendering. */
  lemma DrawEmpty(board: seq<seq<char>>)
    ensures Flatten(Paint(Framed(board), [])) == Render(board)
  {
  }

  /** The overlay loop: writes each visit's action character into its cell, in visit order. */
  method PaintVisits(grid: seq<seq<char>>, visits: seq<Visit<RaceTrackState, RaceTrackAction>>) returns (drawing: seq<seq<char>>)
    requires VisitsIn(grid, visits)
    ensures drawing == Paint(grid, visits)
  {
    drawing := grid;
    var k := 0;
    while k < |visits|
      invariant 0 <= k <= |visits|
      invariant VisitsIn(grid, visits[..k])
      invariant drawing == Paint(grid, visits[..k])
    {
      var v := visits[k];
      assert visits[..k + 1][..k] == visits[..k];
      drawing := drawing[v.state.y := drawing[v.state.y][v.state.x := v.action.Char()]];
      k := k + 1;
    }
    assert visits[..k] == visits;
  }

  /** The final loop of both drawing routines: appends every character of every row in order. */
  method JoinRows(rows: seq<seq<char>>) returns (text: string)
    ensures text == Flatten(rows)
  {
    text := "";
    var y := 0;
    while y < |rows|
      invariant 0 <= y <= |rows|
      invariant text == Flatten(rows[..y])
    {
      var i := 0;
      while i < |rows[y]|
        invariant 0 <= i <= |rows[y]|
        invariant text == Flatten(rows[..y]) + rows[y][..i]
      {
        text := text + [rows[y][i]];
        i := i + 1;
      }
      FlattenSnoc(rows, y);
      assert rows[y][..i] == rows[y];
      y := y + 1;
    }
    assert rows[..y] == rows;
  }
}
