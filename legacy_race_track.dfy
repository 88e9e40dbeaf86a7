/**
 * The older race-track environment. Its `State` and `Action` types are not
 * part of this model; `RaceTrackState` and `RaceTrackAction` stand in for
 * them (a position, and the four moves with their drawing characters). The
 * rules are the same as the newer revision's, in `Grid`.
 */
module LegacyRaceTrack {
  import opened DataStructures
  import opened Seqs
  import opened Grid

  class RaceTrack {
    var startingStates: seq<RaceTrackState>
    var endingStates: seq<RaceTrackState>
    /** Row-major: `board[y][x]`. */
    var board: seq<seq<char>>
    var size: (int, int)

    /** The state right after construction: exactly one copy of the track is loaded. */
    predicate Loaded()
      reads this
    {
      && board == TRACK
      && size == (22, 12)
      && startingStates == CellsWith(TRACK, STARTING_STATE)
      && endingStates == CellsWith(TRACK, ENDING_STATE)
    }

    /** Building the environment loads the track once. */
    constructor ()
      ensures Loaded()
      ensures startingStates == [RaceTrackState(2, 10)] && endingStates == [RaceTrackState(19, 1)]
    {
      startingStates := [];
      endingStates := [];
      board := [];
      size := (0, 0);
      new;
      Load();
      TrackCells();
    }

    /**
     * `load`: appends one board row per track line, records the '1' and '2'
     * cells in row-major order, and sets `size` to (first line length, line
     * count). The source then prints the board, which is not modelled.
     */
    method Load()
      modifies this
      ensures board == old(board) + TRACK
      ensures size == (|TRACK[0]|, |TRACK|)
      ensures startingStates == old(startingStates) + CellsWith(TRACK, STARTING_STATE)
      ensures endingStates == old(endingStates) + CellsWith(TRACK, ENDING_STATE)
    {
      LoadLines(TRACK);
    }

    /** The body of `load`, for the lines of any track. */
    method LoadLines(lines: seq<string>)
      modifies this
      ensures board == old(board) + lines
      ensures size == if |lines| == 0 then (old(size).0, 0) else (|lines[0]|, |lines|)
      ensures startingStates == old(startingStates) + CellsWith(lines, STARTING_STATE)
      ensures endingStates == old(endingStates) + CellsWith(lines, ENDING_STATE)
    {
      var rows, extent, starts, ends := ReadLines(lines, board, size, startingStates, endingStates);
      board, size, startingStates, endingStates := rows, extent, starts, ends;
    }

    /** `boardPositionAt`: the character at column x of row y; on the loaded track a '2' marks an ending state. */
    function BoardPositionAt(x: int, y: int): (c: char)
      reads this
      requires 0 <= y < |board| && 0 <= x < |board[y]|
      ensures c == board[y][x]
      ensures Loaded() ==> (c == ENDING_STATE <==> RaceTrackState(x, y) in endingStates)
      ensures Loaded() ==> (c == STARTING_STATE <==> RaceTrackState(x, y) in startingStates)
    {
      CellsWithSpec(board, ENDING_STATE);
      CellsWithSpec(board, STARTING_STATE);
      board[y][x]
    }

    /** `isTerminatingState`: the cell is an ending cell; on the loaded track only (19, 1) is. */
    function IsTerminatingState(s: RaceTrackState): (r: bool)
      reads this
      requires InBoard(board, s)
      ensures r <==> board[s.y][s.x] == ENDING_STATE
      ensures Loaded() ==> (r <==> s in endingStates)
      ensures Loaded() ==> (r <==> s == RaceTrackState(19, 1))
    {
      TrackCells();
      BoardPositionAt(s.x, s.y) == ENDING_STATE
    }

    /**
     * `sampleNextStateFromStateAction`: the move of `Grid.Transition`; on the
     * loaded track every move from a cell is defined and lands on a cell.
     */
    function SampleNextStateFromStateAction(s: RaceTrackState, a: RaceTrackAction): (r: NextStateSample<RaceTrackState>)
      reads this
      requires InBoard(board, Destination(size, s, a))
      ensures r == Transition(board, size, s, a)
      ensures Loaded() && InBoard(board, s) ==> InBoard(board, r.state)
    {
      if Loaded() && InBoard(board, s) then
        TrackRectangular();
        TransitionStaysInBoard(board, size, s, a);
        Transition(board, size, s, a)
      else
        Transition(board, size, s, a)
    }

    /** `toString`: every board row followed by a newline. */
    method ToString() returns (text: string)
      ensures text == Render(board)
    {
      text := "";
      var y := 0;
      while y < |board|
        invariant 0 <= y <= |board|
        invariant text == Flatten(Framed(board)[..y])
      {
        var x := 0;
        while x < |board[y]|
          invariant 0 <= x <= |board[y]|
          invariant text == Flatten(Framed(board)[..y]) + board[y][..x]
        {
          text := text + [board[y][x]];
          x := x + 1;
        }
        text := text + "\n";
        FlattenSnoc(Framed(board), y);
        assert board[y][..x] == board[y];
        y := y + 1;
      }
      assert Framed(board)[..y] == Framed(board);
    }

    /** `getRandomStartingState`: the starting state the random choice `choice` picks. */
    function GetRandomStartingState(choice: nat): (s: RaceTrackState)
      reads this
      requires |startingStates| > 0
      ensures s in startingStates
      ensures Loaded() ==> s == RaceTrackState(2, 10)
    {
      TrackCells();
      startingStates[choice % |startingStates|]
    }

    /**
     * `drawTrajectoryString`: builds each row, plus a newline, in its own
     * buffer, overwrites each visited cell with the visit's action character,
     * and appends the buffers. A visit may sit on a row's newline cell, which
     * the source allows as well.
     */
    method DrawTrajectoryString(trajectory: seq<Visit<RaceTrackState, RaceTrackAction>>) returns (ret: string)
      requires VisitsIn(Framed(board), trajectory)
      ensures ret == Flatten(Paint(Framed(board), trajectory))
    {
      var drawing: seq<seq<char>> := [];
      var y := 0;
      while y < |board|
        invariant 0 <= y <= |board|
        invariant drawing == Framed(board)[..y]
      {
        var line := board[y];
        var builder: seq<char> := [];
        var x := 0;
        while x < |line|
          invariant 0 <= x <= |line|
          invariant builder == line[..x]
        {
          builder := builder + [line[x]];
          x := x + 1;
        }
        builder := builder + "\n";
        assert line[..x] == line;
        drawing := drawing + [builder];
        y := y + 1;
      }
      assert drawing == Framed(board);
      drawing := PaintVisits(drawing, trajectory);
      ret := JoinRows(drawing);
    }
  }
}
