/** Editing a cell: the decision logic of the input handler, with the two pieces of widget
    state (the board and the "invalid move" flag) passed in and returned as one value.
    The text typed into the cell is abstracted to what the handler distinguishes. */
module Moves {
  import opened Grid
  import opened Validator

  /** The typed text: empty, not parseable as a number, or parsed to the integer n. */
  datatype Input = Empty | NotANumber | Num(n: int)

  /** Widget state: the board and whether the last attempted move was rejected. */
  datatype State = State(board: Board, invalid: bool)

  /** One edit of cell (row, col). */
  datatype Edit = Edit(row: int, col: int, input: Input)

  /** The input names a digit the handler will try to place. */
  predicate IsDigit(input: Input) {
    input.Num? && 1 <= input.n <= Size
  }

  /** Initial widget state: the empty board and no invalid move shown. */
  function Initial(): (s: State)
    ensures s.board == EmptyBoard()
    ensures WellFormed(s.board) && ConflictFree(s.board)
    ensures !s.invalid
  {
    State(EmptyBoard(), false)
  }

  /** The input handler. Empty text clears the cell and the flag; text that is not a
      digit 1..9 is ignored; a digit that passes the move check is written and clears the
      flag; a digit that fails it leaves the board alone and raises the flag. */
  function HandleInput(s: State, row: int, col: int, input: Input): (s': State)
    requires Shaped(s.board) && InRange(row) && InRange(col)
    ensures Shaped(s'.board)
    ensures input.Empty? ==>
      s'.board[row][col] == 0 && SameElsewhere(s.board, s'.board, row, col) && !s'.invalid
    ensures !input.Empty? && !IsDigit(input) ==> s' == s
    ensures IsDigit(input) && IsValidMove(s.board, row, col, input.n) ==>
      s'.board[row][col] == input.n && SameElsewhere(s.board, s'.board, row, col) && !s'.invalid
    ensures IsDigit(input) && !IsValidMove(s.board, row, col, input.n) ==>
      s'.board == s.board && s'.invalid
  {
    match input
    case Empty => State(SetCell(s.board, row, col, 0), false)
    case NotANumber => s
    case Num(n) =>
      if n < 1 || n > Size then s
      else if IsValidMove(s.board, row, col, n) then State(SetCell(s.board, row, col, n), false)
      else State(s.board, true)
  }

  /** The flag is raised exactly by a digit that clashes with a peer of the edited cell,
      and is otherwise cleared or, for ignored input, kept. */
  lemma InvalidFlagIff(s: State, row: int, col: int, input: Input)
    requires Shaped(s.board) && InRange(row) && InRange(col)
    ensures HandleInput(s, row, col, input).invalid <==>
      (IsDigit(input) && PeerHolds(s.board, row, col, input.n)) ||
      (!input.Empty? && !IsDigit(input) && s.invalid)
  {
  }

  /** A well-formed board without clashes stays well-formed and without clashes. */
  lemma HandleInputPreservesInvariant(s: State, row: int, col: int, input: Input)
    requires WellFormed(s.board) && ConflictFree(s.board) && InRange(row) && InRange(col)
    ensures WellFormed(HandleInput(s, row, col, input).board)
    ensures ConflictFree(HandleInput(s, row, col, input).board)
  {
    if IsDigit(input) && IsValidMove(s.board, row, col, input.n) {
      var b' := SetCell(s.board, row, col, input.n);
      forall r1, c1, r2, c2 |
        0 <= r1 < Size && 0 <= c1 < Size && 0 <= r2 < Size && 0 <= c2 < Size &&
        Peer(r1, c1, r2, c2) && b'[r1][c1] != 0
        ensures b'[r1][c1] != b'[r2][c2]
      {
        PeerSymmetric(r1, c1, r2, c2);
      }
    }
  }

  /** Repeating an edit changes nothing further: an accepted digit still passes the
      check because the cell's own content is not consulted. */
  lemma HandleInputIdempotent(s: State, row: int, col: int, input: Input)
    requires Shaped(s.board) && InRange(row) && InRange(col)
    ensures HandleInput(HandleInput(s, row, col, input), row, col, input) ==
            HandleInput(s, row, col, input)
  {
    if input.Empty? {
      SetCellTwice(s.board, row, col, 0);
    } else if IsDigit(input) && IsValidMove(s.board, row, col, input.n) {
      SelfExclusion(s.board, row, col, input.n, input.n);
      SetCellTwice(s.board, row, col, input.n);
    }
  }

  predicate ValidEdits(edits: seq<Edit>) {
    forall i :: 0 <= i < |edits| ==> InRange(edits[i].row) && InRange(edits[i].col)
  }

  /** The state after applying a sequence of edits in order. */
  function Run(s: State, edits: seq<Edit>): (s': State)
    requires Shaped(s.board) && ValidEdits(edits)
    ensures Shaped(s'.board)
    decreases |edits|
  {
    if |edits| == 0 then s
    else Run(HandleInput(s, edits[0].row, edits[0].col, edits[0].input), edits[1..])
  }

  /** Every board reachable from a well-formed, clash-free one by edits is again
      well-formed and clash-free. */
  lemma {:induction false} RunPreservesInvariant(s: State, edits: seq<Edit>)
    requires WellFormed(s.board) && ConflictFree(s.board) && ValidEdits(edits)
    ensures WellFormed(Run(s, edits).board) && ConflictFree(Run(s, edits).board)
    decreases |edits|
  {
    if |edits| > 0 {
      var e := edits[0];
      HandleInputPreservesInvariant(s, e.row, e.col, e.input);
      RunPreservesInvariant(HandleInput(s, e.row, e.col, e.input), edits[1..]);
    }
  }

  /** In particular every board the widget can show is well-formed and clash-free. */
  lemma ReachableBoardsConflictFree(edits: seq<Edit>)
    requires ValidEdits(edits)
    ensures WellFormed(Run(Initial(), edits).board) && ConflictFree(Run(Initial(), edits).board)
  {
    RunPreservesInvariant(Initial(), edits);
  }
}
