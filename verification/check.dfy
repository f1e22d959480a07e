/** The "Check Solution" button: the board is accepted exactly when every cell is filled
    and every cell's own value passes the move check against the rest of the board. */
module SolutionCheck {
  import opened Grid
  import opened Validator

  /** One cell passes the audit: it is filled and its value clashes with no peer. */
  predicate CellOk(b: Board, r: int, c: int)
    requires Shaped(b) && InRange(r) && InRange(c)
  {
    b[r][c] != 0 && IsValidMove(b, r, c, b[r][c])
  }

  /** The two clauses of the audit, over all 81 cells. */
  predicate Complete(b: Board)
    requires Shaped(b)
  {
    forall r, c :: 0 <= r < Size && 0 <= c < Size ==> CellOk(b, r, c)
  }

  /** The row-major audit loop, returning at the first empty or clashing cell. */
  method CheckSolution(b: Board) returns (ok: bool)
    requires Shaped(b)
    ensures ok <==> Complete(b)
  {
    var row := 0;
    while row < Size
      invariant 0 <= row <= Size
      invariant forall r, c :: 0 <= r < row && 0 <= c < Size ==> CellOk(b, r, c)
    {
      var col := 0;
      while col < Size
        invariant 0 <= col <= Size
        invariant forall r, c :: 0 <= r < row && 0 <= c < Size ==> CellOk(b, r, c)
        invariant forall c :: 0 <= c < col ==> CellOk(b, row, c)
      {
        var value := b[row][col];
        if value == 0 || !IsValidMove(b, row, col, value) {
          assert !CellOk(b, row, col);
          return false;
        }
        col := col + 1;
      }
      row := row + 1;
    }
    return true;
  }

  /** The audit accepts exactly the filled boards on which no two peers share a digit. */
  lemma CompleteIffSolved(b: Board)
    requires Shaped(b)
    ensures Complete(b) <==> Filled(b) && ConflictFree(b)
  {
    if Complete(b) {
      forall r1, c1, r2, c2 |
        0 <= r1 < Size && 0 <= c1 < Size && 0 <= r2 < Size && 0 <= c2 < Size &&
        Peer(r1, c1, r2, c2) && b[r1][c1] != 0
        ensures b[r1][c1] != b[r2][c2]
      {
        assert CellOk(b, r1, c1);
      }
      forall r, c | 0 <= r < Size && 0 <= c < Size
        ensures b[r][c] != 0
      {
        assert CellOk(b, r, c);
      }
    }
    if Filled(b) && ConflictFree(b) {
      forall r, c | 0 <= r < Size && 0 <= c < Size
        ensures CellOk(b, r, c)
      {
        assert !PeerHolds(b, r, c, b[r][c]);
      }
    }
  }

  /** A single empty cell makes the audit fail. */
  lemma EmptyCellFails(b: Board, r: int, c: int)
    requires Shaped(b) && InRange(r) && InRange(c)
    requires b[r][c] == 0
    ensures !Complete(b)
  {
    assert !CellOk(b, r, c);
  }

  /** A single pair of peers holding the same value makes the audit fail. */
  lemma DuplicateFails(b: Board, r1: int, c1: int, r2: int, c2: int)
    requires Shaped(b) && InRange(r1) && InRange(c1) && InRange(r2) && InRange(c2)
    requires Peer(r1, c1, r2, c2) && b[r1][c1] == b[r2][c2]
    ensures !Complete(b)
  {
    assert PeerHolds(b, r1, c1, b[r1][c1]);
    assert !CellOk(b, r1, c1);
  }
}
