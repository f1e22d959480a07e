/** The 9x9 Sudoku grid of the widget: rows of cells holding 0 (empty) or a digit 1..9,
    the 3x3 boxes, the "peer" relation between cells that share a row, column or box,
    and the single-cell update used by every edit. */
module Grid {

  type Board = seq<seq<int>>

  /** Side length of the grid and of the digit range. */
  const Size: int := 9

  predicate InRange(i: int) {
    0 <= i < Size
  }

  /** 9 rows of 9 cells each; this is all the scanning code needs. */
  predicate Shaped(b: Board) {
    |b| == Size && forall r :: 0 <= r < |b| ==> |b[r]| == Size
  }

  /** Shaped, and every cell holds 0 (empty) or a digit 1..9. */
  predicate WellFormed(b: Board) {
    Shaped(b) && forall r, c :: 0 <= r < Size && 0 <= c < Size ==> 0 <= b[r][c] <= Size
  }

  /** First row (or column) of the 3x3 box containing index i: floor(i / 3) * 3.
      For an index in range the box lies entirely inside the grid. */
  function BoxStart(i: int): (s: int)
    requires InRange(i)
    ensures s == 0 || s == 3 || s == 6
    ensures s <= i < s + 3
  {
    i / 3 * 3
  }

  /** Two indices fall in the same band of boxes exactly when the second lies within
      the three indices starting at the first one's box start. */
  lemma SameBoxStart(i: int, j: int)
    requires InRange(i) && InRange(j)
    ensures BoxStart(i) == BoxStart(j) <==> BoxStart(i) <= j < BoxStart(i) + 3
  {
  }

  predicate SameBox(r1: int, c1: int, r2: int, c2: int)
    requires InRange(r1) && InRange(c1) && InRange(r2) && InRange(c2)
  {
    BoxStart(r1) == BoxStart(r2) && BoxStart(c1) == BoxStart(c2)
  }

  /** Distinct cells that share a row, a column or a box constrain each other. */
  predicate Peer(r1: int, c1: int, r2: int, c2: int)
    requires InRange(r1) && InRange(c1) && InRange(r2) && InRange(c2)
  {
    (r1 != r2 || c1 != c2) && (r1 == r2 || c1 == c2 || SameBox(r1, c1, r2, c2))
  }

  lemma PeerSymmetric(r1: int, c1: int, r2: int, c2: int)
    requires InRange(r1) && InRange(c1) && InRange(r2) && InRange(c2)
    ensures Peer(r1, c1, r2, c2) <==> Peer(r2, c2, r1, c1)
  {
  }

  /** No two peer cells hold the same non-zero digit. */
  predicate ConflictFree(b: Board)
    requires Shaped(b)
  {
    forall r1, c1, r2, c2 ::
      (0 <= r1 < Size && 0 <= c1 < Size && 0 <= r2 < Size && 0 <= c2 < Size &&
       Peer(r1, c1, r2, c2) && b[r1][c1] != 0) ==> b[r1][c1] != b[r2][c2]
  }

  /** Every cell holds a non-zero value. */
  predicate Filled(b: Board)
    requires Shaped(b)
  {
    forall r, c :: 0 <= r < Size && 0 <= c < Size ==> b[r][c] != 0
  }

  /** b and b' agree on every cell except possibly (row, col). */
  predicate SameElsewhere(b: Board, b': Board, row: int, col: int)
    requires Shaped(b) && Shaped(b')
  {
    forall r, c :: 0 <= r < Size && 0 <= c < Size && (r != row || c != col) ==> b'[r][c] == b[r][c]
  }

  /** The board with cell (row, col) replaced by v. */
  function SetCell(b: Board, row: int, col: int, v: int): (b': Board)
    requires Shaped(b) && InRange(row) && InRange(col)
    ensures Shaped(b')
    ensures b'[row][col] == v
    ensures SameElsewhere(b, b', row, col)
  {
    b[row := b[row][col := v]]
  }

  /** Writing the same value into the same cell twice is the same as writing it once. */
  lemma SetCellTwice(b: Board, row: int, col: int, v: int)
    requires Shaped(b) && InRange(row) && InRange(col)
    ensures SetCell(SetCell(b, row, col, v), row, col, v) == SetCell(b, row, col, v)
  {
    var once := SetCell(b, row, col, v);
    assert once[row][col := v] == once[row];
  }

  /** The empty grid the widget starts from. */
  function EmptyBoard(): (b: Board)
    ensures WellFormed(b)
    ensures forall r, c :: 0 <= r < Size && 0 <= c < Size ==> b[r][c] == 0
  {
    seq(Size, _ => seq(Size, _ => 0))
  }
}
