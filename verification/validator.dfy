/** The move check of the widget: would `v` at (row, col) clash with another cell of the
    same row, column or 3x3 box?  The three scans follow the three loops of `isValidMove`
    (row, then column, then box, each stopping at the first clash); the cell under
    test is skipped by index in every scan. */
module Validator {
  import opened Grid

  /** Some peer of (row, col) holds v: the declarative meaning of a clash. */
  predicate PeerHolds(b: Board, row: int, col: int, v: int)
    requires Shaped(b) && InRange(row) && InRange(col)
  {
    exists r, c :: 0 <= r < Size && 0 <= c < Size && Peer(row, col, r, c) && b[r][c] == v
  }

  /** Scan of row `row` from column `c` onwards, skipping column `col`. */
  function RowScan(b: Board, row: int, col: int, v: int, c: int): (ok: bool)
    requires Shaped(b) && InRange(row) && 0 <= c <= Size
    ensures ok <==> forall k :: c <= k < Size && k != col ==> b[row][k] != v
    decreases Size - c
  {
    if c == Size then true
    else if c != col && b[row][c] == v then false
    else RowScan(b, row, col, v, c + 1)
  }

  /** Scan of column `col` from row `r` onwards, skipping row `row`. */
  function ColScan(b: Board, row: int, col: int, v: int, r: int): (ok: bool)
    requires Shaped(b) && InRange(col) && 0 <= r <= Size
    ensures ok <==> forall k :: r <= k < Size && k != row ==> b[k][col] != v
    decreases Size - r
  {
    if r == Size then true
    else if r != row && b[r][col] == v then false
    else ColScan(b, row, col, v, r + 1)
  }

  /** Inner box loop: row `r` of the box, from column `c` to the box's right edge. */
  function BoxRowScan(b: Board, row: int, col: int, v: int, r: int, c: int): (ok: bool)
    requires Shaped(b) && InRange(row) && InRange(col)
    requires BoxStart(row) <= r < BoxStart(row) + 3
    requires BoxStart(col) <= c <= BoxStart(col) + 3
    ensures ok <==> forall k :: c <= k < BoxStart(col) + 3 && (r != row || k != col) ==> b[r][k] != v
    decreases BoxStart(col) + 3 - c
  {
    if c == BoxStart(col) + 3 then true
    else if (r != row || c != col) && b[r][c] == v then false
    else BoxRowScan(b, row, col, v, r, c + 1)
  }

  /** Outer box loop: rows `r` to the box's bottom edge. */
  function BoxScan(b: Board, row: int, col: int, v: int, r: int): (ok: bool)
    requires Shaped(b) && InRange(row) && InRange(col)
    requires BoxStart(row) <= r <= BoxStart(row) + 3
    ensures ok <==> forall i, k ::
      r <= i < BoxStart(row) + 3 && BoxStart(col) <= k < BoxStart(col) + 3 && (i != row || k != col)
      ==> b[i][k] != v
    decreases BoxStart(row) + 3 - r
  {
    if r == BoxStart(row) + 3 then true
    else BoxRowScan(b, row, col, v, r, BoxStart(col)) && BoxScan(b, row, col, v, r + 1)
  }

  /** The move check: true exactly when no other cell in the row, column or box of
      (row, col) holds v. */
  function IsValidMove(b: Board, row: int, col: int, v: int): (ok: bool)
    requires Shaped(b) && InRange(row) && InRange(col)
    ensures ok <==> !PeerHolds(b, row, col, v)
  {
    var rowOk := RowScan(b, row, col, v, 0);
    var colOk := ColScan(b, row, col, v, 0);
    var boxOk := BoxScan(b, row, col, v, BoxStart(row));
    assert rowOk && colOk && boxOk <==> !PeerHolds(b, row, col, v) by {
      forall r, c | 0 <= r < Size && 0 <= c < Size
        ensures SameBox(row, col, r, c) <==>
                BoxStart(row) <= r < BoxStart(row) + 3 && BoxStart(col) <= c < BoxStart(col) + 3
      {
        SameBoxStart(row, r);
        SameBoxStart(col, c);
      }
    }
    rowOk && colOk && boxOk
  }

  /** The verdict for (row, col) does not depend on what (row, col) itself holds. */
  lemma SelfExclusion(b: Board, row: int, col: int, v: int, x: int)
    requires Shaped(b) && InRange(row) && InRange(col)
    ensures IsValidMove(SetCell(b, row, col, x), row, col, v) == IsValidMove(b, row, col, v)
  {
  }

  /** Every cell the box scan visits lies inside the grid and in the box of (row, col). */
  lemma BoxScanInBounds(row: int, col: int, i: int, k: int)
    requires InRange(row) && InRange(col)
    requires BoxStart(row) <= i < BoxStart(row) + 3 && BoxStart(col) <= k < BoxStart(col) + 3
    ensures InRange(i) && InRange(k)
    ensures SameBox(row, col, i, k)
  {
  }
}
