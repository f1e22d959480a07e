# Sudoku rule logic

A Dafny model of the rule logic of a browser Sudoku widget (`src/Components/Sudoku.tsx`).
The widget holds a 9x9 board of integers. 0 is an empty cell and 1..9 are placed digits.
The model covers three parts:

- **the move check** (`isValidMove`): would a value at (row, col) clash with another cell in
  the same row, column or 3x3 box? The tested cell is skipped by index.
- **the solution check** (`handleCheckSolution`): the board is accepted when every cell is
  filled and every cell's own value passes the move check.
- **the input handler** (`handleInputChange`): a transition over the pair (board, invalid flag).

The React state setters become returned values. The typed text becomes an `Input` datatype.

Files:

- `grid.dfy` (module `Grid`): board shape, boxes, the peer relation, single-cell update and
  the "no two peers share a digit" invariant.
- `validator.dfy` (module `Validator`): the three scans, written as recursive functions that
  follow the source's loops and stop at the first clash. Also `IsValidMove` and its
  declarative meaning.
- `check.dfy` (module `SolutionCheck`): the row-major audit loop as a method.
- `moves.dfy` (module `Moves`): the input handler as a pure function, with the invariant it
  preserves, its idempotence and runs of edits from the initial state.

`isValidMove` does not check the range of `value`. The input handler passes a parsed digit
1..9 (`src/Components/Sudoku.tsx:48, 53`). The solution check passes the cell's stored value
(`src/Components/Sudoku.tsx:65-66`). So `IsValidMove` has no requirement on `v`.

## Model

| member | source | states |
|---|---|---|
| Grid.BoxStart | src/Components/Sudoku.tsx:26-27 | the box corner of an in-range index is 0, 3 or 6, and the index lies within the three rows (columns) starting there |
| Grid.SetCell | src/Components/Sudoku.tsx:40-41 | the updated board keeps its shape, holds the new value at (row, col) and agrees with the old board on every other cell |
| Grid.EmptyBoard | src/Components/Sudoku.tsx:5-7 | the initial board is well-formed and every cell is empty |
| Validator.RowScan | src/Components/Sudoku.tsx:14-18 | the row scan succeeds iff no column other than `col`, from the current one on, holds `v` in row `row` |
| Validator.ColScan | src/Components/Sudoku.tsx:20-24 | the column scan succeeds iff no row other than `row`, from the current one on, holds `v` in column `col` |
| Validator.BoxRowScan | src/Components/Sudoku.tsx:29-33 | the inner box loop succeeds iff no remaining cell of that box row, other than (row, col), holds `v` |
| Validator.BoxScan | src/Components/Sudoku.tsx:28-34 | the box scan succeeds iff no remaining cell of the box, other than (row, col), holds `v` |
| Validator.IsValidMove | src/Components/Sudoku.tsx:12-36 | the move is valid iff no other cell in the same row, column or 3x3 box holds `v` |
| Validator.SelfExclusion | src/Components/Sudoku.tsx:14-33 | the verdict for (row, col) is the same whatever (row, col) itself holds |
| Validator.BoxScanInBounds | src/Components/Sudoku.tsx:26-29 | every cell the box scan visits is inside the grid and in the box of (row, col) |
| SolutionCheck.CheckSolution | src/Components/Sudoku.tsx:62-73 | the audit loop returns true iff every cell is non-zero and passes the move check with its own value |
| SolutionCheck.CompleteIffSolved | src/Components/Sudoku.tsx:62-72 | the audit accepts exactly the filled boards where no two peer cells hold the same digit |
| SolutionCheck.EmptyCellFails | src/Components/Sudoku.tsx:65-66 | a single empty cell makes the audit fail |
| SolutionCheck.DuplicateFails | src/Components/Sudoku.tsx:66-68 | a single pair of peers with equal values makes the audit fail |
| Moves.Initial | src/Components/Sudoku.tsx:5-9 | the initial board is the all-zero board, well-formed and clash-free, with the invalid flag down |
| Moves.HandleInput | src/Components/Sudoku.tsx:38-60 | empty text zeroes exactly (row, col) and clears the flag; text that is not a digit 1..9 changes nothing; a valid digit is written only at (row, col) and clears the flag; an invalid digit leaves the board and raises the flag |
| Moves.InvalidFlagIff | src/Components/Sudoku.tsx:43-58 | afterwards the flag is up iff the input was a digit held by a peer of (row, col), or the input was ignored and the flag was already up |
| Moves.HandleInputPreservesInvariant | src/Components/Sudoku.tsx:38-60 | a well-formed board with no two peers sharing a digit keeps both properties after any input |
| Moves.HandleInputIdempotent | src/Components/Sudoku.tsx:38-60 | repeating the same input on the same cell gives the same state as applying it once |
| Moves.RunPreservesInvariant | src/Components/Sudoku.tsx:38-60 | any sequence of edits keeps a well-formed, clash-free board well-formed and clash-free |
| Moves.ReachableBoardsConflictFree | src/Components/Sudoku.tsx:5-60 | every board reachable from the initial state by edits is well-formed and clash-free |

## Left out

- Rendering and event wiring (`src/Components/Sudoku.tsx:75-108`): the table, the inputs, CSS class toggling and the result messages are presentation only.
- The `isSolutionValid` state (`src/Components/Sudoku.tsx:10`): its `null` "not yet checked" value exists only for display. `CheckSolution` returns the boolean the handler would store.
- `parseInt` string semantics (`src/Components/Sudoku.tsx:47`): this is a JavaScript library call, so the typed text is abstracted to `Empty`, `NotANumber` or `Num(n)` for the integer `parseInt` yields. A consequence is that the model does not say which strings map to which number (for example `"5x"` parses to 5).
- Aliasing from the shallow copy `[...board]` (`src/Components/Sudoku.tsx:40, 52`): the row arrays are shared, so the old board is mutated in place. This is a JavaScript reference detail with the same observable board, and the model updates functionally.
- Out-of-range `row`/`col`: the table always passes indices 0..8, so the model requires that as a precondition rather than modelling JavaScript's `undefined` indexing.
- The backtracking solver, the hint generator, the preset puzzles and the image/OCR import: none of them is in `src/Components/Sudoku.tsx`, so there is no code to model them against.
