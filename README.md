# Sudoku game: solution checker and board state

A model of the game logic of a browser Sudoku game (`sudoku-script.js`). The
game keeps a small fixed library of puzzles in three tiers (easy, medium,
hard). It deals one into two 9x9 boards: the puzzle as dealt (`originalBoard`)
and the board the player edits (`currentBoard`). It writes typed digits into
the editable cells and can reset the board. When asked, it checks the board.
The check first scans all 81 cells for an empty one (0). Then it tests the 9
rows, the 9 columns and the 9 3x3 boxes, in that order and each in ascending
index. It stops at the first region that fails, reports that region's kind, and
highlights its cells. A timer shows the elapsed time as `MM:SS`.

Modules, one per part of the script:

- `Board` (board.dfy): the grid, the 27 regions as the checker reads them, and
  the highlight test that picks a failing region's cells.
- `Checker` (checker.dfy): the check. `Judge` is the reference function.
  `Validate`, `CheckRegions` and `CollectBox` are the script's nested loops with
  early returns, each proved equal to the reference. Lemmas state the
  first-failure order.
- `Library` (library.dfy): the puzzle literals, each proved to be a 9x9 grid of
  values 0..9.
- `Session` (game.dfy): class `Game`, with the global state (`difficulty`,
  `originalBoard`, `currentBoard`) as fields. Its methods deal, change tier,
  take a cell input, reset, and check. `Valid()` is the invariant they keep:
  both boards are well formed, and no pre-filled cell is ever overwritten.
- `Timer` (timer.dfy): elapsed milliseconds to whole seconds, minutes and
  seconds, and the zero-padded text, with a proof that the text reads back.
- `RegionRule` (rule.dfy): a concrete region test, which is an ASSUMPTION (see
  below).
- `Scenarios` (scenarios.dfy): the checker's verdict on concrete grids, proved.

**The region test is not in the script.** `checkSolution` calls `isValidSet` at
sudoku-script.js lines 185, 195 and 211, but the script never defines it. So
every member of `Checker` and `Session` takes the test as a parameter
`isValidSet: seq<int> -> bool`. What they prove holds for any side-effect-free
test (one that does not change the array it is given): the order of the phases, first-failure reporting, that the grid is never written,
and that `Valid` comes back exactly when all 27 regions pass. `RegionRule`
supplies one reading, taken from the comment at line 169 ("a valid Sudoku
solution"): every digit 1..9 occurs among the 9 values. That reading is an
assumption, not something the script states. `HasAllDigitsIffPermutation`
proves that it accepts exactly the orderings of 1..9. `Scenarios.SolvedIsValid`
and `Scenarios.BrokenReportsRow0` use it.

Two facts about the code are worth stating plainly. `isValidSet` is never
defined in the script, so the model keeps the test abstract rather than
assuming it is a permutation check. And the highlighting does not mix up rows
and columns: the column phase highlights with the column index (line 197), and
`HighlightedIsRegion` proves that each kind's index selects exactly that
region.

## Model

| member | source | states |
|---|---|---|
| `Board.Cell` | sudoku-script.js:184-210 | The i-th cell of row, column or box `index` lies on the board; a box is numbered boxRow*3+boxCol |
| `Board.Region` | sudoku-script.js:184-210 | The region's 9 values, the i-th one at that region's i-th cell (row r itself; column c, one value per row; box cells in row-major order) |
| `Board.CellsDistinct` | sudoku-script.js:203-210 | A region's 9 cells are 9 different positions |
| `Board.Highlighted` | sudoku-script.js:240-246 | For boxes, a cell is highlighted exactly when its band of rows is index/3 and its band of columns is index%3; `HighlightedIsRegion` shows each kind selects exactly its region |
| `Board.BoxRowMajor` | sudoku-script.js:206-209 | A box reads its cells row by row, left to right |
| `Board.BoxBounds` | sudoku-script.js:203-207 | Box b holds exactly the cells with rows in [b/3*3, b/3*3+3) and columns in [b%3*3, b%3*3+3) |
| `Board.BoxHighlightIsRegion` | sudoku-script.js:242-246 | For boxes, (row/3)*3 + col/3 == index holds exactly for the 9 cells the checker collected for box `index` |
| `Board.HighlightedIsRegion` | sudoku-script.js:240-246 | For every kind and index 0..8, a cell is highlighted if and only if it is one of that region's 9 cells |
| `Checker.Rank` | sudoku-script.js:184-217 | Each region has one position in visiting order: rows 0..8, then columns 9..17, then boxes 18..26 |
| `Checker.FirstFailure` | sudoku-script.js:183-221 | Valid exactly when every remaining region passes; otherwise it names a failing region, and every region before it passed |
| `Checker.Judge` | sudoku-script.js:170-223 | Incomplete exactly when some cell is 0. Valid exactly when the board is complete and all 27 regions pass. Otherwise it names a failing region, and every region visited before it passed |
| `Checker.FirstFailureIsAt` | sudoku-script.js:183-217 | If the regions before j pass and region j fails, region j is the one reported |
| `Checker.ReportOrder` | sudoku-script.js:184-217 | A reported row is the lowest failing row. A column is reported only when all rows pass, and is the lowest failing column. A box is reported only when all rows and columns pass, and no lower box failed |
| `Checker.LowestFailingRowReported` | sudoku-script.js:184-190 | On a complete board the lowest failing row is reported, whatever the columns and boxes hold (row 0 wins over column 0) |
| `Checker.LowestFailingColumnReported` | sudoku-script.js:193-200 | On a complete board whose rows all pass, the lowest failing column is reported, whatever the boxes hold |
| `Checker.CollectBox` | sudoku-script.js:205-210 | The nested push loops collect exactly box boxRow*3+boxCol |
| `Checker.CheckRegions` | sudoku-script.js:183-221 | The row, column and box loops, with their early returns, give the first-failure verdict |
| `Checker.Validate` | sudoku-script.js:170-223 | The whole check: the 81-cell scan, then the region loops, equals `Judge`; it reads the grid only |
| `Library.Puzzles` | sudoku-script.js:4-55 | Every tier holds at least one puzzle |
| `Library.PuzzleWellFormed` | sudoku-script.js:4-55 | Every puzzle is 9 rows of 9 values, each 0..9 |
| `Session.Stored` | sudoku-script.js:136-144 | The stored value is 0..9. It is the typed number when that is 0..9, and nonzero only then |
| `Session.Game.constructor` | sudoku-script.js:57-78 | On load the tier is easy, and both boards are copies of the chosen easy puzzle |
| `Session.Game.GenerateBoard` | sudoku-script.js:74-79 | Both boards become copies of the chosen puzzle of the current tier; the tier is unchanged; the invariant holds |
| `Session.Game.ChangeDifficulty` | sudoku-script.js:275-278 | The tier becomes the selected one, and both boards become copies of the chosen puzzle of that tier |
| `Session.Game.HandleCellInput` | sudoku-script.js:132-144 | The one cell (row, col) gets the typed number if it is 0..9, otherwise 0. No other cell, nor the dealt puzzle, nor the tier changes |
| `Session.Game.ResetBoard` | sudoku-script.js:268-269 | The edited board equals the dealt puzzle cell for cell; the puzzle and tier are unchanged |
| `Session.Game.CheckSolution` | sudoku-script.js:170-223 | The verdict on the edited board is `Judge` of it; with no modifies clause the check cannot change the game state |
| `Timer.ElapsedSeconds` | sudoku-script.js:89 | Whole seconds elapsed, rounded down: e*1000 <= now-start < (e+1)*1000 |
| `Timer.Split` | sudoku-script.js:90-91 | minutes*60 + seconds == elapsed, with 0 <= seconds < 60 |
| `Timer.Decimal` | sudoku-script.js:93 | The decimal numeral of a number: at least one digit, with no leading zero |
| `Timer.PadStart` | sudoku-script.js:93 | Padding to width w gives max(w, length) characters: fill characters, then the string unchanged |
| `Timer.TimerText` | sudoku-script.js:92-93 | The `MM:SS` text: padded minutes, a colon, padded seconds; `TimerTextFields` shows the fields are e/60 and e%60 |
| `Timer.DecimalRoundTrip` | sudoku-script.js:93 | Reading a numeral back gives the number it was written from |
| `Timer.PaddedValue` | sudoku-script.js:93 | A zero-padded numeral has at least two digits and still reads back as the same number |
| `Timer.TimerTextFields` | sudoku-script.js:90-93 | The display is at least two minute digits, a colon, and exactly two second digits; the digits before the colon read as the whole minutes e/60, the two after it as the leftover seconds e%60 |
| `Timer.TimerTextRoundTrip` | sudoku-script.js:88-93 | The display read back as minutes*60 + seconds is the elapsed seconds |
| `Timer.TimerTextWidth` | sudoku-script.js:92-93 | Below 100 minutes the display is exactly 5 characters |
| `RegionRule.HasAllDigitsIffPermutation` | sudoku-script.js:169 | (Assumed test.) Nine values contain every digit 1..9 if and only if they are all digits 1..9 with no repeat |
| `Scenarios.EmptyIsIncomplete` | sudoku-script.js:174-181 | A board of zeros is reported incomplete, whatever the region test |
| `Scenarios.SolvedCompletesEasyPuzzle` | sudoku-script.js:6-16 | The classic completed grid keeps every pre-filled cell of the first easy puzzle |
| `Scenarios.SolvedIsValid` | sudoku-script.js:183-221 | Under the assumed test, the classic completed grid is reported valid |
| `Scenarios.BrokenReportsRow0` | sudoku-script.js:184-190 | That grid with its top-left 5 replaced by a second 3 fails row 0, column 0 and box 0; row 0 is reported |

## Left out

- The region test `isValidSet` is not in the script. The checker is proved for any test; `RegionRule` is an assumed reading of it.
- The model assumes `isValidSet` does not change its argument. The script passes it the live row array `currentBoard[row]` (line 185); a test that rewrote that array (sorting it in place, say) would change `currentBoard`, and the column and box phases would read the changed rows. Neither that effect nor the claim that the check never writes the board holds for such a test.
- DOM and browser work is left out, because it only displays state: `renderBoard`, `showMessage`, the `classList` side of `animateInvalidCells` (only its membership test is modelled, as `Board.Highlighted`), `animateSuccess`, `handleCellFocus`/`handleCellBlur`, the `contentEditable` cell text, and the event-listener wiring (lines 101-129, 157-167, 225-265, 280-287). A verdict is returned in place of the message and highlight calls.
- Timing is left out, because it depends on the clock and the event loop: `startTimer`, `stopTimer`, `setInterval`/`setTimeout`, `clearInterval` in `initGame`, and the `stopTimer` call on success. `Date.now` becomes the `startMs` and `nowMs` parameters of `Timer.ElapsedSeconds`.
- Timer.ElapsedSeconds: only a clock that has not gone backwards (now >= start) is modelled. For a negative difference the script's `Math.floor` and `%` would give a negative minute and second pair.
- `Math.random` in `generateBoard` becomes the `choice` parameter, with `choice < |tier|`.
- `parseInt` of the cell text and the keydown filter (`handleKeyDown`) are string glue. The parsed result is the input, as `Session.Parsed`; `NotANumber` is the case `|| 0` maps to 0. The cell's dataset row and column are taken to be 0..8, as `renderBoard` sets them.
- Session.Game.HandleCellInput: requires the cell to be empty in the dealt puzzle. `renderBoard` (lines 112-118) attaches the input handler only to those cells.
- Session.Game.constructor: merges the initial empty boards (`[]`, lines 58-59) with the `initGame` run on page load. The script never checks a board before that first deal.
- The deep copies (`.map(row => [...row])`) are modelled as value semantics: boards are immutable sequences that the methods reassign. Aliasing between `currentBoard`, `originalBoard` and the library therefore cannot arise in the model. "Later edits do not reach the puzzle or the library" is stated as `original == old(original)` and as `Puzzles` being a function.
- Cell values are unbounded integers; JavaScript numbers beyond 2^53 and non-integer values are not modelled.
