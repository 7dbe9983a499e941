# Falling letters: a Dafny model of the game board

The game is a falling-letter puzzle played on a grid `width` columns wide and
`height` rows high, with row 0 at the top. A cursor sits over one column. The
player moves it left or right, or drops the current letter (A, B or C) into
that column. The letter comes to rest on the lowest blank cell of the column.
From there the game scans three ways:

- leftwards along the letter's row, over cells holding the same letter;
- rightwards along the letter's row, likewise;
- downwards from the letter, likewise.

The left and right scans together give the horizontal run through the letter;
the downward scan gives the vertical run below it.

Each run that holds at least `destroy_count` cells is cleared. The score grows
by ten for every cleared cell. Then, for each cleared cell, the part of its
column above it shifts down one row.

This project models that core: the board, the landing search, the scans, the
clearing, the column shift, the score and the cursor. It proves that:

- the scans compute the maximal runs;
- the clearing blanks exactly the qualifying runs and leaves every other cell alone;
- the column shifts give the same board in whatever order the cleared set is walked;
- every game operation (a new game, a cursor move, a drop) keeps the board complete (one entry per cell) and settled (no blank below a letter); the clearing and the column shift on their own keep it complete.

Modules:

- `Grid`: cells, symbols, the board as a map from `(column, row)` to a symbol, the fresh board, and the invariants `Total` and `Settled`.
- `Matches`: the three scans, the run lists the source builds, reference definitions `RowRun`/`ColumnRun` of the runs, and `DestroyMatches`.
- `Gravity`: the column shift `DropSupported`, the loop over the cleared set, the order-free reference `Collapse`, and the proof that every order gives `Collapse`.
- `Game`: the game state, a new game, cursor moves, the landing row, and `DropLetter`.
- `DropProofs`: the board a drop should leave (`Expected`, built from `Settle`), the proof that `DropLetter` leaves it, and the proof that a drop keeps the game valid.
- `Play`: the key commands and runs of commands.
- `Scenarios`: a worked game on a 5×1 board with threshold 3.

Some details of the code that shape the model:

- both the horizontal and the vertical run are cleared when their length is `>=` the threshold (main.py:101, main.py:105);
- the vertical scan only looks downward from the landing cell, never upward (main.py:96-98);
- after the column shifts nothing is re-checked, so there is no cascade and no score multiplier (main.py:145-149);
- `turn` is set to 0 when the game starts and never changed (main.py:53);
- the cleared cells are walked in the set's own iteration order (main.py:148), which is not specified. `Gravity.IterationOrder` stands for it as an arbitrary enumeration of the set, and the model proves the resulting board does not depend on the choice.

## Model

| member | source | states |
|---|---|---|
| Grid.BuildBoard | main.py:68-69 | the fresh board has an entry for exactly the cells of the width×height grid, every one blank, so it is settled |
| Game.NewGame | main.py:47-54 | a new game keeps the given width, height, threshold and first letter, puts the cursor on column width / 2, has turn and score zero and a complete, all-blank board, and with at least one column is valid |
| Game.CursorLeft | main.py:121-125 | the cursor stays on a column; at column 0 the game is unchanged; otherwise the cursor moves one left and nothing else changes; validity is kept |
| Game.CursorRight | main.py:127-131 | the cursor stays on a column; at the last column the game is unchanged; otherwise the cursor moves one right and nothing else changes; validity is kept |
| Game.CursorRightUndoesLeft | main.py:121-131 | away from the left edge, a move right undoes a move left |
| Game.CursorLeftUndoesRight | main.py:121-131 | away from the right edge, a move left undoes a move right |
| Game.LandingRow | main.py:134-137 | the upward scan stops at a blank row, every row it passed holds a letter, and it returns -1 only after passing every row |
| Game.Landing | main.py:134-141 | the landing row is -1 exactly when the cursor column is full; otherwise it is blank and every row below it holds a letter, so it is the lowest blank row |
| Matches.ScanLeft | main.py:90-92 | every cell the leftward scan steps over holds the letter, and the scan stops at the left edge or at the first cell that does not |
| Matches.ScanRight | main.py:93-95 | every cell the rightward scan steps over holds the letter, and the scan stops at the right edge or at the first cell that does not |
| Matches.ScanDown | main.py:96-98 | every cell the downward scan steps over holds the letter, and the scan stops at the bottom edge or at the first cell that does not |
| Matches.RowRunBetweenScans | main.py:90-95 | a column is on the contiguous same-letter run through the origin exactly when it lies between the two points where the scans stopped |
| Matches.HorizontalRun | main.py:85-95 | the horizontal list starts at the origin, has one entry more than the left and right scans stepped over, and every later entry is a grid cell of the origin's row, off the origin's column, holding the letter |
| Matches.VerticalRun | main.py:86-98 | the vertical list starts at the origin, has one entry more than the downward scan stepped over, and every later entry is in the origin's column, strictly below it, and holds the letter |
| Matches.HorizontalRunAt | main.py:85-95 | the horizontal list is the origin, then the columns to its left nearest first, then those to its right, and has 1 + left + right entries |
| Matches.HorizontalRunDistinct | main.py:85-95 | no cell appears twice in the horizontal list |
| Matches.HorizontalRunIsRowRun | main.py:85-95 | the horizontal list holds each cell of the maximal contiguous run in the origin's row once and nothing else, so its length is the run's size |
| Matches.VerticalRunIsColumnRun | main.py:86-98 | the vertical list holds the origin and each same-letter cell directly below it once and nothing above it, so its length is the run's size |
| Matches.DestroyedCells | main.py:100-107 | the set of cleared cells is the row run if it reaches the threshold, joined with the column run if that does; every cleared cell is in the grid |
| Matches.QualifyingCells | main.py:100-108 | the cells the two blanking loops visit, horizontal list first, are as a set exactly the cleared cells |
| Matches.BlankCells | main.py:102-108 | blanking listed cells one at a time, as each loop does, keeps the board's cells, leaves every listed cell blank whatever the order or repetitions, and leaves every unlisted cell as it was |
| Matches.DestroyMatches | main.py:83-110 | the cleared set is the union of the row run and the column run that reach the threshold (length `>=` destroy_count); cleared cells are in the grid and blank; every other cell is unchanged |
| Matches.DestroyedOffColumn | main.py:90-104 | a cleared cell outside the origin's column lies on the origin's row and held the letter |
| Matches.DestroyedInColumn | main.py:96-108 | a cleared cell in the origin's column lies at or below the origin |
| Matches.DestroyedColumnPrefix | main.py:96-108 | cleared cells in the origin's column reach down from the origin without gaps |
| Gravity.ShiftDown | main.py:113-118 | the copy loop keeps the board's set of cells; its effect on each cell is stated by `Gravity.ShiftDownAt` |
| Gravity.ShiftDownAt | main.py:113-118 | after the copy loop, rows 1 to curr of the column hold the symbol that was one row above, and every other cell is unchanged |
| Gravity.ShiftDownMoves | main.py:113-118 | the copy loop's effect on every cell at once: rows 1 to curr take the symbol above, the rest is unchanged |
| Gravity.DropSupported | main.py:112-119 | the board stays complete; the cleared cell and every cell above it in its column take the symbol one row up (blank for row 0); other cells are unchanged |
| Gravity.DropAllSupported | main.py:148-149 | shifting for every cell of a list of grid cells keeps the board complete |
| Gravity.IterationOrder | main.py:148 | the walk over the cleared set lists each cleared cell exactly once |
| Gravity.DropSupportedOnBlank | main.py:112-119 | shifting down over a cell that is blank and has only blanks above it changes nothing |
| Gravity.CollapseLoneCell | main.py:148-149 | shifting over the only cleared cell of its column and dropping it from the set leaves the same collapsed board |
| Gravity.CollapseStackedCell | main.py:148-149 | a cleared cell that is blank itself and has only blanks above it can be dropped from the set without changing the collapsed board |
| Gravity.DropAllIsCollapse | main.py:148-149 | when, wherever two cleared cells share a column, that column is blank from the top down to each of them, shifting in any enumeration of the set gives the order-free collapse |
| Gravity.DropAllOrderIrrelevant | main.py:148-149 | under the same condition, any two enumerations of the cleared set leave the same board |
| Game.PlaceAndClear | main.py:140-144 | the board after writing and clearing stays complete; on a full column nothing is written or cleared; every cleared cell is in the grid |
| Game.DropLetter | main.py:133-149 | on a full column the game is unchanged; otherwise the score grows by ten per cleared cell and the next letter becomes current; size, threshold, cursor and turn never change |
| DropProofs.ClearedOffColumn | main.py:143-144 | after a drop, a cleared cell outside the cursor column is on the landing row and held the dropped letter |
| DropProofs.ClearedInColumnBelow | main.py:143-144 | after a drop, a cleared cell in the cursor column is at or below the landing row |
| DropProofs.ClearedColumnPrefix | main.py:143-144 | after a drop, the cleared cells of the cursor column reach down from the landing row without gaps |
| DropProofs.ClearedBoard | main.py:143-144 | after a drop, cleared cells are blank and every other cell is the board with the letter written |
| DropProofs.DropHasShape | main.py:133-144 | a drop that lands on a valid game puts the board into the shape the gravity proofs need |
| DropProofs.ShapeStacked | main.py:143-149 | after a drop's clearing, cleared cells that share a column lie in the landing column, which is blank from the top down to each of them |
| DropProofs.ShapeCollapse | main.py:143-149 | collapsing the cleared board gives `Settle`: cleared columns off the cursor shift down one over the landing row, the cursor column goes blank down to the deepest cleared cell, and everything else is the placed board |
| DropProofs.SettleSettled | main.py:143-149 | the board a drop leaves is settled again |
| DropProofs.DropAnyOrderIsExpected | main.py:143-149 | for every enumeration of the cleared set, the shifts leave the expected board |
| DropProofs.DropLetterBoard | main.py:133-149 | the board a drop leaves is the expected board |
| DropProofs.DropLetterAnyOrder | main.py:148-149 | the board a drop leaves does not depend on the order in which the cleared set is walked |
| DropProofs.DropLetterKeepsValid | main.py:133-149 | a drop keeps the game valid: board complete and settled, cursor on a column, score non-negative |
| Play.Step | main.py:74-81 | a command keeps the game valid and never lowers the score; an unbound key changes nothing; a cursor move keeps the board and score |
| Play.Run | main.py:74-81 | any sequence of commands keeps the game valid, never lowers the score, and keeps size, threshold and turn |
| Play.RunAppend | main.py:74-81 | running two command sequences one after the other is running them joined |
| Scenarios.FirstDrop | main.py:133-149 | on the 5×1 board with threshold 3, dropping A into column 0 of the blank row writes it and clears nothing |
| Scenarios.SecondDrop | main.py:133-149 | dropping A next to it in column 1 writes it and clears nothing, since a run of two is below the threshold |
| Scenarios.ThirdRunCleared | main.py:83-110 | with A in columns 0 to 2, the clearing from column 2 removes exactly those three cells |
| Scenarios.ThirdDrop | main.py:133-149 | dropping A into column 2 clears the row and adds thirty points |
| Scenarios.RowOfThreeScenario | main.py:74-81 | from a new game, left, left, drop, right, drop, right, drop (each drawing A) ends with a blank board and score 30 |

## Left out

- Reading keys, clearing the screen and printing the board (`play`'s I/O, `__str__`, `quit_game`, `main`): these are terminal I/O. `Play.Step` takes the command the key maps to.
- `get_letter`: its random choice is a parameter `next` of `DropLetter` and of the `Drop` command.
- The `Move` record and the `_valid_moves` table: replaced by the `Command` datatype. The quit key has no command, because it ends the process.
- The constructor's call to `play()`: `NewGame` builds the starting state only.
- Game.NewGame: width and height are `nat`; the source accepts negative sizes and then builds an empty board.
- Game.DropLetter: requires a well-formed game, so at least one column. With width 0 the source's `drop_letter` raises `KeyError` at main.py:136 when the height is at least 1, and returns without effect when the height is 0. The model does not cover that case, and `Play.Step` and `Play.Run` likewise require a valid game.
- Game.CursorLeft and Game.CursorRight: the source's `assert` on the cursor is their precondition, not a modelled failure.
- The hash order in which CPython walks the cleared set: modelled by an arbitrary enumeration. Every enumeration is proved to give the same board.

