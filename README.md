# Tic-tac-toe game engine in Dafny

A model of the console tic-tac-toe engine in `src/main.rs`. Two marks, X and O, take turns on a
3×3 board, and X moves first. A move names a cell. A move onto an occupied cell is rejected
without any change. An accepted move writes the mover's mark and passes the turn. The winner is
recomputed on every query: the engine scans the eight lines (three rows, three columns, two
diagonals) and reports the owner of the first line whose three cells hold one mark. A move is
read from a text line holding two one-based integers in 1..3. The board prints as three
`a|b|c` rows separated by `-+-+-` lines.

Modules:

- `Wrappers`: `Option` and `Result`, the source's `Option<Player>` and `Result<_, _>`.
- `Players`: the `Player` enum, the turn flip and the mark's glyph.
- `Moves`: `Move`, the `InvalidMoveFormat` error and the text parser (`Move::from_str`).
- `Boards`: the grid as a value (`Grid`, row-major `grid[y][x]` like `board[y][x]`), counting,
  and the rendering (`Display for Board`). Also the `Board` class, which owns a fixed 3×3
  `array2` updated in place by `Place`.
- `Games`: the game as a value (`GameState`). `Apply` is the pure transition of `make_move`,
  and `WinnerOf` with `Scan` is the line scan of `winner`. Also the `Game` class, with its
  mutable `turn` and its owned `Board`. Its methods `MakeMove`, `Winner` and `Render` are
  proved to compute those functions of its state.

Callers of `is_empty` are meant to pass only in-range coordinates, but in the code only
negative ones fail (the `try_into().unwrap()`). Coordinates of 3 or more reach the
bounds-checked `get`, read as empty, and `is_legal` answers true. `Board.IsEmpty` and
`Game.IsLegal` therefore require only non-negative coordinates, and they report such cells as
empty. `MakeMove` requires an in-range move, because `place` indexes the array directly.

## Model

| member | source | states |
|---|---|---|
| Players.Other | src/main.rs:77-80 | the turn always passes to the other mark |
| Players.Glyph | src/main.rs:11-17 | a mark prints as the single character X or O |
| Players.GlyphInjective | src/main.rs:11-17 | different marks print differently |
| Moves.ParseInt | src/main.rs:129 | a token that reads as an integer is non-empty and has no space |
| Moves.IndexOf | src/main.rs:129 | the position found is the first occurrence of the character, or the length when it is absent |
| Moves.Split | src/main.rs:129 | a split line is the first token, a space, the rest and a newline, with no space in the first token; a line not ending in a newline, or with no space, does not split |
| Moves.ParseMove | src/main.rs:128-138 | every move the parser returns has both coordinates in 0..2 |
| Moves.SplitTokens | src/main.rs:129 | a line "a b\n" with no space in a splits into exactly a and b |
| Moves.ParseMoveComplete | src/main.rs:128-138 | two integer tokens around a space give the move (x-1, y-1) when both are in 1..3 and InvalidMoveFormat otherwise |
| Moves.ParseMoveSound | src/main.rs:128-138 | every accepted line is two integer tokens around a space, ended by a newline, reading as the move's coordinates plus one |
| Moves.ParseDecimal | src/main.rs:129 | the integer reader reads back any decimal spelling of a natural number |
| Moves.ParseFormat | src/main.rs:128-138 | parsing the one-based text of any in-range move gives that move back |
| Moves.ParseDigits | src/main.rs:128-138 | two digits in 1..3 around a space read as those digits less one |
| Moves.ParseAcceptsExample | src/main.rs:128-138 | "2 3\n" reads as the move (1, 2) |
| Moves.ParseRejectsOutOfRange | src/main.rs:133-134 | "0 2\n" and "4 1\n" are InvalidMoveFormat |
| Moves.ParseRejectsMalformed | src/main.rs:129-131 | "abc\n" and "2\n" are InvalidMoveFormat |
| Boards.Empty | src/main.rs:20-23 | the default board has every cell empty and no mark on it |
| Boards.Update | src/main.rs:42-45 | the addressed cell holds the new value and every other cell keeps its old one |
| Boards.MarksFill | src/main.rs:44 | filling an empty cell of a row with p adds one to p's count and leaves the other mark's count |
| Boards.MarksBound | src/main.rs:22 | a row holds at most one mark per cell, and as many only when every cell is occupied |
| Boards.MarksOfFill | src/main.rs:44 | filling an empty cell adds one to the mover's count and to the occupied count, and leaves the other mark's count |
| Boards.OccupiedBound | src/main.rs:22 | at most nine cells are occupied, and nine only on a board with no empty cell |
| Boards.CellGlyph | src/main.rs:52-55 | a cell prints as a space exactly when it is empty |
| Boards.CellGlyphInjective | src/main.rs:52-55 | different cells print differently |
| Boards.RowTextIsRow | src/main.rs:51-57 | the cell loop prints a row as glyph, bar, glyph, bar, glyph, newline |
| Boards.RowText | src/main.rs:51-57 | the text of the first n cells of a row is 2n characters with cell k's glyph at 2k; RowTextIsRow gives its full layout |
| Boards.RowsText | src/main.rs:50-59 | the first n rows print as 12n characters, less the six of the separator omitted after the last row; TextRows gives the layout |
| Boards.Text | src/main.rs:48-61 | the board prints as 30 characters; TextRows, TextLayout and TextInjective give its layout and that it determines the board |
| Boards.TextRows | src/main.rs:48-61 | the board prints as three rows joined by two "-+-+-\n" lines, with no separator after the last row |
| Boards.TextLayout | src/main.rs:48-61 | the text is 30 characters, the glyph of cell (x, y) sits at 12y + 2x, and the separators fill characters 6..12 and 18..24 |
| Boards.TextInjective | src/main.rs:48-61 | two boards print alike only when they are equal |
| Boards.Board.constructor | src/main.rs:20-23 | a fresh board holds the empty grid |
| Boards.Board.Get | src/main.rs:30-40 | an in-range read gives board[y][x], and any out-of-range coordinate gives None, not a failure |
| Boards.Board.IsEmpty | src/main.rs:25-28 | an in-range cell is empty exactly when it holds no mark, and non-negative coordinates off the grid read as empty |
| Boards.Board.Place | src/main.rs:42-45 | the addressed cell holds the mark afterwards, whatever it held before, and the other eight cells are unchanged |
| Boards.Board.Render | src/main.rs:48-61 | the row loop and the cell loop print exactly the rendering of the grid |
| Games.Initial | src/main.rs:64-68 | a fresh game has X to move and every cell empty |
| Games.Apply | src/main.rs:71-86 | an occupied target gives InvalidMove and the same state; an empty one gives Ok, the old turn's mark in that cell, no other cell changed, one more occupied cell and the turn flipped |
| Games.LinesAreStraight | src/main.rs:88-94 | each of the eight scanned lines is a row, a column or a diagonal, and no two cover the same cells |
| Games.SubsetOfThree | src/main.rs:88-94 | a set of three cells drawn from three distinct given cells is exactly those three |
| Games.LinesAreComplete | src/main.rs:88-94 | every row, column and diagonal of three cells is one of the scanned lines |
| Games.Occupation | src/main.rs:96-99 | the marks collected from a line number at most its cells; OccupationCount states when all are collected and in which order |
| Games.LineOwner | src/main.rs:100-105 | a line accepted for a mark has that mark in its first cell; LineOwnerIff states that it is accepted exactly when one mark fills it |
| Games.Scan | src/main.rs:95-107 | the owner of the first accepted line from line i on, in the scan order of the eight lines; ScanNone and ScanSome state this |
| Games.WinnerOf | src/main.rs:87-108 | the first line in scan order held by one mark; WinnerNoneIff and WinnerOwnsFirstLine state this |
| Games.OccupationCount | src/main.rs:96-99 | the marks collected from a line number as many as its cells exactly when none is empty, and are then the cells' marks in order |
| Games.LineOwnerIff | src/main.rs:100-105 | the scan accepts a line for p exactly when all three cells hold p |
| Games.ScanNone | src/main.rs:95-107 | the scan from line i finds nothing exactly when no later line is held by one mark |
| Games.ScanSome | src/main.rs:95-107 | a mark the scan from line i reports holds a later line, and no line between i and it is held by anyone |
| Games.WinnerNoneIff | src/main.rs:87-108 | there is no winner exactly when no line is held by one mark, so a full board without a line has none |
| Games.WinnerOwnsFirstLine | src/main.rs:87-108 | a reported winner holds a line, and no line earlier in scan order is held by anyone |
| Games.WinnerOfSoleOwner | src/main.rs:87-108 | when p holds a line and the other mark holds none, the winner is p |
| Games.EmptyHasNoWinner | src/main.rs:87-108 | the empty board has no winner |
| Games.WinnerMonotone | src/main.rs:94-105 | a board that keeps every mark of a won board still has a winner |
| Games.WinnerPersists | src/main.rs:71-83 | after any move, accepted or rejected, a game that had a winner still has one |
| Games.InitialAlternates | src/main.rs:64-68 | a fresh game has as many X marks as O marks, with X to move |
| Games.ApplyAlternates | src/main.rs:76-82 | every move keeps X's count equal to O's when X is to move, and one more when O is |
| Games.TurnParity | src/main.rs:76-82 | in a game kept in step, X is to move exactly when an even number of cells is occupied |
| Games.FullBoardRejects | src/main.rs:71-74 | on a full board every move is InvalidMove and changes nothing |
| Games.Replay | src/main.rs:143-150 | applying every move in order only ever adds marks, and keeps the turn in step with the marks |
| Games.DiagonalScenario | src/main.rs:71-108 | X at (0,0), (1,1), (2,2) against O at (0,1), (0,2) wins after the fifth move |
| Games.DiagonalMarks | src/main.rs:71-83 | after those five moves X holds the three cells of the main diagonal |
| Games.DiagonalScenarioInputs | src/main.rs:128-138 | the inputs "1 1", "1 2", "2 2", "1 3" and "3 3" parse to that game's moves |
| Games.Game.constructor | src/main.rs:64-68 | a fresh game holds the initial state |
| Games.Game.IsLegal | src/main.rs:84-86 | an in-range move is legal exactly when its cell is empty |
| Games.Game.MakeMove | src/main.rs:71-83 | the return value and the new turn and board are exactly what Apply gives for the old state |
| Games.Game.Occupants | src/main.rs:96-99 | the loop over a line's cells collects exactly the marks Occupation gives |
| Games.Game.Winner | src/main.rs:87-108 | the loop over the eight lines returns exactly the winner of the current board |
| Games.Game.Render | src/main.rs:111-115 | the game prints exactly as its board |

## Left out

- The `main` driver loop (src/main.rs:141-161) is not modelled. Reading stdin, printing prompts and messages, and looping until a winner are console I/O. `Games.Replay` applies every move in order, without the loop's stop at a winner and without its unparsed lines. It is used to state the scenario and what a sequence of moves preserves.
- Moves.ParseInt, Moves.Split: the exact tokenizer of the foreign `serde_scan::scan!` macro is not visible. The model uses the grammar token, one space, token, newline, split at the first space. A token is an optional `+` or `-` followed by at least one decimal digit. Other whitespace handling of the macro is not captured.
- Moves.ParseInt: integers are unbounded. A token too large for `i32` fails in the source and parses in the model. The move parser rejects such a value either way, since it lies outside 1..3.
- Boards.Board.IsEmpty, Games.Game.IsLegal: the panic on negative coordinates is not modelled. It is excluded by a precondition instead.
- Boards.Board.Place, Games.Game.MakeMove: out-of-range moves are not modelled, because `place` would panic on them. They are excluded by requiring a move in range, which every parsed move is.
- Draw detection: the source has none, and the model adds none. `FullBoardRejects` and `WinnerNoneIff` state what a full board without a line does.
- The derived `Debug`, `Clone` and `Default` for `Move` are not modelled, because the engine never relies on them.
- Boards.Board.Render, Games.Game.Render: the formatter error that `fmt` passes up with `?` is not modelled, because writing to a string cannot fail. The model's rendering always succeeds.
