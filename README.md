# Orthokon rules engine in Dafny

This project models the `OrthokonBoard` class, the rules engine for Orthokon.
Orthokon is a two-player game on a 4×4 grid. The board is indexed
`board[x][y]`. A new game has a red piece at `y = 0` and a yellow piece at
`y = 3` for every `x`. A move slides one piece in a straight line or with
`|dx| == |dy|`. After a move, every occupied orthogonal neighbour of the
destination takes the mover's colour. This is the "infection" rule. After each
move the engine re-evaluates the game status.

Files and modules:

- `grid.dfy`, module `Grid`: cells (`Empty | Red | Yellow`), the status
  (`Unfinished | RedWon | YellowWon`), the board as `seq<seq<Cell>>`, the
  starting layout, single-square update, and piece counting.
- `moves.dfy`, module `Moves`: the move validator `_check_move` as the function
  `CheckMove`. Its path loops are the recursive functions `ClearAlongX`,
  `ClearAlongY` and `ClearRectangle`, which follow Python's
  `range(start, stop, step)` exactly. `Legal` is a reference statement of the
  rule without loops. The move applier `_record_move` is the function
  `AfterMove`, built from `Relocated` and four `Infect` steps.
- `evaluation.dfy`, module `Evaluation`: the probes of `_moves_possible`
  (`CanMoveFrom`), the scan over the board (`MovableInColumn`,
  `MovableInColumns`, `HasMove`) and the status that `_update_current_state`
  leaves (`Evaluate`).
- `engine.dfy`, module `Engine`: the class `OrthokonBoard`. Its fields `board`
  and `state` are updated in place by `SetBoard`, `SetCurrentState`,
  `RecordMove`, `UpdateCurrentState`, `MovesPossible` and `MakeMove`. These
  methods keep the source's loops and branches, and each is proved against the
  functions above. `GetBoard` and `CurrentState` are the read accessors
  `get_board` and `get_current_state`.
- `scenarios.dfy`, module `Scenarios`: concrete boards that show the rules as
  written.

The model follows the code, including behaviour a reader of the rules might
not expect:

- A move's path check runs up to and including the destination. So the
  destination must be empty and there is no capture by landing.
- Nothing requires a slide to stop at an obstacle or at the edge. A piece may
  stop in open space.
- A diagonal move checks every square in the rectangle between source and
  destination, not only the diagonal squares.
- `_moves_possible` probes only distance-1 destinations. It probes
  `(x+1, y+1)` twice and never probes `(x+1, y)`. A side whose only legal
  moves are horizontal moves towards larger x is found to have no moves. The
  other side then wins, except that red wins when yellow cannot move either.
- The yellow "no moves" check runs last. When neither side can move, red wins.
- `make_move` never checks whether the game is already won. It returns false
  on an illegal move. On success the source returns `None`, modelled as
  `true`. Nothing ever sets the status back to unfinished.

The docstring of `make_move` (OrthokonBoard.py:44-45) says that a move after
the game has been won returns False. The code never checks this, and the model
follows the code (`Engine.MoveAfterGameOver`).

## Model

| member | source | states |
|---|---|---|
| `Grid.UpdateSquares` | OrthokonBoard.py:34-36 | `_set_board` on the board value: square (x, y) holds the new value and every other square is unchanged |
| `Grid.UpdatePieces` | OrthokonBoard.py:34-36 | setting one square changes the piece total only by the occupancy that left and the occupancy that arrived |
| `Grid.CountZero` | OrthokonBoard.py:176-181 | a colour counts zero exactly when no square holds it |
| `Grid.InitialCounts` | OrthokonBoard.py:12-13 | the starting layout is 4×4 with four red pieces, four yellow pieces, eight in all |
| `Moves.ClearAlongX` | OrthokonBoard.py:104-110 | the horizontal path loop finds nothing exactly when every square at x in `range(start, stop, step)` on row y is empty |
| `Moves.ClearAlongY` | OrthokonBoard.py:117-123 | the vertical path loop finds nothing exactly when every square at y in `range(start, stop, step)` on column x is empty |
| `Moves.ClearRectangle` | OrthokonBoard.py:130-136 | the nested diagonal loops find nothing exactly when every square of the x-range × y-range rectangle is empty |
| `Moves.CheckMove` | OrthokonBoard.py:60-143 | an accepted move has an occupied source, an on-board destination different from the source, a horizontal, vertical or `abs(dx) == abs(dy)` displacement, and an empty destination |
| `Moves.CheckMoveIsLegal` | OrthokonBoard.py:60-143 | `_check_move` is true exactly when the move is `Legal`: occupied source, on-board distinct destination, and every square strictly past the source up to and including the destination empty (the whole rectangle for a diagonal); any other displacement is refused |
| `Moves.InfectSquare` | OrthokonBoard.py:155-166 | one infection step recolours its square only if it is on the board and occupied, and touches nothing else |
| `Moves.InfectPieces` | OrthokonBoard.py:155-166 | an infection step with a piece colour leaves the piece total unchanged |
| `Moves.AfterMove` | OrthokonBoard.py:145-166 | `_record_move` on the board value: for a move between distinct squares, the destination holds the moving piece and the source is empty |
| `Moves.AfterMoveSquares` | OrthokonBoard.py:145-166 | after `_record_move` the destination holds the mover's colour, the source is empty, every other occupied orthogonal neighbour of the destination holds the mover's colour, and every other square, diagonal neighbours included, is unchanged |
| `Moves.MovePreservesPieces` | OrthokonBoard.py:145-166 | a move accepted by `_check_move` and applied by `_record_move` neither creates nor destroys pieces |
| `Evaluation.CanMoveFrom` | OrthokonBoard.py:200-241 | the probe block for one square; a square passes a probe only if it holds a piece |
| `Evaluation.ProbedOffsetsAreSeven` | OrthokonBoard.py:202-241 | the probed offsets are seven distinct ones, and `(1, 0)` is not among them |
| `Evaluation.ProbesAreOffsets` | OrthokonBoard.py:202-241 | a square passes the probes of `_moves_possible` exactly when `_check_move` accepts the step to one of the seven probed offsets |
| `Evaluation.OtherMovesAreFound` | OrthokonBoard.py:202-241 | any legal move other than a horizontal one towards larger x makes the square pass a probe, so the scan misses only those moves |
| `Evaluation.MovableInColumn` | OrthokonBoard.py:199-241 | the inner scan up to y = m finds a movable piece of colour p exactly when some square of column x below m holds p and passes a probe |
| `Evaluation.MovableInColumns` | OrthokonBoard.py:198-241 | the outer scan up to x = n finds a movable piece of colour p exactly when some square in columns below n holds p and passes a probe |
| `Evaluation.HasMove` | OrthokonBoard.py:195-241 | a colour has moves exactly when one of its squares passes a probe |
| `Evaluation.NoPiecesNoMove` | OrthokonBoard.py:195-241 | a colour with no pieces has no moves |
| `Evaluation.Evaluate` | OrthokonBoard.py:168-245 | the status `_update_current_state` leaves: unfinished only if it was unfinished and both sides can move; a red win only if red had already won or yellow cannot move |
| `Evaluation.EvaluateOutcome` | OrthokonBoard.py:168-245 | yellow without moves means red won, also when red has none either; otherwise red without moves means yellow won; when both can move the status stays as it was, so a win is never reset |
| `Evaluation.EvaluateWon` | OrthokonBoard.py:242-245 | both directions: red has won exactly when yellow cannot move, or both can and red had already won; likewise for yellow |
| `Evaluation.RedEliminationWins` | OrthokonBoard.py:184-185 | eight red and no yellow pieces give a red win |
| `Evaluation.YellowEliminationWins` | OrthokonBoard.py:186-187 | eight yellow and no red pieces give a yellow win, unless yellow cannot move, when the later check makes it red's win |
| `Engine.OrthokonBoard.constructor` | OrthokonBoard.py:8-16 | a new board has `[Red, Empty, Empty, Yellow]` for every x, eight pieces, and an unfinished status |
| `Engine.OrthokonBoard.SetCurrentState` | OrthokonBoard.py:26-28 | `_set_current_state` replaces the status and leaves the board alone |
| `Engine.OrthokonBoard.SetBoard` | OrthokonBoard.py:34-36 | `_set_board` replaces one square of the board field and leaves the status alone |
| `Engine.OrthokonBoard.MakeMove` | OrthokonBoard.py:42-58 | returns true exactly when `_check_move` accepts; a refused move changes neither board nor status; an accepted one leaves the board `AfterMove` gives and the status `Evaluate` gives; the piece total is unchanged either way |
| `Engine.OrthokonBoard.RecordMove` | OrthokonBoard.py:145-166 | the in-place updates of `_record_move` leave the board `AfterMove` gives and the status unchanged |
| `Engine.OrthokonBoard.UpdateCurrentState` | OrthokonBoard.py:168-193 | the counting loops and the win checks leave the status `Evaluate` gives and the board unchanged |
| `Engine.OrthokonBoard.MovesPossible` | OrthokonBoard.py:195-245 | the scan sets yellow's win if red has no probed move, then red's win if yellow has none; otherwise the status is unchanged; the board is unchanged |
| `Engine.ScriptScenario` | OrthokonBoard.py:248-252 | on a new game, `make_move(1, 1, 1, 2)` is refused because (1, 1) is empty, and the game stays unfinished |
| `Engine.MoveAfterGameOver` | OrthokonBoard.py:42-58 | with the status already set to a win, a legal move is still accepted |
| `Scenarios.SlideMayStopInOpenSpace` | OrthokonBoard.py:113-123 | from the start, (0, 0) may step to (0, 1) although (0, 2) beyond it is empty |
| `Scenarios.OccupiedDestinationRefused` | OrthokonBoard.py:117-123 | a vertical move onto the yellow piece at (0, 3) is refused |
| `Scenarios.DiagonalBlockedOffTheDiagonal` | OrthokonBoard.py:130-136 | a piece at (1, 2) blocks the diagonal move (0, 0) to (2, 2) although (1, 1) and (2, 2) are empty |
| `Scenarios.UnprobedRightStep` | OrthokonBoard.py:202-245 | on a board where red's only legal moves are horizontal slides towards larger x (every accepted move from (0, 0) has y2 = 0 and x2 > 0), red is found to have no moves and yellow is declared the winner |
| `Scenarios.InitialInProgress` | OrthokonBoard.py:195-245 | in the starting layout both sides can move, so evaluation leaves the game unfinished |

## Left out

- The debug flag, `get_debug`, `_debug_board` and every debug `print`: console output only.
- The "too many pieces" diagnostic (OrthokonBoard.py:192-193): the chained comparison `8 > red + yellow > 8` is always false, so it is a no-op. Piece conservation is proved instead (`Moves.MovePreservesPieces`, `Engine.OrthokonBoard.MakeMove`).
- The demo at the end of the source file runs at import time and prints. Only its move is modelled, as `Engine.ScriptScenario`.
- Source coordinates outside the board: Python would index negatively or raise. `MakeMove` requires an on-board source instead. The internal caller `_moves_possible` always meets this.
- The direction `int(delta / abs(delta))` is computed in floating point in the source. It is modelled as the integer sign, which gives the same value for every board displacement.
- Read accessors `get_board` and `get_current_state` are modelled as `GetBoard` and `CurrentState` without a contract of their own, since they only return a field.
