# Tic-tac-toe engine, modelled and verified in Dafny

This project models the game engine of a console tic-tac-toe program for two players (`tic_tac_toe.py`) and proves properties of that model.

The board is a list of ten strings. Slot 0 is never used. Slots 1..9 are the cells of the 3x3 grid in row-major order. `" "` marks an empty cell.

The model covers:

- the board primitives: placing a marker, the space check, the full-board scan and the win test over the eight fixed lines;
- the conditions on which the console prompts accept an answer, and what an accepted answer becomes: the marker pairing, the position check and the yes/no answer;
- one round of the main driver: reset the board, pair the markers, pick who starts, ask "ready?", then the loop that places, tests for a win, tests for a draw only when there is no win, and passes the turn.

Modules:

- `Board` (`board.dfy`) holds the board and its primitives.
  - The space check and the win test are pure predicates on `seq<string>`.
  - `PlaceMarker` updates an `array<string>` in place.
  - `FullBoardCheck` is the early-return loop over cells 1..9.
  - The win test is related to two independent descriptions of a win: the list of eight triples (`Wins`) and a geometric "three cells in a straight line on the grid" (`ThreeInARow`).
- `Prompts` (`prompts.dfy`) holds the players, the answers each prompt accepts, the marker pairing and the choice of the first player.
- `Game` (`game.dfy`) holds one round.
  - `Step` describes one pass of the driver loop.
  - `Play` describes the whole round as a function of the positions the prompt returns.
  - `PlayRound` is the driver loop. It updates the board array in place and is proved to compute what `Play` describes.
  - The lemmas about `Play` state which cells a round changes, who placed what, how many placements it takes and how it is scored.
- `Scenarios` (`scenarios.dfy`) holds three concrete rounds:
  - a win on the last empty cell;
  - a top-row win;
  - a draw on a full board.

Python's `list[i]` with a negative `i` counts from the end. `Board.Slot` models this for `place_marker` and `space_check`.

`str.upper()` is modelled on ASCII letters only.

The win test is true for the mark `" "` on an empty board: every line "holds" the blank. The model keeps this behaviour. The "no winner on a fresh board" property is therefore stated for every mark except the blank (`Board.FreshBoard`).

## Model

| member | source | states |
|---|---|---|
| Board.Slot | tic_tac_toe.py:53 | The list slot an index in -n..n-1 names is the index taken modulo the list length n, so a negative index counts from the end; it is always within the list |
| Board.PlaceMarker | tic_tac_toe.py:43-53 | The board array afterwards equals the old board with exactly the indexed slot set to the marker; every other slot, including 0, is unchanged |
| Board.SpaceCheckAfterPlace | tic_tac_toe.py:90-101 | After a non-blank marker is written at a slot, the space check is false there and unchanged at every other slot |
| Board.FullBoardCheck | tic_tac_toe.py:104-117 | The scan returns true exactly when no cell 1..9 is blank, i.e. exactly when the set of empty cells is empty; slot 0 is not inspected |
| Board.GameWinCheckIsWinningLine | tic_tac_toe.py:56-74 | The win test holds exactly when all three cells of one of the eight triples (1,2,3) (4,5,6) (7,8,9) (1,4,7) (2,5,8) (3,6,9) (1,5,9) (3,5,7) hold the mark |
| Board.GameWinCheckIsThreeInARow | tic_tac_toe.py:67-74 | The win test holds exactly when some straight run of three cells on the 3x3 grid (across, down or diagonal) holds the mark |
| Board.LineDeterminedByCells | tic_tac_toe.py:67-74 | Two of the eight winning triples with the same three cells are the same triple |
| Board.OnlyHolderWins | tic_tac_toe.py:67-74 | When a mark holds just the three cells of one winning line, the win test holds for it and that line is the only one it holds; if all other cells are blank, no other non-blank mark wins |
| Board.PlaceFillsOneCell | tic_tac_toe.py:53 | Writing a non-blank marker into an empty cell removes exactly that cell from the empty cells, so their number drops by one |
| Board.EmptyCellsBound | tic_tac_toe.py:114-117 | There are at most nine empty cells, and the board is full exactly when none is left |
| Board.FreshBoard | tic_tac_toe.py:158 | The reset board `[' '] * 10` has ten slots and nine empty cells, is not full, and the win test on it holds for the blank mark and for no other mark |
| Board.SlotZeroIgnored | tic_tac_toe.py:67-74 | Changing slot 0 changes neither the win test, nor fullness, nor the set of empty cells |
| Prompts.Other | tic_tac_toe.py:191 | Passing the turn always gives the other player |
| Prompts.PlayerChoiceSplitsEvenly | tic_tac_toe.py:77-87 | Each player is the first mover for exactly one of the two values the random draw can take |
| Prompts.UpperIsLetter | tic_tac_toe.py:36 | An answer upper-cases to a one-letter answer exactly when it is that letter in lower or upper case |
| Prompts.MarkerAcceptedIff | tic_tac_toe.py:35-36 | The marker prompt exits exactly on the answers x, X, o and O |
| Prompts.PlayerInput | tic_tac_toe.py:37-40 | Player 1 gets the chosen (upper-cased) marker and Player 2 the other; the two markers are distinct and together are X and O |
| Prompts.PositionAcceptedIff | tic_tac_toe.py:133 | The position prompt exits exactly on a number in 1..9 naming a currently empty cell |
| Prompts.YesNoAcceptedIff | tic_tac_toe.py:147-148 | A yes/no prompt exits exactly on the answers y, Y, n and N |
| Prompts.GameContinue | tic_tac_toe.py:147-150 | An accepted answer means "play again" exactly when it is y or Y, and "stop" exactly when it is n or N |
| Game.MoverShift | tic_tac_toe.py:191 | Handing the first move to the other player shifts who makes each placement by one |
| Game.WinBeforeDraw | tic_tac_toe.py:181-189 | A placement that completes a line for the mover is a win even if it also fills the board |
| Game.StepEffect | tic_tac_toe.py:178-191 | One loop pass changes exactly the chosen cell, from empty to the mover's marker, and removes that cell from the empty cells; it is a win exactly when the mover now holds a line, a draw exactly when there is no line and the board is full, and otherwise passes the turn |
| Game.PlayFirstMove | tic_tac_toe.py:179-191 | The first pass of a round, stated with the win test as written: a win ends the round, else a full board ends it as a draw, else the round goes on with the other player |
| Game.PlayBounds | tic_tac_toe.py:174-210 | A round that ends is won or drawn after at least one placement; it makes no more placements than there were empty cells or moves were entered, and each placement fills one empty cell |
| Game.PlayEnds | tic_tac_toe.py:174-210 | A round ends: when the positions entered name every empty cell exactly once, each is accepted when it is read and the round is won or drawn before they run out |
| Game.PlayMovesFresh | tic_tac_toe.py:133-135 | The moves a round reads are distinct cells in 1..9 that were empty at the start of the round |
| Game.PlayMarks | tic_tac_toe.py:175-210 | Placement k holds the marker of its mover, and the movers alternate strictly from the player who started |
| Game.PlayLeavesOthers | tic_tac_toe.py:179 | A round changes no slot except the cells its moves name; slot 0 in particular stays as it was |
| Game.PlayScore | tic_tac_toe.py:181-189 | A win goes to the player who made the last placement and now holds a line; a draw leaves the board full with no line for the last mover |
| Game.PlayReadsExactly | tic_tac_toe.py:184-189 | A round has not ended after fewer moves than its placements, and no move after its last placement is read |
| Game.FreshRoundEnds | tic_tac_toe.py:158-210 | On a fresh board, a round whose positions name nine distinct cells ends |
| Game.FreshRoundLength | tic_tac_toe.py:158-210 | On a fresh board, with positions naming nine distinct cells, the round ends within nine placements; a draw takes exactly nine and leaves the board full; a win leaves a line for the winner that the win test sees |
| Game.PlayRound | tic_tac_toe.py:157-210 | After a "yes" to "ready?", with positions naming nine distinct cells, the driver loop on a fresh board computes the round `Play` describes and ends it won or drawn within nine placements; a win is one the win test sees for the winner's marker, and a draw leaves a full board; after a "no" the board is fresh and nobody has moved |
| Scenarios.Continues | tic_tac_toe.py:181-191 | A move that neither completes a line nor fills the board hands the rest of the round to the other player, one placement later |
| Scenarios.Ends | tic_tac_toe.py:181-189 | A last move that completes a line wins, and one that fills the board without a line draws |
| Scenarios.LastCellWinIsWin | tic_tac_toe.py:181-189 | The concrete board X O X / O X O / O X _ with X to move on cell 9: the move fills the board and completes the 1-5-9 diagonal, and the round is a win for X |
| Scenarios.TopRowWin | tic_tac_toe.py:174-191 | The concrete round 1, 4, 2, 5, 3 with X first ends after five placements as a win for Player 1, with the exact final board |
| Scenarios.FullBoardDraw | tic_tac_toe.py:174-208 | The concrete round 1, 2, 3, 5, 4, 6, 8, 7, 9 with X first ends after nine placements as a draw, with the exact final board |

## Left out

- Console output is not modelled: `clear_screen`, `display_board` and every message.
- `input()` and the re-prompt loops are not modelled. Only the condition on which each loop exits and the value it then returns are modelled.
  - A round's positions are a parameter `moves`: the values the position prompt returns, in order.
  - `PlayRound` takes them as nine distinct cells in 1..9, of which the round reads as many as it needs. Any sequence of answers a real round accepts, cell numbers each naming a then-empty cell, is the start of such a list, since the cells it never reaches can be appended. `Game.PlayEnds` proves that such a list always finishes the round.
- The `ValueError` raised by `int(...)` on a non-numeric answer is not modelled, because it is an input failure and not engine logic.
- `random.randint` is not modelled. The draw is the parameter `draw` of `Prompts.PlayerChoice`.
- The outer replay loop (play again or quit) and the welcome and farewell messages are not modelled. `Prompts.GameContinue` models the answer mapping of that prompt.
- The driver's two player branches, which differ only in the marker and the next turn, are modelled as one branch that uses `Mark(markers, turn)` and `Other(turn)`. The turn strings `'Player 1'`/`'Player 2'` are modelled as the `Player` datatype.
- The `while game_on` loop breaks on a draw without clearing `game_on`. That flag is not observable afterwards, so the model does not track it.
- Prompts.UpperIsLetter: `str.upper()` is modelled on ASCII letters only; the Unicode case mapping is not modelled.
- Board.PlaceMarker: requires an index the list has. An index outside it would raise an `IndexError`, which is not modelled; the driver only passes 1..9. `SpaceCheck` has the same requirement.
