# Tic-tac-toe game state, in Dafny

This project models the state machine of a browser tic-tac-toe game. The
game exists twice in the repository: as the classes `Cell` and `Game`
(src/Cell.js, src/Game.js) and as the bundled single file script.js. The
two copies are identical except for `resolve`, the step that decides the
outcome after a move:

- src/Game.js looks for a winning line first. Then, if the board is full,
  it calls `end()` with no winner, which makes the outcome a draw but
  leaves any line already found marked winning.
- script.js looks for a full board first. A full board is a draw and no
  cell is marked, even when the last move completed a line.

The model keeps both, selected by `Rules.Ordering` (`WinFirst` for
src/Game.js, `FullFirst` for script.js).

Files and modules:

- `players.dfy`: `Options` (an `Option` type) and `Players`. The two
  players are distinct identities `Player1` and `Player2`, in the order of
  the `players` array.
- `cell.dfy`: `Cells`. The class `Cell` has fixed coordinates, a mutable
  `player` (`None` while free) and a mutable `winning` flag. `CellState`
  is the value a cell holds at one moment.
- `rules.dfy`: `Rules`. These are pure functions over a snapshot
  `State(board, outcome)`; a cell is named by its position in the board.
  The source's `winner` field (`false`, `null` or a player) becomes
  `Outcome = InProgress | Drawn | Won(player)`.
- `game.dfy`: `Games`. The class `Game` holds its cells as a sequence of
  `Cell` objects and its `winner` field. Every method that changes state
  is proved to leave `State()` equal to the matching function of `Rules`
  applied to the state it started from.
- `properties.dfy`: `Properties`. These are lemmas relating several moves:
  - turn order and balanced counts
  - write-once owners
  - finished games staying finished
  - the invariant `Coherent` that every state reached from a reset keeps
  - how the two orderings of `resolve` differ

## Model

| member | source | states |
|---|---|---|
| Players.Other | script.js:110 | the other player of the two in `players` differs from the given one |
| Cells.Cleared | src/Cell.js:69-72 | a reset cell keeps its place and is free and not winning |
| Cells.Cell.constructor | src/Cell.js:18-26 | a new cell sits at the given coordinates, is free (`player == null`) and is not winning |
| Cells.Cell.IsFree | src/Cell.js:33-35 | holds exactly when the cell has no owner |
| Cells.Cell.IsOwned | src/Cell.js:44-46 | holds exactly when the owner is the given player |
| Cells.Cell.SetOwner | script.js:62-67 | a free cell gets the player; an owned cell keeps its owner; `winning` is untouched |
| Cells.Cell.SetWinning | src/Cell.js:62-64 | the cell is winning afterwards and its owner is unchanged, so a second call changes nothing |
| Cells.Cell.Reset | script.js:80-84 | the cell is free and not winning, whatever it was before |
| Rules.Initial | src/Game.js:13-16 | the starting board has one free, non-winning cell per coordinate pair, in order |
| Rules.CellsOf | src/Game.js:109-111 | a position is listed exactly when that cell is owned by the player; the list is strictly increasing (board order) |
| Rules.Fewest | src/Game.js:97-99 | the `reduce`: the result owns no more cells than the starting player or any player in the list, and it differs from the starting player only when it owns strictly fewer cells |
| Rules.CurrentPlayer | script.js:192-196 | the first player moves exactly when it owns no more cells than the second; a tie, 0–0 included, goes to the first |
| Rules.Candidates | src/Game.js:127-131 | the candidate lines in the order tried: the main diagonal, the anti-diagonal, then the row `i` (`x == i`) and the column `i` (`y == i`) for each `i` below `size` |
| Rules.Where | src/Game.js:122-125 | a position is kept exactly when it is among the player's cells and lies on the line; never more cells than given; an increasing input (no repeats) gives an increasing result, so its length counts distinct cells |
| Rules.FirstLong | src/Game.js:133 | the `find`: the found line has at least `size` cells and every earlier one fewer; nothing is found only when every line has fewer |
| Rules.WinningLine | src/Game.js:120-134 | a returned line has at least `size` distinct cells, in board order, all on the board and all owned by the player |
| Rules.FindWinner | src/Game.js:50 | the winner found is a listed player whose line is the returned one; nobody is found exactly when no listed player has a line; the first player wins when it has a line |
| Rules.MarkWinning | src/Game.js:70 | exactly the cells of the line become winning; owners and places are unchanged |
| Rules.End | script.js:164-167 | the outcome is the given winner, or a draw when there is none; the line's cells are marked; owners are unchanged |
| Rules.ResolveWinFirst | src/Game.js:48-61 | owners and places are unchanged by resolve |
| Rules.ResolveFullFirst | script.js:144-157 | owners and places are unchanged by resolve |
| Rules.Resolve | src/Game.js:48-61 | either ordering of resolve leaves owners and places unchanged |
| Rules.Claim | src/Game.js:39 | the claimed cell gets the player and every other cell is unchanged |
| Rules.Play | src/Game.js:37-43 | a click never moves a cell |
| Rules.Replay | script.js:133-139 | a sequence of clicks keeps the number of cells |
| Rules.Reset | src/Game.js:26-30 | the game is in progress and every cell is cleared |
| Rules.Message | script.js:237-247 | the status is the turn of the current player exactly while in progress, a victory for the winner exactly when won, and a draw otherwise |
| Games.Game.Board | src/Game.js:15-16 | the board snapshot reads each cell's state, position by position |
| Games.Game.State | src/Game.js:13 | the snapshot pairs the board with the `winner` field |
| Games.Game.constructor | src/Game.js:7-21 | fresh, distinct cells, one per coordinate pair, all free and not winning, and the game in progress |
| Games.Game.IsDone | src/Game.js:78-80 | holds exactly when `winner` is no longer "in progress" |
| Games.Game.IsPlayable | src/Game.js:87-89 | holds exactly when some cell is free |
| Games.Game.GetCells | src/Game.js:109-111 | every returned cell is a game cell owned by the player, every such cell is returned, and the count is that of `Rules.CellsOf` |
| Games.Game.GetCurrentPlayer | src/Game.js:96-100 | the first player exactly when it owns no more cells than the second |
| Games.Game.GetWinningLine | script.js:216-230 | a returned line has at least `size` distinct cells of the game, in board order, all owned by the player |
| Games.Game.GetMessage | src/Game.js:141-151 | the turn status exactly while not done, with the current player; the victory status exactly when won, with the winner |
| Games.Game.Reset | script.js:122-126 | every cell is cleared in place and `winner` is back to in progress |
| Games.Game.End | src/Game.js:68-71 | sets `winner` and marks every cell of the line winning, nothing else |
| Games.Game.ResolveWinFirst | src/Game.js:48-61 | the new state is `Rules.ResolveWinFirst` of the old one |
| Games.Game.ResolveFullFirst | script.js:144-157 | the new state is `Rules.ResolveFullFirst` of the old one |
| Games.Game.Take | src/Game.js:39 | the current player becomes the owner of the free clicked cell and nothing else changes |
| Games.Game.Play | src/Game.js:37-43 | the new state is `Rules.Play` of the old state at the clicked cell's position |
| Properties.SameOwnedSameCells | src/Game.js:109-111 | getCells only depends on which cells the player owns |
| Properties.SamePlacesSameWhere | src/Game.js:122-125 | whether a cell lies on a line only depends on its coordinates |
| Properties.SamePlacesSameFirstLong | src/Game.js:133 | the line found depends only on the places of the cells |
| Properties.WinningLineAgrees | src/Game.js:120-134 | getWinningLine depends only on the places of the cells and which ones the player owns |
| Properties.WinningLineIsFirst | src/Game.js:120-134 | getWinningLine is the first candidate holding at least `size` of the player's cells, and it is undefined exactly when every candidate holds fewer |
| Properties.SameGridSameWinner | src/Game.js:50 | marking cells winning does not change who resolve finds |
| Properties.SameGridSamePlayable | src/Game.js:87-89 | marking cells winning does not change whether the board is playable |
| Properties.NoOwnerNoCells | src/Game.js:109-111 | on a board without owners getCells is empty |
| Properties.NothingLong | src/Game.js:133 | with no cells, no candidate line is long enough |
| Properties.NoOwnerNoLine | src/Game.js:120-134 | on a board without owners nobody has a winning line |
| Properties.NoOwnerNoWinner | src/Game.js:50 | on a board without owners resolve finds no winner |
| Properties.CountIsCells | src/Game.js:109-111 | the number of cells getCells returns is the number of cells the player owns |
| Properties.ClaimCount | src/Game.js:39 | a claim adds one to the claimer's count and nothing to the other's |
| Properties.ClaimLastSlice | src/Game.js:39 | claiming the last cell leaves the cells before it as they were |
| Properties.ClaimSlice | src/Game.js:39 | claiming an earlier cell leaves the last cell alone |
| Properties.ClaimCounts | src/Game.js:39 | a claim adds one cell to the claimer's getCells and none to the other's |
| Properties.SameGridCounts | src/Game.js:96-100 | marking cells winning keeps the counts and the current player |
| Properties.BalancedMover | src/Game.js:96-100 | with balanced counts the first player moves exactly on equal counts and the second exactly when the first has one more |
| Properties.ClaimTurn | src/Game.js:38-39 | the current player's claim keeps the counts balanced and hands the turn to the other player |
| Properties.PlayLegal | src/Game.js:38-40 | a legal click claims the cell for the current player and then resolves |
| Properties.LegalPlay | src/Game.js:37-43 | a legal click gives the cell to the player whose turn it was, leaves every other owner alone, keeps the counts balanced and passes the turn |
| Properties.IgnoredPlay | script.js:133-139 | a click on a finished game or a taken cell changes nothing |
| Properties.WinWhilePlayable | script.js:150-156 | with a free cell left, both orderings make the first player with a line the winner and mark exactly that line |
| Properties.WinFirstFullBoard | src/Game.js:49-60 | on a full board src/Game.js ends in a draw, yet the line it found stays marked winning |
| Properties.FullFirstFullBoard | script.js:144-148 | on a full board script.js ends in a draw with no cell marked |
| Properties.OrderingsAgree | script.js:144-157 | the two orderings give the same outcome and differ in the marked cells only on a full board where a line was found |
| Properties.ResolveCases | src/Game.js:48-61 | resolve case by case: a full board is a draw; otherwise a found line wins with that line marked; otherwise nothing changes |
| Properties.WonCoherent | src/Game.js:52-55 | a win declared on a playable board leaves a coherent state |
| Properties.MarkedExactly | src/Game.js:68-71 | marking a line on a board with no winning cell marks exactly that line |
| Properties.DrawnCoherent | src/Game.js:57-60 | a draw declared on a full board leaves a coherent state |
| Properties.ResolveCoherent | src/Game.js:48-61 | resolve after a move leaves a coherent state |
| Properties.ResetCoherent | src/Game.js:26-30 | a reset leaves a coherent state |
| Properties.PlayCoherent | src/Game.js:37-43 | a click keeps the state coherent |
| Properties.LegalPlayCoherent | src/Game.js:38-40 | a legal click from a balanced board with no winning cell leaves a coherent state |
| Properties.ClaimKeepsNoneWinning | src/Cell.js:53-57 | a claim does not mark any cell winning |
| Properties.ReplayCoherent | script.js:133-139 | any sequence of clicks keeps the state coherent |
| Properties.TurnOrderFromReset | src/Game.js:96-100 | from a reset, whatever cells are clicked, the first player owns as many cells as the second or one more |
| Properties.OnlyMoverWins | src/Game.js:38-40 | from a coherent state, a click can only make the player who moved win |
| Properties.MoverOnly | src/Game.js:38-40 | when nobody had a line before the move, only the mover can win |
| Properties.ClaimKeepsOthersLines | src/Game.js:39 | a claim leaves the other player's winning line as it was |
| Properties.WinnerHasLine | src/Game.js:50-55 | whoever resolve declares the winner holds a winning line |
| Properties.FinishedStaysFinished | src/Game.js:78-80 | once the game is done, clicks change nothing |
| Properties.OwnersPersist | src/Cell.js:53-57 | an owner, once set, survives every later click |
| Properties.ResetForgetsMoves | src/Game.js:26-30 | after a reset only the places of the cells survive from earlier clicks |
| Properties.ReplayAfterReset | src/Game.js:26-30 | resetting and replaying the same clicks reproduces the same game |

## Left out

- The DOM view is not modelled. This covers `getIndex`, the click listeners and the `update` methods that write class names and message text. The coordinates of a cell are plain integers given to the constructor.
- The `new Game(...)` bootstrap and the `bind` calls are host wiring and are not modelled.
- The French message strings are not modelled. `getMessage` becomes the tag `Status` (`Turn`, `Victory` or `Draw`).
- A `Player` is only an identity here. Its `id` string is used only by the view.
- script.js's `Cell` and `Game` are the same classes as src/Cell.js and src/Game.js, apart from the view refresh inside the `Cell` mutators and the ordering in `resolve`. Each is modelled once, and `Game.ordering` selects the `resolve` of each copy.
- Lines and winning cells are given as positions in the cell sequence rather than as references to `Cell` objects. `Games.Game.Play` takes the clicked `Cell` object itself and must be one of the game's cells, as every listener in the source passes one.
- A board that is not square is not rejected at construction, because the code does not check it. The model takes any list of coordinate pairs.
- A final move that both completes a line and fills the board ends in a draw in both copies, and the model follows the code. `Properties.WinFirstFullBoard` and `Properties.FullFirstFullBoard` state what each copy does.
- `Rules.WinningLine` does not state in its own contract that it returns nothing when every candidate is short. That is stated separately by `Properties.WinningLineIsFirst`.
- `resolve` takes the line size from `getWinningLine`'s default of 3. Other sizes are modelled by `Rules.WinningLine` only.
