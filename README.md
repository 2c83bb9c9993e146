# 3D tic-tac-toe engine, modelled in Dafny

This project models the game engine of `ttt.py`, a 3x3x3 tic-tac-toe game.
It covers two classes:

- `Board`: the 27 cells, the sorted list `allowed_moves`, and the table of 49
  winning combinations. Its queries are `get_moves`, `available_combos`,
  `winner`, `winning_combo`, `complete`, `find_value` and `check_available`.
  Its mutators are `move` and `undo_move`.
- `AIPlayer`: `do_turn` and `think_ahead`. `think_ahead` is a minimax search
  with alpha-beta pruning. It runs on the shared board: it plays a move,
  looks ahead, and undoes the move again. `depth_count` counts the nodes it
  expands.

The model is layered as follows:

- `PyList` (`py_list.dfy`): the two operations of Python's `list` the game
  uses. `list.remove` is `RemoveFirst` and `list.sort` is `SortList`, both
  as functions on values.
- `Rules` (`rules.dfy`): the game as functions on a value `State(cells,
  allowed)`. This covers the move and undo of a cell, the queries, and the
  invariant `Consistent`: every empty cell holds its own index, and
  `allowed_moves` is exactly the list of empty cells in ascending order.
- `GameBoard` (`board.dfy`): class `Board`, with the cells in an `array` and
  `allowedMoves` a field the methods reassign. The queries `GetMoves`,
  `AvailableCombos`, `Winner`, `Complete`, `WinningCombo` and
  `CheckAvailable` are proved equal to their functions in `Rules`. `Move`
  and `UndoMove` are proved to leave `Moved` and `Undone` of the old state,
  and `move` to keep `Consistent`. `Find`, `FindValue` and `CreateBoard`
  have no function in `Rules`: their contracts state the index arithmetic
  and the cell contents directly.
- `Search` (`search.dfy`): `think_ahead` as the mutually recursive functions
  `Minimax`, `MaxScan` and `MinScan`, which thread `depth_count` through the
  search. `do_turn` is `DoTurn`. The lemmas state what `do_turn` chooses.
- `AIPlayers` (`ai_player.dfy`): class `AIPlayer`, whose methods search the
  shared `Board` in place. Each is proved to compute its `Search` function.
  `ThinkAhead`, `Maximise`, `Minimise`, `Explore` and `EnemyWins` are also
  proved to leave the board as they found it. `DoTurn`, `TurnLoop`,
  `Consider` and `Score` leave the chosen move on the board, and are proved
  to restore the board otherwise.

The nested board `board[i][x][y]` is stored as one array in nested order, so
cell (i, x, y) is index 9i + 3x + y, which is the number `create_board`
writes there. An empty cell is `Free(k)` and an occupied one is `Mark(X)` or
`Mark(O)`; Python mixes an `int` and a `str` in the same list.

`ttt.py` has no gravity rule (no move unlocks the cell above another), no
move counter, no `IllegalMoveError` type, no random player and no
`nodes_examined` counter, and the model has none of them either. All 27 cells are allowed from the start, a move that is not allowed
fails the way `list.remove` does, and `do_turn` is the single loop with the
1001 block score.

## Model

| member | source | states |
|---|---|---|
| Rules.Enemy | ttt.py:342-347 | the enemy of a player is the other player |
| Rules.InitialCells | ttt.py:91-109 | the new board has 27 cells and cell k holds k |
| Rules.InitialAllowed | ttt.py:53-56 | `allowed_moves` starts as 27 entries, entry k being k |
| Rules.PositionsMembers | ttt.py:111-128 | an index is listed iff it is below the bound and its cell has the given occupant |
| Rules.PositionsAscending | ttt.py:111-128 | the scan in nested order lists indices strictly ascending |
| Rules.Moves | ttt.py:111-128 | `get_moves(p)` lists indices in strictly ascending order |
| Rules.MovesMembers | ttt.py:111-128 | `get_moves(p)` lists exactly the cells that hold `p`'s mark |
| Rules.PositionsCount | ttt.py:111-128 | each index occurs once in the list if its cell matches, otherwise never |
| Rules.Moved | ttt.py:210-220 | `move(p, pl)` puts `pl`'s mark in cell `p`, keeps 27 cells and shortens the allowed list by one |
| Rules.Undone | ttt.py:203-208 | `undo_move(p)` puts `p` back in cell `p`, keeps 27 cells and lengthens the allowed list by one |
| Rules.MovedSortIsIdle | ttt.py:210-212 | on a sorted allowed list, the `sort` after `remove` changes nothing: the new list is the old one without `p` |
| Rules.MovedFacts | ttt.py:210-220 | after `move`, the allowed list is sorted and has lost exactly one `p`; cell `p` holds the mark and no other cell changed |
| Rules.UndoneFacts | ttt.py:203-208 | after `undo_move`, the allowed list is sorted and has gained exactly one `p`; cell `p` holds `p` again and no other cell changed |
| Rules.FirstOwned | ttt.py:154-166 | the index of the first combination inside the positions, with none inside before it, or None when there is none |
| Rules.CountAvailable | ttt.py:194-201 | the count over the first n combinations is at most n |
| Rules.Heuristic | ttt.py:335-340 | `simple_heuristic` lies within minus to plus the number of combinations (-49..49 for the table) |
| Rules.InitialConsistent | ttt.py:53-56 | the new board satisfies the invariant: every cell empty and holding its index, all allowed in order |
| Rules.FreeCount | ttt.py:203-220 | each index occurs in the free-cell list once if its cell is empty, otherwise never |
| Rules.FreeIndicesFromCount | ttt.py:203-220 | a sorted list that counts each index as the free-cell list does is the free-cell list |
| Rules.MovedCounts | ttt.py:210-220 | after `move`, each index occurs in the allowed list once if its cell is empty, otherwise never |
| Rules.MovedCount | ttt.py:210-220 | the same for one index |
| Rules.UndoneCounts | ttt.py:203-208 | after `undo_move` of an occupied cell, each index occurs in the allowed list once if its cell is empty, otherwise never |
| Rules.UndoneCount | ttt.py:203-208 | the same for one index |
| Rules.AllowedIsFree | ttt.py:210-220 | on a consistent board an allowed move is a cell index whose cell is empty |
| Rules.MoveKeepsConsistent | ttt.py:210-220 | `move` of an allowed cell keeps the invariant |
| Rules.MovedPlayable | ttt.py:210-220 | `move` of an allowed cell keeps every allowed move a cell index |
| Rules.MovedAllowed | ttt.py:210-220 | after `move`, the allowed list is exactly the list of empty cells |
| Rules.UndoKeepsConsistent | ttt.py:203-208 | `undo_move` of an occupied cell keeps the invariant |
| Rules.UndonePlayable | ttt.py:203-208 | `undo_move` keeps every allowed move a cell index |
| Rules.UndoneAllowed | ttt.py:203-208 | after `undo_move` of an occupied cell, the allowed list is exactly the list of empty cells |
| Rules.UndoMoveRoundTrip | ttt.py:203-220 | `undo_move(p)` after `move(p, pl)` restores cells and list, when the list was sorted, held `p`, and cell `p` held `p` |
| Rules.UndoMoveRestoresAllowed | ttt.py:203-220 | `undo_move(p)` after `move(p, pl)` restores a sorted allowed list holding `p` |
| Rules.MoveThenUndo | ttt.py:203-220 | on a consistent board, `undo_move(p)` after `move(p, pl)` of an allowed `p` restores the whole state |
| Rules.Winner | ttt.py:168-180 | a winner, when there is one, has a combination whose three cells hold its mark |
| Rules.WinningLine | ttt.py:154-166 | `winning_combo` gives a line only when there is a winner; the line is in the table and all three of its cells hold the winner's mark |
| Rules.Complete | ttt.py:141-152 | a board with a winner is complete |
| Rules.OwnsIffFilled | ttt.py:168-180 | a combination lies inside `get_moves(p)` iff all three of its cells hold `p`'s mark |
| Rules.WinnerIff | ttt.py:168-180 | `winner` is X iff X fills a combination, O iff X does not and O does, None iff neither does |
| Rules.WinningLineIsFirstFilled | ttt.py:154-166 | with a winner, `winning_combo` is the first combination the winner fills |
| Rules.NoWinnerNoLine | ttt.py:154-166 | without a winner, `winning_combo` is None |
| Rules.CompleteIff | ttt.py:141-152 | `complete` holds iff there is a winner, or neither player has a combination whose cells are all allowed or already theirs |
| Rules.ComboAvailableIff | ttt.py:130-152 | on a consistent board, a player can still fill a combination iff the enemy has no mark on it |
| Rules.CompleteIffContested | ttt.py:141-152 | on a consistent board, `complete` holds iff there is a winner or every combination holds both an X and an O |
| Rules.CountAvailableIsWinnable | ttt.py:194-201 | on a consistent board `check_available(p, enemy)` counts exactly the combinations `p` can still fill |
| Rules.CombosCount | ttt.py:31-48 | the table has 49 combinations |
| PyList.RemoveFirst | ttt.py:210-211 | `list.remove(x)` of a present `x` shortens the list by one |
| PyList.SortList | ttt.py:203-220 | `list.sort` keeps the length |
| PyList.SortListOfSorted | ttt.py:210-212 | sorting a sorted list gives the same list |
| PyList.InsertFacts | ttt.py:203-206 | inserting into a sorted list keeps it sorted and adds exactly one element |
| PyList.SortListFacts | ttt.py:203-220 | `list.sort` gives a sorted list with the same elements |
| PyList.RemoveFirstFacts | ttt.py:210-211 | `list.remove(x)` of a present `x` takes away exactly one `x` |
| PyList.RemoveFirstSorted | ttt.py:210-212 | removing an element keeps a sorted list sorted |
| PyList.SortedUnique | ttt.py:203-220 | two sorted lists with the same elements are equal, so sorting again after a round trip gives the same list |
| GameBoard.Board.constructor | ttt.py:53-56 | the new board satisfies the invariant, all cells empty and holding their index, all 27 moves allowed, and the table is the 49 combinations |
| GameBoard.Board.CreateBoard | ttt.py:91-109 | a fresh 27-cell board where cell k holds k |
| GameBoard.Board.Find | ttt.py:58-74 | `find(key)` gives (i, x, y) in range with 9i + 3x + y == key for keys 0..26, and None for any other key |
| GameBoard.Board.GetMoves | ttt.py:111-128 | `get_moves(player)` is the ascending list of the player's cells |
| GameBoard.Board.AvailableCombos | ttt.py:130-139 | `available_combos(player)` is the allowed list followed by the player's cells |
| GameBoard.Board.Winner | ttt.py:168-180 | `winner` equals the rule `Rules.Winner`: X first, then O, then None |
| GameBoard.Board.Complete | ttt.py:141-152 | `complete` equals the stalemate rule `Rules.Complete` |
| GameBoard.Board.WinningCombo | ttt.py:154-166 | `winning_combo` is the first combination the winner holds, or None |
| GameBoard.Board.FindValue | ttt.py:182-192 | `find_value(key)` is the content of cell `key` |
| GameBoard.Board.CheckAvailable | ttt.py:194-201 | `check_available(p, e)` counts the combinations where every cell is `p`'s or not `e`'s |
| GameBoard.Board.UndoMove | ttt.py:203-208 | the new state is `Undone` of the old one, and the invariant holds again when it held and the cell was occupied |
| GameBoard.Board.Move | ttt.py:210-220 | fails, changing nothing, iff `position` is not allowed; otherwise the new state is `Moved` of the old one; the invariant is kept |
| GameBoard.Board.AfterUndo | ttt.py:203-208 | the fields `undo_move` leaves form `Undone` of the state before |
| GameBoard.Board.AfterMove | ttt.py:210-220 | the fields `move` leaves form `Moved` of the state before, and keep the invariant |
| Search.Minimax | ttt.py:285-298 | `think_ahead` does not lower `depth_count` and stops raising it at the ply; with alpha and beta in -1000..1000 its value is in -1000..1000 |
| Search.MaxScan | ttt.py:299-315 | the maximising loop never lowers alpha, and its value is at most 1000 |
| Search.MinScan | ttt.py:316-332 | the minimising loop never raises beta, and its value is at least -1000 |
| Search.Reply | ttt.py:265 | `think_ahead(enemy, -1000, 1000)` returns a value in -1000..1000 |
| Search.Trials | ttt.py:259-281 | there is one pass per allowed move |
| Search.Finishes | ttt.py:259-263 | a move after which there is a winner completes the game |
| Search.Threat | ttt.py:273-280 | the enemy's move is a threat iff it gives the enemy a full combination, and, when the enemy is O, gives X none |
| Search.Weigh | ttt.py:264-280 | one pass never lowers the best score; it keeps the best pick or picks the move tried; a reply at least the best score is reached; a threat scores at least 1001 |
| Search.Pass | ttt.py:259-281 | the loop never lowers the best score it started from, and leaves `depth_count` at its start value or at 0 |
| Search.DoTurn | ttt.py:253-283 | `do_turn` leaves a best score of at least -1000 and `depth_count` at its start value or at 0 |
| Search.RootReplies | ttt.py:259-272 | there is one reply per allowed move |
| Search.PassChoiceTried | ttt.py:259-283 | the move `do_turn` plays is the best one so far or one of the moves tried |
| Search.PassChooses | ttt.py:264-283 | once a move is left to try from score -1000, `do_turn` settles on a move |
| Search.PassTakesFirstFinish | ttt.py:259-263 | the loop stops at the first move that completes the game |
| Search.PassWithoutFinish | ttt.py:259-281 | without a completing move the loop runs to the end, leaving `depth_count` at 0 after any pass |
| Search.PassPicksBest | ttt.py:264-272 | without finishes or threats the best score is at least every reply; it stays the old pick when no reply reaches the old score, and otherwise comes from a move tried whose reply is above every later reply (`>=` lets a later equal reply win) |
| Search.PassPicksLastBest | ttt.py:264-272 | without finishes or threats, a loop from score -1000 picks the last move whose reply is the highest |
| Search.QuietTrials | ttt.py:259-281 | without finishes or threats, every pass records its own move and its reply, and no finish or threat |
| Search.PassTakesLastThreat | ttt.py:273-280 | without a completing move, the last move the enemy could win with is picked, with score 1001 |
| Search.PassKeepsBlock | ttt.py:273-280 | a block scored 1001 is not displaced by later moves without threat |
| Search.TrialAt | ttt.py:259-281 | the k-th pass plays the k-th allowed move and records whether it completes the game, its reply and its threat |
| Search.TrialsFacts | ttt.py:259-281 | every pass plays its own allowed move and every reply is in -1000..1000 |
| Search.DoTurnPlays | ttt.py:253-283 | whenever a move is allowed, `do_turn` plays one of the allowed moves |
| Search.DoTurnTakesFirstFinish | ttt.py:259-263 | `do_turn` plays the first allowed move that completes the game |
| Search.DoTurnBlocksLastThreat | ttt.py:273-283 | with no completing move, `do_turn` plays the last allowed move the enemy could win with |
| Search.DoTurnPicksBest | ttt.py:253-283 | with no completing move and no threat, `do_turn` plays the last allowed move whose reply is the highest |
| AIPlayers.AIPlayer.constructor | ttt.py:247-251 | the player keeps its board, piece and ply, with `depth_count` 0 |
| AIPlayers.AIPlayer.SimpleHeuristic | ttt.py:335-340 | `simple_heuristic` is `Heuristic` of the board, within minus to plus the number of combinations |
| AIPlayers.AIPlayer.ThinkAhead | ttt.py:285-298 | `think_ahead` returns the value and leaves the `depth_count` of `Minimax`, with the board and its invariant as before |
| AIPlayers.AIPlayer.Maximise | ttt.py:299-315 | the maximising loop returns the value and `depth_count` of `MaxScan` and restores the board |
| AIPlayers.AIPlayer.Minimise | ttt.py:316-332 | the minimising loop returns the value and `depth_count` of `MinScan` and restores the board |
| AIPlayers.AIPlayer.Explore | ttt.py:302-312 | one pass of either loop: tells whether the move completes the game, gives the reply of `Minimax` otherwise, and restores the board |
| AIPlayers.AIPlayer.DoTurn | ttt.py:253-283 | `do_turn` ends with the `depth_count` of `Search.DoTurn` and with exactly the move `Search.DoTurn` plays added to the board, an allowed cell; with an allowed move and at most 1000 combinations it always plays one |
| AIPlayers.AIPlayer.TurnLoop | ttt.py:259-281 | the loop of `do_turn` stops at the move `Search.DoTurn` wins with, leaving it on the board, or ends with the board restored and the pick of `Search.DoTurn` |
| AIPlayers.AIPlayer.Consider | ttt.py:259-281 | one pass of the loop of `do_turn`: a completing move stays on the board; otherwise the pick is updated as `Weigh` says and the board restored |
| AIPlayers.AIPlayer.Score | ttt.py:260-272 | the AI's move either completes the game and stays, or is scored by `Minimax` with `depth_count` reset to 0 and undone |
| AIPlayers.AIPlayer.EnemyWins | ttt.py:274-280 | whether the enemy, playing the move, would complete the game as winner; the board is restored |

## Left out

- `Board.display`, `HumanPlayer` and the `__main__` block: terminal output,
  keyboard input and argument parsing.
- `find_combo`: nothing calls it.
- The unused `arr` parameter of `find`: `Find` reads nothing but the key.
- Python's dynamic typing: a cell is `Free(k)` or `Mark(player)` rather than
  an `int` or a `str`. The table of combinations is the constant `Combos`,
  and the players tuple is the constant `Players`.
- The nested lists of the board: the 27 cells are one `array` in nested
  order, and `find` gives the (i, x, y) of an index.
- GameBoard.Board.UndoMove: requires a cell index. The source would raise
  on any other position once `find` returns None.
- GameBoard.Board.FindValue: requires a cell index for the same reason.
- GameBoard.Board.Move: a position that is not allowed makes
  `list.remove` raise ValueError. The model returns `ok == false` with
  nothing changed instead of raising.
- AIPlayers.AIPlayer.DoTurn: when no move is chosen, `move(None, piece)`
  raises. The model returns `ok == false` with the board unchanged.
- AIPlayers.AIPlayer.ThinkAhead: every method of `AIPlayer` that plays
  moves requires the board invariant `Valid`, which every board keeps from
  its creation on. A board taken apart by hand is not covered.
- `think_ahead` is one method in the source. The model splits it into
  `ThinkAhead`, the two loops `Maximise` and `Minimise`, and `Explore` for
  the body of either loop. `Explore` undoes the move before it returns, and
  `Maximise` or `Minimise` then update alpha or beta. The source updates
  first and undoes the move in both branches of the update. The update
  touches only local values, so the board ends the same way.
- The loop of `do_turn` is split into `TurnLoop`, `Consider`, `Score` and
  `EnemyWins`. `Score` undoes the move before `best_score` is updated,
  where the source updates first; the update touches only local values.
- Python iterates `for move in self.board.allowed_moves` while `move` and
  `undo_move` change that list. The model indexes the live list. Each pass
  restores it exactly (`Rules.MoveThenUndo`), so the passes see the same
  list as an iteration over a snapshot would.
- `do_turn` breaks on a move that completes the game; the model returns
  there, with the move on the board, instead of testing `win` after the
  loop.
- Search.Minimax: its bound on the value assumes at most 1000
  combinations, as the heuristic is then inside -1000..1000; the table has
  49.
- Search.DoTurnPlays: is stated for at most 1000 combinations for the same
  reason.
- Search.DoTurnPicksBest: is stated for at most 1000 combinations for the
  same reason.
