# Disappearing tic-tac-toe and its Monte Carlo tree search, in Dafny

This project models two parts of a tic-tac-toe variant:

- The rules engine (`game.py`). Each player keeps at most three pieces on the 3x3 board. Every player's move history starts as four `False` placeholders. A move appends the mover's cell, and once the list reaches four entries its head is dropped. Then, on every move, each player whose history head is a cell loses that piece.
- The Monte Carlo tree search that plays it (`mcts.py`). It uses an external policy/value function.

Modules, one per file:

| file | module | models |
|---|---|---|
| `results.dfy` | `Results` | `Option` and `Result` |
| `board.dfy` | `Board` | the free functions of `game.py`: the `str2list`/`list2str` conversions, `is_win`, the two move-id tables, `get_legal_position_id` |
| `game.dfy` | `Game` | the `Game` class: `init_board`, `availables`, `do_move`, `is_win`, `game_end`, `disappear`, `state`, and runs of moves |
| `game_runs.dfy` | `GameRuns` | how histories drain: one legal run of moves, and the history shapes every run follows |
| `tree.dfy` | `Tree` | `TreeNode`: `expand`, `update`, `update_recursive`, `get_score`, `select`, `is_leaf` |
| `search.dfy` | `Search` | `MCTS`: `playout`, `get_move`, `update_with_move` |

How the model represents the source:

- Boards are `seq<seq<int>>` holding 0 (empty), 1 (`X`) and 2 (`O`).
- A history is a `seq<Entry>`. An entry is `Placeholder`, standing for `False`, or `Placed(pos)`.
- Every Python exception reachable from a game started by `init_board` becomes an explicit `Err` (malformed boards, and `select` on a node without children, are preconditions instead; see "Left out"):
  - `KeyError` on an unknown move id;
  - `IndexError` on a history with no head (`do_move`) or no second entry (`disappear`);
  - the `AttributeError` described under Findings;
  - the `ValueError` of `max` on a root with no children.
- The search tree is an immutable value. A node is addressed by the sequence of actions that leads to it from the root:
  - the root is the node at the empty path (`is_root`);
  - "the parent chain" of a node is the set of prefixes of its path.

The expiry rule inspects both heads on every move, so histories shrink once pieces start expiring. This happens in every game, and it crashes the source's own drivers:

- `GameRuns.EveryGameDisappearRaises`: whatever ids 0..8 are chosen, `disappear` works for the first nine moves from `init_board(1)` and raises `IndexError` on player 1's history from the tenth move on. Both drivers read `disappear` right after every move, to print the board (play.py:39, 50, 63, 80 and game.py:295). So any game from `init_board(1)` that lasts ten moves ends in an `IndexError` there, before `do_move` itself raises.
- `GameRuns.EveryGameDrains`: whatever ids 0..8 are chosen, 13 moves from `init_board(1)` never raise and leave both histories empty, with player 2 to move; the 14th move always raises `IndexError` on player 1's history. Whether a move raises depends only on which history entries are cells, so every game follows the same trace of history shapes.
- `GameRuns.HistoryDrainsInLegalPlay`: one such game is legal play. Every one of its 13 moves is in `availables` and is made before the game has ended; three moves before the end, `disappear` already raises.

## Model

| member | source | states |
|---|---|---|
| Board.Str2List | game.py:8-28 | every cell the input has becomes 0 for `' '`, 1 for `'X'`, and 2 for anything else; cells the input lacks stay 0; the result is a 3x3 board over {0,1,2} |
| Board.List2Str | game.py:30-49 | every cell the input has becomes `' '` for 0, `'X'` for 1, and `'O'` for anything else; cells the input lacks stay `' '`; the result is a 3x3 board over the three characters |
| Board.CharBoardRoundTrip | game.py:8-49 | `list2str(str2list(b)) == b` for every 3x3 board of `' '`, `'X'`, `'O'` |
| Board.CodeBoardRoundTrip | game.py:8-49 | `str2list(list2str(b)) == b` for every 3x3 board over {0,1,2} |
| Board.RowWinFrom | game.py:93-95 | the row loop from row `from` on succeeds exactly when one of those rows is all `player` |
| Board.ColWinFrom | game.py:97-99 | the column loop from column `from` on succeeds exactly when one of those columns is all `player` |
| Board.IsWin | game.py:75-100 | `is_win` holds exactly when one of the eight lines (3 rows, 3 columns, 2 diagonals) is all `player` |
| Board.MoveIdTable | game.py:102-112 | the id table's keys are exactly 0..8, and id `k` is cell (k div 3, k mod 3) |
| Board.PosTable | game.py:114-124 | the cell table's keys are exactly the nine in-range cells, and cell (r, c) has id 3r + c |
| Board.MoveMapsAreInverse | game.py:102-124 | the two tables are mutual inverses |
| Board.PosOf | game.py:102-112 | an id in 0..8 names an in-range cell, which the reverse table maps back to the same id |
| Board.LegalFrom | game.py:137-142 | the loop's output from id `from` on is strictly increasing, and contains an id exactly when it is in `from`..8 and its cell is empty |
| Board.LegalPositionIds | game.py:126-142 | `get_legal_position_id` lists, in strictly increasing order, exactly the ids 0..8 whose cell is empty |
| Game.InitBoard | game.py:150-167 | an all-empty board, four placeholders per history, and no winner; player 1 moves first exactly when `start_player` is 1, and player 2 otherwise |
| Game.Availables | game.py:169-180 | the legal ids of the game's board: exactly the empty cells, increasing |
| Game.Push | game.py:194-201 | the mover's cell ends the list; the length grows by one, except that it stays the same once the appended list reaches four; every other entry comes from the old list |
| Game.PushKeepsOrder | game.py:194-201 | the entries before the new cell are the newest entries of the old list in their old order: at most the oldest entry is dropped |
| Game.Expire | game.py:203-211 | a cell at the head is cleared from the board and dropped from the list, with every other cell kept; a placeholder head changes nothing |
| Game.DoMove | game.py:182-215 | unknown id gives `KeyError`; for ids 0..8 the move fails exactly when the non-mover's history is empty (`IndexError` naming that player); a successful move keeps the game well-formed |
| Game.DoMoveKeepsValid | game.py:192-215 | a move keeps the board over {0,1,2}, the player to move in {1,2}, and the winner a player |
| Game.DoMoveWritesOnlyMoverMark | game.py:192-211 | after a move, every cell is unchanged, emptied, or the chosen cell holding the mover's mark |
| Game.DoMoveTurnAndWinner | game.py:213-215 | the turn passes to `3 - current_player`; a line of the mover's makes the mover the winner; nobody else is ever recorded; a recorded winner is never cleared |
| Game.DoMoveBoard | game.py:192-211 | the board after a successful move, cell by cell: a cell at the head of either history after the push becomes 0; otherwise the chosen cell holds the mover's mark and every other cell keeps its value |
| Game.DoMoveHistories | game.py:194-215 | after a successful move, each history is the old one with the mover's cell pushed onto the mover's list and then a cell head dropped; the turn passes to `3 - current_player` |
| Game.DoMoveKeepsHistoryBound | game.py:194-211 | a history of at most four entries stays within four after a move |
| Game.WinStatus | game.py:217-230 | `(True, winner)` once a winner is recorded, `(False, None)` before |
| Game.GameEnd | game.py:232-250 | ended with the recorded winner if there is one; otherwise ended without a winner exactly when no cell is empty |
| Game.Disappear | game.py:252-271 | the cells in the players' second history entries, one per player whose second entry is a cell, player 1's first; `IndexError` exactly when a history has fewer than two entries, player 1's being checked first |
| Game.ClearCells | game.py:285-288 | exactly the listed cells become 0, and every other cell is kept |
| Game.State | game.py:273-288 | the board with exactly the second-entry cells emptied; it raises exactly when `disappear` does |
| Game.Play | game.py:182-215 | a run of moves that has not raised leaves the game well-formed |
| Game.PlayAppend | game.py:182-215 | one more move after a run is `do_move` on the run's result; a run that raised stays raised |
| Game.HistoriesStayBounded | game.py:194-211 | over any run of moves, histories of at most four entries stay within four |
| Game.HistoriesBoundedFromStart | game.py:150-215 | from `init_board`, no history ever exceeds four entries |
| GameRuns.DrainingStepAt | game.py:182-215 | move `k` of the draining opening is made on an unfinished game with an empty target cell, and yields the next game of the trace |
| GameRuns.DrainingStartsFresh | game.py:150-167 | `init_board(1)` is the first game of the draining trace: empty board, four placeholders each, player 1 to move |
| GameRuns.DrainingRunIsLegal | game.py:169-215 | each of the 13 draining moves is made on a well-formed game that has not ended, is among `availables`, and yields the next game of the trace |
| GameRuns.DrainedHistoryRaises | game.py:203-206 | after the trace, player 1's history is empty with player 2 to move, and every id 0..8 then raises `IndexError` on `player1[0]` |
| GameRuns.DrainedDisappearRaises | game.py:252-271 | three moves before the end of the trace, `disappear` raises `IndexError` on player 1's missing second entry |
| GameRuns.HistoryDrainsInLegalPlay | game.py:194-211 | 13 legal moves from `init_board(1)`, none on a finished game, empty player 1's history; the next move of any id raises `IndexError`, and `disappear` raises three moves earlier |
| GameRuns.PushShapeAgrees | game.py:194-201 | appending a cell and dropping the head at four changes a history's shape the same way whatever the cell |
| GameRuns.DropHeadShape | game.py:203-211 | the expiry step changes a history's shape by dropping a cell head and keeping a placeholder head |
| GameRuns.DoMoveErrFollowsShapes | game.py:192-206 | for ids 0..8, a move raises exactly when the shape step does, with the same `IndexError` |
| GameRuns.DoMoveOkFollowsShapes | game.py:192-215 | a move that does not raise leaves the histories with the shapes the shape step computes, and passes the turn |
| GameRuns.PlayFollowsShapes | game.py:182-215 | a run of in-range moves from any well-formed game raises exactly as the shape run does, and otherwise ends in the shape the shape run reaches |
| GameRuns.RunShapesFollowsTrace | game.py:194-211 | from `init_board(1)`'s shapes, the shape run stays on a fixed 14-entry trace for 13 moves and raises `IndexError` for player 1 on the 14th |
| GameRuns.PlayFromStartFollowsTrace | game.py:150-215 | for every choice of up to 13 ids 0..8, the moves from `init_board(1)` succeed and reach the trace's history shapes for that many moves |
| GameRuns.EveryGameDisappearRaises | game.py:252-271 | for every choice of ids 0..8 from `init_board(1)`, `disappear` succeeds after at most nine moves and raises `IndexError` on player 1's history after ten to thirteen moves |
| GameRuns.EveryGameDrains | game.py:150-215 | for every choice of ids 0..8, 13 moves from `init_board(1)` succeed and empty both histories with player 2 to move; the 14th raises `IndexError` on player 1's history |
| Tree.Fresh | mcts.py:5-11 | a new node has no visits, Q 0, the given prior and no children |
| Tree.PathExtend | mcts.py:49-53 | stepping to a child of the node reached by a path reaches the node at the extended path |
| Tree.Expand | mcts.py:17-20 | the node's statistics and existing children are untouched; the children become the old ones plus the listed actions; each new child is fresh, with the prior of the first pair naming it |
| Tree.ExpandIdempotent | mcts.py:17-20 | expanding twice with the same pairs is the same as expanding once |
| Tree.Update | mcts.py:22-24 | one more visit, and the running sum grows by the value: new Q times new count = old Q times old count + value |
| Tree.UpdateStaysInRange | mcts.py:22-24 | Q stays in [-1, 1] when the value is in [-1, 1] |
| Tree.UpdateAllRunningSum | mcts.py:22-24 | k updates add k visits and the values' sum to the running sum |
| Tree.MeanOfUpdates | mcts.py:22-24 | after k >= 1 updates of a fresh node, Q is the mean of the k values |
| Tree.Backup | mcts.py:26-29 | the root is updated with (-1)^depth times the value, and its children keep their keys |
| Tree.BackupEffect | mcts.py:26-29 | the tree keeps its shape; each node on the path gets one update with the value, negated once per level between it and the updated node; every node off the path is unchanged |
| Tree.ExpandAt | mcts.py:57-58 | expanding a node below the root leaves the root's statistics alone |
| Tree.ExpandAtEffect | mcts.py:57-58 | the node at the path becomes its expansion; nodes above it keep their statistics and exactly their children's actions; every other existing node is unchanged |
| Tree.UpdateMovesTowardValue | mcts.py:22-24 | an update moves Q toward the value: the new Q lies between the old Q and the value |
| Tree.ExpandAndBackup | mcts.py:55-64 | expanding the reached node (or not) and backing up a value adds exactly one visit to the root, and the path still leads to a node |
| Tree.ExpandAndBackupEffect | mcts.py:55-64 | the tree keeps its existing paths; each node on the path gets one update with the value, negated once per level below it; nodes above the reached one keep exactly their children's actions; every other existing node is unchanged |
| Tree.ExpandAndBackupLeaf | mcts.py:56-58 | the reached node gains exactly the listed actions as children when expanded, and keeps its children otherwise |
| Tree.ArgMax | mcts.py:14-15 | `max` by key over a non-empty dict returns a key whose entry no other entry exceeds |
| Tree.Select | mcts.py:13-15 | `select` returns a child and its action whose `get_score` (Q + c_puct * P * sqrt(parent visits) / (1 + visits)) no sibling exceeds |
| Tree.Score | mcts.py:31-33 | with a non-negative exploration weight, the score is at least Q and exceeds it by at most c_puct * P * sqrt(parent visits) |
| Tree.ScoreFavoursFewerVisits | mcts.py:31-33 | when the weight c_puct * P * sqrt(parent visits) is non-negative: of two children with equal Q and prior, the one with fewer visits scores at least as high |
| Tree.ScoreFavoursLargerPrior | mcts.py:31-33 | when c_puct * sqrt(parent visits) is non-negative: of two children with equal Q and visits, the one with the larger prior scores at least as high |
| Tree.LeafIffNoPaths | mcts.py:35-36 | a node is a leaf exactly when no non-empty path leads from it |
| Search.NewMcts | mcts.py:42-46 | a fresh root with prior 1.0, and the given c_puct, playout count and policy |
| Search.LeafValue | mcts.py:55-63 | a won game scores +1 exactly when the winner is the player to move and -1 exactly otherwise; a draw scores 0; an unfinished game keeps the policy's estimate; an estimate in [-1, 1] gives a value in [-1, 1] |
| Search.LeafValueAsWritten | mcts.py:56-63 | the leaf scoring as written raises exactly on states with a recorded winner, and otherwise agrees with the intended scoring |
| Search.LeafValueAsWrittenCounterexample | mcts.py:63 | on a well-formed game won by player 1 with player 2 to move, the code as written raises; the intended value is -1 |
| Search.WinningMoveScoresForMover | mcts.py:56-64 | after a winning move, the value backed up into the node of that move is +1 |
| Search.Evaluate | mcts.py:55-64 | after the descent, the root gains one visit and the path still leads to a node |
| Search.EvaluateEffect | mcts.py:55-64 | every node on the path is updated with the negated leaf value, sign alternating per level; nodes above the leaf keep exactly their children's actions; every node off the path is unchanged |
| Search.EvaluateExpandsLeaf | mcts.py:56-58 | an unfinished game's leaf gains exactly the policy's actions as children; a finished game's leaf gains none |
| Search.DescentExtend | mcts.py:49-54 | a descent extended by one best-scoring action keeps every earlier choice |
| Search.Playout | mcts.py:48-64 | the descent follows best-scoring children to a leaf, playing each action; a rejected move returns `do_move`'s error with the tree unchanged; on success every node on the path gains one visit, nodes off it are unchanged, nodes above the leaf keep exactly their children's actions, the leaf gains exactly the policy's actions (none if the game has ended), and the tree is the leaf evaluation of the reached state |
| Search.GetMove | mcts.py:66-70 | the trees form a chain from the old root to the new one, each a playout of the previous (best-scoring descent to a leaf, then leaf evaluation); all playouts run exactly when the root gains `n_playout` visits; every old path stays valid and no node loses visits; the move returned is a most-visited root child; no children gives `NoLegalMoves`; a playout's move error is returned, with fewer visits, together with that playout's descent on the last tree: best-scoring choices whose moves are accepted up to the last, which raises that error |
| Search.UpdateWithMove | mcts.py:72-77 | only the root changes; an unexplored move gives a fresh root with prior 1.0 |
| Search.UpdateWithMoveKeepsSubtree | mcts.py:72-75 | after re-rooting on an explored move, a path from the new root is valid exactly when that move followed by the path was, and it reaches the same node |

## Left out

- `print_board` (game.py:51-73) and the interactive `__main__` loop of `game.py`: terminal I/O only.
- `play.py`: the human-versus-search driver. It is I/O around the modelled operations.
- `Game.__init__` (game.py:145-148) is not a separate member. It sets the same board and histories as `init_board` (`Game.InitBoard`) but no player to move and no winner; `play.py` reads only the board and `disappear` of such a game before calling `init_board`.
- `numpy.sqrt`: the square root of the parent's visit count is a parameter `sqrt: nat -> real`. Visit counts are Python floats, and the model uses `nat` and exact reals, so float rounding is not modelled.
- The policy/value function is an uninterpreted parameter. Only its two results (pairs and estimate) are used.
- `copy.deepcopy` of the state in `get_move`: each playout starts from the same immutable `Game` value, which is what the copy achieves.
- Tree.ArgMax: does not fix which of several equal maxima is returned. Python returns the first in dict insertion order; the model states only that the result is maximal.
- Tree.Select: same tie-breaking gap as `ArgMax`.
- Tree.Select: requires a node with children. On a leaf, `max` raises `ValueError`, but `playout` only selects from nodes that are not leaves.
- Search.GetMove: same tie-breaking gap as `ArgMax`.
- `TreeNode.is_root` and the parent pointers: the root is the node at the empty path, and a node's ancestors are the nodes at the prefixes of its path. `update_with_move` detaching the new root's parent is implicit.
- `TreeNode.U`: the cached exploration term that `get_score` stores and nothing reads.
- Board.Str2List: a board whose first three rows hold more than three cells, or which has a non-empty row after the third, raises `IndexError` in the source; extra empty rows are accepted. The model's precondition `FitsIn3x3` is exactly the non-raising case, instead of an error result.
- Board.List2Str: same 3x3 precondition as `Str2List`.
- Game.GameEnd: requires a 3x3 board. The class only ever holds one.
- Board.IsWin: requires a 3x3 board. The class only ever holds one.
- Board.LegalPositionIds: requires a 3x3 board. The source reads the nine cells through the move-id table, so it raises `IndexError` on a smaller board and reads only the top-left 3x3 cells of a larger one; the model covers neither. The class only ever holds a 3x3 board.
- Game.DoMove: a `current_player` outside {1, 2} is handled exactly as the code does (it counts as player 2), but only `Valid` games are shown to stay valid.
- Game.DoMove: when it raises `IndexError`, the source has already written the mark and pushed the history on the live object; the model returns only the error, since nothing in the core catches it and the half-updated game is never used.
- Search.NewMcts: the defaults `c_puct=1.0` and `n_playout=2000` are not modelled as defaults; both are always passed.
- The randomised policy of play.py:14-20 draws fresh priors on every call; a fixed `Policy` function cannot express that, so a random policy is modelled only as one fixed draw per state.

## Findings

| source | as written | input that shows it | evidently intended | confidence | as-written member | corrected member |
|---|---|---|---|---|---|---|
| mcts.py:63 | compares the winner with `state.current_player_id`, an attribute `Game` never defines, so every playout that reaches a won game raises `AttributeError` | a playout whose leaf state has a recorded winner, e.g. the board `[[1,1,1],[2,2,0],[0,0,0]]` won by player 1 with player 2 to move | compare with `state.current_player`: +1 if the winner is the player to move, -1 otherwise | high (not executed) | Search.LeafValueAsWritten, whose contract states it raises exactly on recorded winners, and Search.LeafValueAsWrittenCounterexample | Search.LeafValue, used by Search.Evaluate; Search.WinningMoveScoresForMover proves a win is backed up as +1 for the player who made it |
