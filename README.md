# Connect Four AI, in Dafny

This project models the game engines of a Connect Four AI. The program has two
families of engine.

**The dense-grid engines** work on a 6 x 7 board of 0 (empty), 1 (the player)
and 2 (the AI):
- `base_game.py` holds the board helpers. `connect4-offline.py` and
  `connect4-v2-fast.py` repeat them, the latter with other window weights.
- `connect4-offline.py` searches with alpha-beta and counts nodes.
- `connect4-v2-fast.py` searches with alpha-beta and counts nothing.
- `play_minimax_basic.py` searches without pruning.

**The bitboard engine** lives in `Connect4-Bitboard/`:
- a `State` holds two Python integers, the AI's pieces and every occupied
  cell, seven bits per column with a sentinel bit on top;
- `alphabeta_search` is alpha-beta with a table of seen positions;
- `basic_minimax` is plain minimax;
- two `Game` drivers (`play_bitboard.py` and `play_game.py`) alternate the
  human's move and the AI's move and raise the search depth every five rounds.

The Dafny modules follow the program:

| module | file | models |
|---|---|---|
| `BitSets` | bits.dfy | Python's unbounded integers as sets of bit positions, and the operators the bitboards use |
| `GameState` | game_state.py's `State` | win test, draw test, moves, heuristic, children in centre-first order, fingerprint |
| `AlphaBetaSearch` | minimax_alphabeta.py | `alphabeta_search` |
| `BasicMinimax` | minimax.py | `basic_minimax` |
| `Play`, `PlayBitboard`, `PlayGame` | play_bitboard.py, play_game.py | the game drivers |
| `Grid` | base_game.py | the grid helpers |
| `GridSearch` | connect4-offline.py, connect4-v2-fast.py, play_minimax_basic.py | the three grid searches |
| `GridTheory` | — | what the grid searches promise, proved about their specifications |

Each search that mutates state or loops is a method, proved equal to a
specification function that follows the same loop. Properties are then proved
about those functions. The main ones:
- the pruned grid search returns the column and the score of plain minimax at
  the root window;
- `node_count` is an accumulator that never steers the search;
- the plain search counts exactly the internal nodes of the tree, and the
  pruned one never counts more;
- the bitboard win test finds exactly the runs of four;
- children come in centre-first order, one per open column, each with one
  more piece;
- the drivers keep the depth schedule 7, 8, 9, 10 as an invariant.

## Model

| member | source | states |
|---|---|---|
| BitSets.ShrMember | Connect4-Bitboard/game_state.py:20 | bit i of `a >> k` is bit i + k of a |
| BitSets.AddPow2Value | Connect4-Bitboard/game_state.py:125 | the carry-propagating set operation for `mask + (1 << k)` adds 2^k to the integer the set stands for |
| BitSets.ValueInsert | Connect4-Bitboard/game_state.py:125 | setting a clear bit k adds 2^k to the integer |
| BitSets.CarryRun | Connect4-Bitboard/game_state.py:125 | adding 1 at the bottom of a run of set bits clears the run and sets the bit above it |
| BitSets.RunMember | Connect4-Bitboard/game_state.py:125 | membership of a run of bits is exactly its index interval |
| GameState.HumanBitboard | Connect4-Bitboard/game_state.py:14-16 | when the AI's pieces are inside the occupancy, `ai ^ game` is disjoint from them and together they make up the occupancy |
| GameState.State.Human | Connect4-Bitboard/game_state.py:14-16 | the same, for the property on a State |
| GameState.ReduceAt | Connect4-Bitboard/game_state.py:18-36 | bit i survives `m & (m >> 2s)` with `m = b & (b >> s)` iff bits i, i+s, i+2s, i+3s are all set |
| GameState.ReduceNonEmpty | Connect4-Bitboard/game_state.py:18-36 | that mask is non-zero iff a run of four exists along stride s |
| GameState.FourInARowSpec | Connect4-Bitboard/game_state.py:18-36 | four_in_a_row is true iff some cell starts a run of four along stride 7, 6, 8 or 1 |
| GameState.OpenRowFrom | Connect4-Bitboard/game_state.py:125 | the lowest clear row of a column at or above r: every row below it is set |
| GameState.OpenRow | Connect4-Bitboard/game_state.py:125 | the lowest clear row of a column: every row below it is set and it is clear (or 6) |
| GameState.MoveMaskAddsOneBit | Connect4-Bitboard/game_state.py:130 | `mask \| (mask + (1 << 7col))` on a column whose top cell is clear adds exactly the lowest free cell |
| GameState.MakeMoveAddsOneBit | Connect4-Bitboard/game_state.py:122-126 | make_move gives the mover the new cell and the occupancy one more cell |
| GameState.MakeMoveOpponentAddsOneBit | Connect4-Bitboard/game_state.py:128-131 | make_move_opponent keeps the position and adds the one new cell to the occupancy |
| GameState.MoveKeepsStacked | Connect4-Bitboard/game_state.py:122-131 | a move keeps every piece resting on the one below and off the sentinel row |
| GameState.Heuristic | Connect4-Bitboard/game_state.py:58-77 | an AI win scores 1..22, a human win -22..-1, and a non-terminal node ±sys.maxsize |
| GameState.HeuristicPrefersQuickWins | Connect4-Bitboard/game_state.py:58-68 | a win found earlier scores at least as well for its side, and strictly better two plies earlier |
| GameState.ColumnAt | Connect4-Bitboard/game_state.py:83 | the column formula yields a column 0..6 |
| GameState.ColumnAtIsCentreOrder | Connect4-Bitboard/game_state.py:82-83 | the formula gives the order 3, 2, 4, 1, 5, 0, 6 |
| GameState.OpenColumnsUpToSpec | Connect4-Bitboard/game_state.py:81-84 | the first n columns of that order that are not full, each once, in order |
| GameState.OpenColumnsSpec | Connect4-Bitboard/game_state.py:81-84 | a column is listed iff its top cell is clear; the order is kept; none is listed iff is_draw |
| GameState.ChildrenSpec | Connect4-Bitboard/game_state.py:79-92 | one child per open column, in that order, one ply deeper, with the right side's piece added and the position kept legal |
| GameState.NoChildrenIffDraw | Connect4-Bitboard/game_state.py:38-39 | a position has no children iff is_draw holds |
| GameState.EqualKeysSameSearch | Connect4-Bitboard/game_state.py:98-103 | positions equal under `__eq__` have the same terminal status, the same side to move and pairwise-equal children |
| GameState.State.constructor | Connect4-Bitboard/game_state.py:6-12 | fields as given, status 3 |
| GameState.State.EqualsIsKeyEquality | Connect4-Bitboard/game_state.py:101-103 | `__eq__` compares both bitboards and the parity of depth |
| GameState.State.TerminalNodeTest | Connect4-Bitboard/game_state.py:41-56 | true iff the AI won, the human won or the board is full, tested in that order; status is set accordingly and is untouched otherwise |
| GameState.State.GenerateChildren | Connect4-Bitboard/game_state.py:79-92 | the fresh children are exactly the specification's children, distinct objects with status 3 |
| GameState.PositionsSnoc | Connect4-Bitboard/game_state.py:92 | appending a yielded child appends its position |
| GameState.ChildrenOfSnoc | Connect4-Bitboard/game_state.py:81-92 | one more column gives one more child |
| AlphaBetaSearch.MaxNodeGrows | Connect4-Bitboard/minimax_alphabeta.py:7-26 | max_value never removes a fingerprint from `seen` and counts at least its own node |
| AlphaBetaSearch.MaxLoopGrows | Connect4-Bitboard/minimax_alphabeta.py:12-26 | the same for the loop of max_value |
| AlphaBetaSearch.MinNodeGrows | Connect4-Bitboard/minimax_alphabeta.py:28-47 | the same for min_value |
| AlphaBetaSearch.MinLoopGrows | Connect4-Bitboard/minimax_alphabeta.py:33-47 | the same for the loop of min_value |
| AlphaBetaSearch.MaxLoopRecordsChildren | Connect4-Bitboard/minimax_alphabeta.py:12-22 | without a beta cut-off every remaining child ends up in `seen` |
| AlphaBetaSearch.MinLoopRecordsChildren | Connect4-Bitboard/minimax_alphabeta.py:33-43 | without an alpha cut-off every remaining child ends up in `seen` |
| AlphaBetaSearch.MaxLoopAllSeen | Connect4-Bitboard/minimax_alphabeta.py:13-14 | when every child is already seen, max_value returns +sys.maxsize and one node |
| AlphaBetaSearch.MinLoopAllSeen | Connect4-Bitboard/minimax_alphabeta.py:34-35 | when every child is already seen, min_value returns -sys.maxsize and one node |
| AlphaBetaSearch.DepthCutoffIgnoresWins | Connect4-Bitboard/minimax_alphabeta.py:53 | past the depth limit the terminal test is short-circuited: ±sys.maxsize by ply parity, even for a won position |
| AlphaBetaSearch.RootLoopChoice | Connect4-Bitboard/minimax_alphabeta.py:54-61 | from any loop state the root reports no action iff its score is -sys.maxsize, else a valid child index; the choice changes only to a later child with a strictly higher score |
| AlphaBetaSearch.RootLoopFromPrefix | Connect4-Bitboard/minimax_alphabeta.py:54-61 | running the root loop from the state it had after k children gives the same result as running it from the start |
| AlphaBetaSearch.RootPrefixChoice | Connect4-Bitboard/minimax_alphabeta.py:54-61 | after k children the best action is None iff the score is -sys.maxsize, otherwise the chosen child's value (searched with the alpha and table it met) is the score, no child seen so far scored higher, and every earlier child scored strictly less |
| AlphaBetaSearch.RootSearchChoice | Connect4-Bitboard/minimax_alphabeta.py:50-62 | alphabeta_search returns the first child whose value, searched with the alpha and table the loop had reached, is the largest over all children, or None iff every child scored -sys.maxsize; its count is the last child's count alone |
| AlphaBetaSearch.RootCountIsLastChild | Connect4-Bitboard/minimax_alphabeta.py:58 | the count the root returns does not depend on earlier children's counts |
| AlphaBetaSearch.Searcher.constructor | Connect4-Bitboard/minimax_alphabeta.py:50 | `seen` starts empty |
| AlphaBetaSearch.Searcher.MaxValue | Connect4-Bitboard/minimax_alphabeta.py:7-26 | value, count and new `seen` are those of the specification MaxNode |
| AlphaBetaSearch.Searcher.MinValue | Connect4-Bitboard/minimax_alphabeta.py:28-47 | value, count and new `seen` are those of the specification MinNode |
| AlphaBetaSearch.AlphabetaSearch | Connect4-Bitboard/minimax_alphabeta.py:3-62 | the chosen child (or None) and the count are those of RootSearch |
| BasicMinimax.MaxOfSpec | Connect4-Bitboard/minimax.py:10-13 | the running max is an upper bound of the values and is -sys.maxsize or one of them |
| BasicMinimax.MinOfSpec | Connect4-Bitboard/minimax.py:23-27 | the running min is a lower bound and is sys.maxsize or one of them |
| BasicMinimax.MinValuesOf | Connect4-Bitboard/minimax.py:12-13 | one value per child |
| BasicMinimax.MaxValuesOf | Connect4-Bitboard/minimax.py:25-27 | one value per child |
| BasicMinimax.NodeCount | Connect4-Bitboard/minimax.py:7-18 | every call counts at least its own node |
| BasicMinimax.NodeCounts | Connect4-Bitboard/minimax.py:12-13 | the children together count at least one node each |
| BasicMinimax.BestIndexSpec | Connect4-Bitboard/minimax.py:40-46 | no action iff the best value is -sys.maxsize; else the first index of a strict maximum |
| BasicMinimax.Minimax.constructor | Connect4-Bitboard/minimax.py:36 | the search's turn and depth limit |
| BasicMinimax.Minimax.MaxValue | Connect4-Bitboard/minimax.py:7-18 | value is MaxValueOf, and the count grows by NodeCount |
| BasicMinimax.Minimax.MinValue | Connect4-Bitboard/minimax.py:20-33 | value is MinValueOf, and the count grows by NodeCount |
| BasicMinimax.BasicMinimaxSearch | Connect4-Bitboard/minimax.py:3-47 | the chosen child (or None) and the count are those of RootSearch |
| BasicMinimax.RootSearchSpec | Connect4-Bitboard/minimax.py:38-47 | the root picks the first child of strictly greatest value and returns only the last child's count |
| BasicMinimax.RootLoopSpec | Connect4-Bitboard/minimax.py:42-46 | the root loop from child i on reaches that result |
| BasicMinimax.MaxLoopStep | Connect4-Bitboard/minimax.py:12-13 | one turn of max_value's loop updates the maximum and adds the child's count |
| BasicMinimax.MinLoopStep | Connect4-Bitboard/minimax.py:25-27 | one turn of min_value's loop updates the minimum and adds the child's count |
| BasicMinimax.RootStep | Connect4-Bitboard/minimax.py:42-46 | one turn of the root loop updates best score and best action |
| BasicMinimax.MaxValueIsLargestChild | Connect4-Bitboard/minimax.py:10-18 | an expanded max node returns the largest child value, or +sys.maxsize when none beats -sys.maxsize |
| BasicMinimax.MinValueIsSmallestChild | Connect4-Bitboard/minimax.py:23-33 | an expanded min node returns the smallest child value, or -sys.maxsize when none is below +sys.maxsize |
| BasicMinimax.NodeCountsSum | Connect4-Bitboard/minimax.py:12-18 | the children's count covers any one child's count plus one per sibling |
| Play.Invert | Connect4-Bitboard/play_bitboard.py:48 | `~turn` swaps AI (-1) and player (0) |
| Play.HasWinningStateSpec | Connect4-Bitboard/play_bitboard.py:36-38 | has_winning_state iff either side has a run of four along some stride |
| Play.GameOver | Connect4-Bitboard/play_bitboard.py:22-30 | the game is over iff somebody has won or the board is full |
| Play.GameContinues | Connect4-Bitboard/play_bitboard.py:22-30 | while it is not over, the side to move has at least one child |
| Play.DrawnHasNoMoves | Connect4-Bitboard/play_bitboard.py:32-34 | a drawn game has no children |
| Play.HumanMoveSpec | Connect4-Bitboard/play_bitboard.py:58-68 | an accepted column gets the human's piece in its lowest free cell and keeps the board legal |
| Play.NextDepthSchedule | Connect4-Bitboard/play_bitboard.py:42-44 | the depth bump takes the schedule min(10, 7 + n/5) from round n - 1 to round n |
| Play.DecodeSpec | Connect4-Bitboard/play_bitboard.py:109-116 | on a legal board a cell decodes to 1 iff it is the AI's, 2 iff the human's, 0 iff empty |
| Play.BitboardToArray | Connect4-Bitboard/play_bitboard.py:103-117 | a fresh 6 x 7 array whose row r holds board row 5 - r decoded |
| Play.DecodedGrid | Connect4-Bitboard/play_bitboard.py:103-117 | the 6 x 7 grid the bitboards decode to, cell by cell, as a value |
| Play.RowRunStart | Connect4-Bitboard/game_state.py:19-22 | a run of four cells 7 bits apart starts left of column 4 |
| Play.ColumnRunStart | Connect4-Bitboard/game_state.py:31-34 | a run of four cells 1 bit apart starts below row 3, because bit 6 of each column is never a cell |
| Play.RisingRunStart | Connect4-Bitboard/game_state.py:27-30 | a run of four cells 8 bits apart starts below row 3 and left of column 4 |
| Play.FallingRunStart | Connect4-Bitboard/game_state.py:23-26 | a run of four cells 6 bits apart starts at row 3 or above and left of column 4 |
| Play.RowLineIsWindow | base_game.py:44-48 | a run of four bits 7 apart is a horizontal window of four pieces on the decoded grid |
| Play.FallingLineIsWindow | base_game.py:62-66 | a run of four bits 6 apart is a down-right window of four pieces |
| Play.RisingLineIsWindow | base_game.py:56-60 | a run of four bits 8 apart is an up-right window of four pieces |
| Play.ColumnLineIsWindow | base_game.py:50-54 | a run of four bits 1 apart is a vertical window of four pieces |
| Play.RowWindowIsLine | Connect4-Bitboard/game_state.py:19-22 | a horizontal window of four pieces is a run of four bits 7 apart |
| Play.FallingWindowIsLine | Connect4-Bitboard/game_state.py:23-26 | a down-right window of four pieces is a run of four bits 6 apart |
| Play.RisingWindowIsLine | Connect4-Bitboard/game_state.py:27-30 | an up-right window of four pieces is a run of four bits 8 apart |
| Play.ColumnWindowIsLine | Connect4-Bitboard/game_state.py:31-34 | a vertical window of four pieces is a run of four bits 1 apart |
| Play.LineIsWindow | Connect4-Bitboard/game_state.py:18-36 | any run four_in_a_row finds is a winning window check_for_win finds on the depicted grid |
| Play.WindowIsLine | base_game.py:42-67 | any winning window check_for_win finds is a run four_in_a_row finds on the depicted bitboard |
| Play.WinTestsAgree | Connect4-Bitboard/game_state.py:18-36 | four_in_a_row on a bitboard holds iff check_for_win holds on a grid depicting it |
| Play.DecodedWinsAgree | Connect4-Bitboard/play_bitboard.py:103-117 | on a legal board, four_in_a_row of the AI's bits iff check_for_win(grid, 1), and of the human's bits iff check_for_win(grid, 2), on the decoded grid |
| PlayBitboard.Game.constructor | Connect4-Bitboard/play_bitboard.py:13-20 | empty state, player to move and first, round 0, depth 7, no nodes |
| PlayBitboard.Game.QueryPlayer | Connect4-Bitboard/play_bitboard.py:50-68 | the column is accepted iff it is 0..6 and not full; then the human's piece is added and the ply grows by one; else nothing changes |
| PlayBitboard.Game.QueryAI | Connect4-Bitboard/play_bitboard.py:70-76 | the new state and node count are those alphabeta_search picks from the old state |
| PlayBitboard.Game.NextTurn | Connect4-Bitboard/play_bitboard.py:40-48 | the turn flips; an AI turn counts a round, follows the depth schedule, takes alphabeta_search's node count and moves to exactly the child it chose (the state is None iff it chose none); a human turn adds one piece to a fresh state one ply deeper and keeps the node count; the invariant holds |
| PlayGame.Game.constructor | Connect4-Bitboard/play_game.py:12-18 | empty state, AI to move and first, round 1, depth 7 |
| PlayGame.Game.QueryPlayer | Connect4-Bitboard/play_game.py:51-70 | as in play_bitboard.py |
| PlayGame.Game.QueryAI | Connect4-Bitboard/play_game.py:72-78 | the new state and node count are those basic_minimax picks |
| PlayGame.Game.NextTurn | Connect4-Bitboard/play_game.py:38-49 | the turn flips; the round counts on the human's turn and the depth on the AI's; an AI turn takes basic_minimax's node count and moves to exactly the child it chose; a human turn adds one piece to a fresh state one ply deeper and keeps the node count; the invariant holds |
| Grid.EmptyBoard | base_game.py:11-12 | a 6 x 7 board of zeros |
| Grid.CreateBoard | base_game.py:11-12 | a fresh 6 x 7 array of zeros |
| Grid.DropPiece | base_game.py:14-17 | the one cell is written and every other cell is unchanged |
| Grid.PlaceSpec | connect4-offline.py:185-186 | the write on a copy: the one cell changes, the rest is kept |
| Grid.Rank | base_game.py:28 | every column has a place in the order 3, 4, 2, 5, 1, 6, 0 |
| Grid.ValidUpToSpec | base_game.py:25-31 | the first n columns of that order that are not full, each once, in order |
| Grid.ValidColumnsSpec | base_game.py:25-31 | a column is listed iff its top cell is empty; the order is kept; the list is empty iff all columns are full |
| Grid.GetValidColumns | base_game.py:25-31 | the loop builds exactly ValidColumns |
| Grid.NextOpenRow | base_game.py:34-39 | the lowest empty row, or -1 iff the column is full |
| Grid.GetNextOpenRow | base_game.py:34-39 | the loop returns NextOpenRow |
| Grid.StartOf | base_game.py:42-67 | the k-th of the 69 windows the scan visits is a window on the board |
| Grid.IndexOf | base_game.py:42-67 | every window on the board is visited, at a known position in the scan |
| Grid.WinBeforeSpec | base_game.py:42-67 | the scan up to k finds a win iff one of the first k windows holds four of the piece |
| Grid.HasFourSpec | base_game.py:42-67 | a win iff some window in any direction holds four of the piece |
| Grid.CheckDirection | base_game.py:45-65 | one direction's loops find a win iff a window of that direction holds four |
| Grid.CheckForWin | base_game.py:42-67 | check_for_win is true iff the board has four in a row of the piece |
| Grid.Count4 | base_game.py:123-125 | window.count on four cells |
| Grid.OpponentSpec | base_game.py:121 | `piece % 2 + 1` is 1 or 2 and differs from the piece |
| Grid.CountsBounded | base_game.py:123-125 | the three counts add up to at most the window length |
| Grid.ScoreWindowValues | base_game.py:110-140 | a window scores one of the listed bonuses, a penalty or 0 |
| Grid.ScoreWindowFull | base_game.py:127-135 | four own pieces give the top bonus; four of the opponent's give the top penalty |
| Grid.LoopStartSpec | base_game.py:82-105 | the nested loops of evaluate_position visit each window once |
| Grid.InnerSum | base_game.py:82-105 | an inner loop's total stays within its windows' bound |
| Grid.OuterSum | base_game.py:82-105 | an outer loop's total stays within its windows' bound |
| Grid.EvaluateNests | base_game.py:70-107 | the evaluation is the sum over the four nested loops |
| Grid.ScoreDirection | base_game.py:82-105 | one direction's loop computes OuterSum |
| Grid.EvaluatePosition | base_game.py:70-107 | the method computes Evaluate |
| Grid.EvaluateEmpty | base_game.py:70-107 | the empty board evaluates to 0 |
| Grid.EmptyWindowScoresZero | base_game.py:110-140 | an empty window scores 0 |
| Grid.InnerSumEmpty | base_game.py:82-105 | on the empty board each inner loop adds 0 |
| Grid.OuterSumEmpty | base_game.py:82-105 | on the empty board each outer loop adds 0 |
| Grid.ScoreWindowBound | base_game.py:110-140 | a window scores within its weights' bound |
| Grid.WindowsBoundIsProduct | base_game.py:82-105 | n windows are bounded by n times the window bound |
| Grid.WindowsBoundAdd | base_game.py:82-105 | the bounds of consecutive loops add up |
| Grid.WindowCounts | base_game.py:82-105 | the loops visit 24, 21, 12 and 12 windows |
| Grid.EvaluateBound | base_game.py:70-107 | the evaluation lies within 69 times the window bound |
| GridSearch.Drop | connect4-offline.py:185-186 | dropping into an open column gives a board |
| GridSearch.OfflineMinimax | connect4-offline.py:141-212 | column, score and count are AlphaBeta's with the offline constants |
| GridSearch.OfflineMaxBranch | connect4-offline.py:180-195 | the maxTurn loop computes AlphaBetaMaxFrom |
| GridSearch.OfflineMinBranch | connect4-offline.py:197-212 | the other loop computes AlphaBetaMinFrom |
| GridSearch.FastMinimax | connect4-v2-fast.py:123-178 | column and score are AlphaBeta's with the fast constants |
| GridSearch.FastMaxBranch | connect4-v2-fast.py:148-162 | the maxTurn loop computes AlphaBetaMaxFrom |
| GridSearch.FastMinBranch | connect4-v2-fast.py:164-178 | the other loop computes AlphaBetaMinFrom |
| GridSearch.MinimaxBasic | play_minimax_basic.py:13-76 | column, score and count are Minimax's |
| GridSearch.BasicMaxBranch | play_minimax_basic.py:50-62 | the maxTurn loop computes MinimaxMaxFrom |
| GridSearch.BasicMinBranch | play_minimax_basic.py:64-76 | the other loop computes MinimaxMinFrom |
| GridTheory.Shift | connect4-offline.py:141 | adding to the count keeps column and score |
| GridTheory.AlphaBetaCountShift | connect4-offline.py:141-212 | searching with node_count c is searching with 0 and adding c: the count never steers the search |
| GridTheory.AlphaBetaCountAdd | connect4-offline.py:141-212 | adding d to the count passed in adds d to the count returned |
| GridTheory.MaxFromCountShift | connect4-offline.py:180-195 | the same for the max loop |
| GridTheory.MinFromCountShift | connect4-offline.py:197-212 | the same for the min loop |
| GridTheory.MinimaxCount | play_minimax_basic.py:13-76 | minimax_basic adds exactly the number of internal nodes of the tree to node_count |
| GridTheory.MinimaxMaxFromCount | play_minimax_basic.py:50-62 | the max loop counts its node plus the internal nodes below the remaining columns |
| GridTheory.MinimaxMinFromCount | play_minimax_basic.py:64-76 | the same for the min loop |
| GridTheory.AlphaBetaCountBound | connect4-offline.py:141-212 | the pruned search never counts more internal nodes than the tree has |
| GridTheory.MaxFromCountBound | connect4-offline.py:180-195 | the max loop counts at least its node and at most the tree |
| GridTheory.MinFromCountBound | connect4-offline.py:197-212 | the same for the min loop |
| GridTheory.Clamp | connect4-offline.py:141 | the value pulled into the window |
| GridTheory.MinimaxMaxFromAtLeast | play_minimax_basic.py:50-62 | a max loop never ends below its starting value |
| GridTheory.MinimaxMinFromAtMost | play_minimax_basic.py:64-76 | a min loop never ends above its starting value |
| GridTheory.ClampMaxStep | connect4-offline.py:188-194 | one max-loop step keeps the two searches' running maxima equal once clamped |
| GridTheory.ClampMinStep | connect4-offline.py:205-211 | the same for one min-loop step |
| GridTheory.AlphaBetaClamp | connect4-offline.py:141-212 | within any window the pruned score, clamped, equals minimax_basic's score, clamped |
| GridTheory.MaxChildClamp | connect4-offline.py:185-194 | one child of a max loop keeps the clamped running scores equal |
| GridTheory.MinChildClamp | connect4-offline.py:202-211 | one child of a min loop keeps the clamped running scores equal |
| GridTheory.MaxFromClamp | connect4-offline.py:180-195 | the max loops of both searches agree once clamped |
| GridTheory.MinFromClamp | connect4-offline.py:197-212 | the min loops of both searches agree once clamped |
| GridTheory.VariantsFit | connect4-offline.py:158-160 | both programs' constants keep every score within sys.maxsize at any realistic depth |
| GridTheory.LeafRange | connect4-offline.py:163-178 | a leaf's score lies within sys.maxsize |
| GridTheory.AlphaBetaRange | connect4-offline.py:141-212 | every pruned score lies within sys.maxsize |
| GridTheory.MaxFromRange | connect4-offline.py:180-195 | the same for the max loop |
| GridTheory.MinFromRange | connect4-offline.py:197-212 | the same for the min loop |
| GridTheory.MinimaxRange | play_minimax_basic.py:13-76 | every minimax_basic score lies within sys.maxsize |
| GridTheory.MinimaxMaxFromRange | play_minimax_basic.py:50-62 | the same for its max loop |
| GridTheory.MinimaxMinFromRange | play_minimax_basic.py:64-76 | the same for its min loop |
| GridTheory.FullWindowScore | connect4-offline.py:276 | at the window (-sys.maxsize, sys.maxsize) the pruned search returns minimax_basic's score |
| GridTheory.MinimaxMaxFromTop | play_minimax_basic.py:50-62 | once the max loop holds sys.maxsize, no later column replaces it |
| GridTheory.WindowAgreesAbove | connect4-offline.py:187-194 | a min node searched with window (value, sys.maxsize) scores above value iff minimax_basic does, and then with the same score |
| GridTheory.RootMaxFrom | connect4-offline.py:180-195 | the root max loop picks minimax_basic's column and score |
| GridTheory.FullWindowRoot | connect4-offline.py:276 | the root call picks the column and the score that minimax_basic picks |
| GridTheory.WinOutranksEvaluation | connect4-offline.py:158-168 | with either program's constants every board evaluation lies strictly between the two win scores |

## Left out

- Console I/O is not modelled:
  - pretty_print_board, colorama colouring and clearing the screen;
  - the messages is_game_over prints, including who won;
  - the "Invalid move" retry loop of query_player. QueryPlayer takes the column as a parameter and reports whether it was accepted.
- The start_game loops and the browser automation of connect4-v2-fast.py are not modelled. That code is selenium page parsing and clicking.
- Timing is not modelled: compute_time and time().
- numba's `@njit`, `typed.List` and the float dtype of `np.zeros` are not modelled. Cells are integers 0, 1 and 2.
- Python's `hash()` is not modelled. The `seen` table is keyed by the fields `__eq__` compares, which is what a dict lookup decides on.
- `__str__` is left out, as is the commented-out code in game_state.py and the drivers.
- The bitboards are sets of bit positions, not 64-bit words. Python integers are unbounded, so nothing wraps.
- sys.maxsize is the constant 2^63 - 1 of a 64-bit CPython.
- Grid.DropPiece: negative indices are not modelled. The searches only drop into valid columns, at the row get_next_open_row returns.
- The grid searches take the board as a value. `np.copy` followed by a cell write is Place on a copy, so aliasing of the caller's board is not modelled.
- GridSearch.FastMinimax: the count is a ghost parameter. connect4-v2-fast.py keeps no count; AlphaBetaCountShift shows that column and score do not depend on it.
- GridSearch: each search's two loops are split into a max method and a min method. The leaf tests stay in the search method itself.
- play_minimax_basic.py uses the offline constants: WIN_SCORE 100000, aging penalty 3, the same score_window. It therefore shares OfflineVariant.
- PlayBitboard.Game.NextTurn and PlayGame.Game.NextTurn require a current state. The source would fail with an AttributeError when a search returned None and the game went on; the model instead states when the state becomes null.
- draw, has_winning_state and bitboard_to_array are the same code in both drivers. They are modelled once, in Play, and cited from play_bitboard.py.
