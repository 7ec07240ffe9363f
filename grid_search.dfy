/**
 * The searches over the 6 x 7 grid: `minimax` of connect4-offline.py
 * (alpha-beta with a node count), `minimax` of connect4-v2-fast.py
 * (alpha-beta without one) and `minimax_basic` of play_minimax_basic.py
 * (no pruning).  Player 1 maximises and player 2, the AI, minimises; depth
 * counts the plies left.  Each method is proved against a specification
 * function that follows the same loop: AlphaBeta / AlphaBetaMax /
 * AlphaBetaMin for the pruned searches, Minimax / MinimaxMax / MinimaxMin
 * for the plain one.
 */
module GridSearch {
  import opened Wrappers
  import opened Grid
  import GameState

  const PlayerPiece := 1
  const AiPiece := 2
  const Tie := -1
  const AgingPenalty := 3

  /** sys.maxsize, the starting value of a max or min node. */
  const MaxSize := GameState.MaxSize

  /**
   * What tells the searches apart besides pruning: WIN_SCORE, the weights
   * of score_window, and whether a depth-0 leaf reports the first valid
   * column (connect4-offline.py, play_minimax_basic.py) or column 0
   * (connect4-v2-fast.py).
   */
  datatype Variant = Variant(winScore: int, weights: Weights, leafReportsColumn: bool)

  /** connect4-offline.py; play_minimax_basic.py uses the same constants. */
  const OfflineVariant := Variant(100000, Standard, true)

  /** connect4-v2-fast.py. */
  const FastVariant := Variant(1000000, Fast, false)

  /** What a search call returns: bestCol, the score and node_count. */
  datatype Result = Result(col: int, score: int, count: nat)

  /** The board after `piece` drops into the open column col, built on a copy. */
  function Drop(g: Board, col: nat, piece: int): (h: Board)
    requires IsBoard(g) && col < Columns && IsValidColumn(g, col)
    ensures IsBoard(h)
  {
    Place(g, NextOpenRow(g, col), col, piece)
  }

  // ---------------------------------------------------------------------
  // Leaves
  // ---------------------------------------------------------------------

  /** A node is a leaf when either side has won, the board is full or no depth is left. */
  ghost predicate IsLeaf(g: Board, depth: nat)
    requires IsBoard(g)
  {
    HasFour(g, PlayerPiece) || HasFour(g, AiPiece) || ValidColumns(g) == [] || depth == 0
  }

  /** What a leaf returns, the tests taken in the order the source takes them. */
  ghost function LeafResult(v: Variant, g: Board, depth: nat, count: nat): Result
    requires IsBoard(g) && IsLeaf(g, depth)
  {
    if HasFour(g, PlayerPiece) then Result(0, v.winScore + depth * AgingPenalty, count)
    else if HasFour(g, AiPiece) then Result(0, -v.winScore - depth * AgingPenalty, count)
    else if ValidColumns(g) == [] then Result(0, Tie, count)
    else Result(if v.leafReportsColumn then ValidColumns(g)[0] else 0, Evaluate(g, AiPiece, v.weights), count)
  }

  // ---------------------------------------------------------------------
  // Alpha-beta
  // ---------------------------------------------------------------------

  /** minimax(board, depth, alpha, beta, maxTurn, node_count) with pruning. */
  ghost function AlphaBeta(v: Variant, g: Board, depth: nat, alpha: int, beta: int, maxTurn: bool, count: nat): Result
    requires IsBoard(g)
    decreases depth, 2
  {
    if maxTurn then AlphaBetaMaxNode(v, g, depth, alpha, beta, count)
    else AlphaBetaMinNode(v, g, depth, alpha, beta, count)
  }

  /** A call with maxTurn: the leaf tests, then the loop over the valid columns. */
  ghost function AlphaBetaMaxNode(v: Variant, g: Board, depth: nat, alpha: int, beta: int, count: nat): Result
    requires IsBoard(g)
    decreases depth, 1
  {
    if IsLeaf(g, depth) then LeafResult(v, g, depth, count)
    else AlphaBetaMaxFrom(v, g, depth, 0, alpha, beta, -MaxSize, 0, count)
  }

  /** A call without maxTurn. */
  ghost function AlphaBetaMinNode(v: Variant, g: Board, depth: nat, alpha: int, beta: int, count: nat): Result
    requires IsBoard(g)
    decreases depth, 1
  {
    if IsLeaf(g, depth) then LeafResult(v, g, depth, count)
    else AlphaBetaMinFrom(v, g, depth, 0, alpha, beta, MaxSize, 0, count)
  }

  /** The loop of a max node from the i-th valid column on. */
  ghost function AlphaBetaMaxFrom(v: Variant, g: Board, depth: nat, i: nat, alpha: int, beta: int,
                                  value: int, bestCol: int, count: nat): Result
    requires IsBoard(g) && depth > 0 && i <= |ValidColumns(g)|
    decreases depth, 0, |ValidColumns(g)| - i
  {
    var cols := ValidColumns(g);
    if i == |cols| then Result(bestCol, value, count + 1)
    else
      var r := AlphaBeta(v, Drop(g, cols[i], PlayerPiece), depth - 1, alpha, beta, false, count);
      var value' := if r.score > value then r.score else value;
      var bestCol' := if r.score > value then cols[i] else bestCol;
      var alpha' := Max(alpha, value');
      if alpha' >= beta then Result(bestCol', value', r.count + 1)
      else AlphaBetaMaxFrom(v, g, depth, i + 1, alpha', beta, value', bestCol', r.count)
  }

  /** The loop of a min node from the i-th valid column on. */
  ghost function AlphaBetaMinFrom(v: Variant, g: Board, depth: nat, i: nat, alpha: int, beta: int,
                                  value: int, bestCol: int, count: nat): Result
    requires IsBoard(g) && depth > 0 && i <= |ValidColumns(g)|
    decreases depth, 0, |ValidColumns(g)| - i
  {
    var cols := ValidColumns(g);
    if i == |cols| then Result(bestCol, value, count + 1)
    else
      var r := AlphaBeta(v, Drop(g, cols[i], AiPiece), depth - 1, alpha, beta, true, count);
      var value' := if r.score < value then r.score else value;
      var bestCol' := if r.score < value then cols[i] else bestCol;
      var beta' := Min(beta, value');
      if alpha >= beta' then Result(bestCol', value', r.count + 1)
      else AlphaBetaMinFrom(v, g, depth, i + 1, alpha, beta', value', bestCol', r.count)
  }

  // ---------------------------------------------------------------------
  // Plain minimax
  // ---------------------------------------------------------------------

  /** minimax_basic(board, depth, maxTurn, node_count): every valid column is searched. */
  ghost function Minimax(v: Variant, g: Board, depth: nat, maxTurn: bool, count: nat): Result
    requires IsBoard(g)
    decreases depth, 2
  {
    if maxTurn then MinimaxMaxNode(v, g, depth, count) else MinimaxMinNode(v, g, depth, count)
  }

  ghost function MinimaxMaxNode(v: Variant, g: Board, depth: nat, count: nat): Result
    requires IsBoard(g)
    decreases depth, 1
  {
    if IsLeaf(g, depth) then LeafResult(v, g, depth, count)
    else MinimaxMaxFrom(v, g, depth, 0, -MaxSize, 0, count)
  }

  ghost function MinimaxMinNode(v: Variant, g: Board, depth: nat, count: nat): Result
    requires IsBoard(g)
    decreases depth, 1
  {
    if IsLeaf(g, depth) then LeafResult(v, g, depth, count)
    else MinimaxMinFrom(v, g, depth, 0, MaxSize, 0, count)
  }

  ghost function MinimaxMaxFrom(v: Variant, g: Board, depth: nat, i: nat, value: int, bestCol: int, count: nat): Result
    requires IsBoard(g) && depth > 0 && i <= |ValidColumns(g)|
    decreases depth, 0, |ValidColumns(g)| - i
  {
    var cols := ValidColumns(g);
    if i == |cols| then Result(bestCol, value, count + 1)
    else
      var r := Minimax(v, Drop(g, cols[i], PlayerPiece), depth - 1, false, count);
      if r.score > value then MinimaxMaxFrom(v, g, depth, i + 1, r.score, cols[i], r.count)
      else MinimaxMaxFrom(v, g, depth, i + 1, value, bestCol, r.count)
  }

  ghost function MinimaxMinFrom(v: Variant, g: Board, depth: nat, i: nat, value: int, bestCol: int, count: nat): Result
    requires IsBoard(g) && depth > 0 && i <= |ValidColumns(g)|
    decreases depth, 0, |ValidColumns(g)| - i
  {
    var cols := ValidColumns(g);
    if i == |cols| then Result(bestCol, value, count + 1)
    else
      var r := Minimax(v, Drop(g, cols[i], AiPiece), depth - 1, true, count);
      if r.score < value then MinimaxMinFrom(v, g, depth, i + 1, r.score, cols[i], r.count)
      else MinimaxMinFrom(v, g, depth, i + 1, value, bestCol, r.count)
  }

  // ---------------------------------------------------------------------
  // minimax of connect4-offline.py
  // ---------------------------------------------------------------------

  /** The leaf tests, then the loop of a max or a min node. */
  method OfflineMinimax(g: Board, depth: nat, alpha: int, beta: int, maxTurn: bool, nodeCount: nat)
    returns (col: int, score: int, count: nat)
    requires IsBoard(g)
    ensures Result(col, score, count) == AlphaBeta(OfflineVariant, g, depth, alpha, beta, maxTurn, nodeCount)
    decreases depth, 2
  {
    var playerWon := CheckForWin(g, PlayerPiece);
    if playerWon {
      return 0, OfflineVariant.winScore + depth * AgingPenalty, nodeCount;
    }
    var aiWon := CheckForWin(g, AiPiece);
    if aiWon {
      return 0, -OfflineVariant.winScore - depth * AgingPenalty, nodeCount;
    }
    var cols := GetValidColumns(g);
    if |cols| == 0 {
      return 0, Tie, nodeCount;
    }
    if depth == 0 {
      score := EvaluatePosition(g, AiPiece, OfflineVariant.weights);
      return cols[0], score, nodeCount;
    }
    if maxTurn {
      col, score, count := OfflineMaxBranch(g, cols, depth, alpha, beta, nodeCount);
    } else {
      col, score, count := OfflineMinBranch(g, cols, depth, alpha, beta, nodeCount);
    }
  }

  /** The maxTurn branch: player 1 drops into each valid column of a copy. */
  method OfflineMaxBranch(g: Board, cols: seq<nat>, depth: nat, alpha: int, beta: int, nodeCount: nat)
    returns (col: int, score: int, count: nat)
    requires IsBoard(g) && depth > 0 && cols == ValidColumns(g)
    ensures Result(col, score, count) == AlphaBetaMaxFrom(OfflineVariant, g, depth, 0, alpha, beta, -MaxSize, 0, nodeCount)
    decreases depth, 0
  {
    var a := alpha;
    col, score, count := 0, -MaxSize, nodeCount;
    for i := 0 to |cols|
      invariant AlphaBetaMaxFrom(OfflineVariant, g, depth, i, a, beta, score, col, count)
             == AlphaBetaMaxFrom(OfflineVariant, g, depth, 0, alpha, beta, -MaxSize, 0, nodeCount)
    {
      var row := GetNextOpenRow(g, cols[i]);
      var child := Place(g, row, cols[i], PlayerPiece);
      var childCol, childScore;
      childCol, childScore, count := OfflineMinimax(child, depth - 1, a, beta, false, count);
      if childScore > score {
        score, col := childScore, cols[i];
      }
      a := Max(a, score);
      if a >= beta {
        return col, score, count + 1;
      }
    }
    count := count + 1;
  }

  /** The other branch: player 2 drops into each valid column of a copy. */
  method OfflineMinBranch(g: Board, cols: seq<nat>, depth: nat, alpha: int, beta: int, nodeCount: nat)
    returns (col: int, score: int, count: nat)
    requires IsBoard(g) && depth > 0 && cols == ValidColumns(g)
    ensures Result(col, score, count) == AlphaBetaMinFrom(OfflineVariant, g, depth, 0, alpha, beta, MaxSize, 0, nodeCount)
    decreases depth, 0
  {
    var b := beta;
    col, score, count := 0, MaxSize, nodeCount;
    for i := 0 to |cols|
      invariant AlphaBetaMinFrom(OfflineVariant, g, depth, i, alpha, b, score, col, count)
             == AlphaBetaMinFrom(OfflineVariant, g, depth, 0, alpha, beta, MaxSize, 0, nodeCount)
    {
      var row := GetNextOpenRow(g, cols[i]);
      var child := Place(g, row, cols[i], AiPiece);
      var childCol, childScore;
      childCol, childScore, count := OfflineMinimax(child, depth - 1, alpha, b, true, count);
      if childScore < score {
        score, col := childScore, cols[i];
      }
      b := Min(b, score);
      if alpha >= b {
        return col, score, count + 1;
      }
    }
    count := count + 1;
  }

  // ---------------------------------------------------------------------
  // minimax of connect4-v2-fast.py
  // ---------------------------------------------------------------------

  /**
   * The same search without a node count.  The ghost count only follows
   * the count the specification carries along; CountShift shows that the
   * column and the score do not depend on it.
   */
  method FastMinimax(g: Board, depth: nat, alpha: int, beta: int, maxTurn: bool, ghost nodeCount: nat)
    returns (col: int, score: int, ghost count: nat)
    requires IsBoard(g)
    ensures Result(col, score, count) == AlphaBeta(FastVariant, g, depth, alpha, beta, maxTurn, nodeCount)
    decreases depth, 2
  {
    var playerWon := CheckForWin(g, PlayerPiece);
    if playerWon {
      return 0, FastVariant.winScore + depth * AgingPenalty, nodeCount;
    }
    var aiWon := CheckForWin(g, AiPiece);
    if aiWon {
      return 0, -FastVariant.winScore - depth * AgingPenalty, nodeCount;
    }
    var cols := GetValidColumns(g);
    if |cols| == 0 {
      return 0, Tie, nodeCount;
    }
    if depth == 0 {
      score := EvaluatePosition(g, AiPiece, FastVariant.weights);
      return 0, score, nodeCount;
    }
    if maxTurn {
      col, score, count := FastMaxBranch(g, cols, depth, alpha, beta, nodeCount);
    } else {
      col, score, count := FastMinBranch(g, cols, depth, alpha, beta, nodeCount);
    }
  }

  method FastMaxBranch(g: Board, cols: seq<nat>, depth: nat, alpha: int, beta: int, ghost nodeCount: nat)
    returns (col: int, score: int, ghost count: nat)
    requires IsBoard(g) && depth > 0 && cols == ValidColumns(g)
    ensures Result(col, score, count) == AlphaBetaMaxFrom(FastVariant, g, depth, 0, alpha, beta, -MaxSize, 0, nodeCount)
    decreases depth, 0
  {
    var a := alpha;
    col, score, count := 0, -MaxSize, nodeCount;
    for i := 0 to |cols|
      invariant AlphaBetaMaxFrom(FastVariant, g, depth, i, a, beta, score, col, count)
             == AlphaBetaMaxFrom(FastVariant, g, depth, 0, alpha, beta, -MaxSize, 0, nodeCount)
    {
      var row := GetNextOpenRow(g, cols[i]);
      var child := Place(g, row, cols[i], PlayerPiece);
      var childCol, childScore;
      childCol, childScore, count := FastMinimax(child, depth - 1, a, beta, false, count);
      if childScore > score {
        score, col := childScore, cols[i];
      }
      a := Max(a, score);
      if a >= beta {
        return col, score, count + 1;
      }
    }
    count := count + 1;
  }

  method FastMinBranch(g: Board, cols: seq<nat>, depth: nat, alpha: int, beta: int, ghost nodeCount: nat)
    returns (col: int, score: int, ghost count: nat)
    requires IsBoard(g) && depth > 0 && cols == ValidColumns(g)
    ensures Result(col, score, count) == AlphaBetaMinFrom(FastVariant, g, depth, 0, alpha, beta, MaxSize, 0, nodeCount)
    decreases depth, 0
  {
    var b := beta;
    col, score, count := 0, MaxSize, nodeCount;
    for i := 0 to |cols|
      invariant AlphaBetaMinFrom(FastVariant, g, depth, i, alpha, b, score, col, count)
             == AlphaBetaMinFrom(FastVariant, g, depth, 0, alpha, beta, MaxSize, 0, nodeCount)
    {
      var row := GetNextOpenRow(g, cols[i]);
      var child := Place(g, row, cols[i], AiPiece);
      var childCol, childScore;
      childCol, childScore, count := FastMinimax(child, depth - 1, alpha, b, true, count);
      if childScore < score {
        score, col := childScore, cols[i];
      }
      b := Min(b, score);
      if alpha >= b {
        return col, score, count + 1;
      }
    }
    count := count + 1;
  }

  // ---------------------------------------------------------------------
  // minimax_basic of play_minimax_basic.py
  // ---------------------------------------------------------------------

  /** The leaf tests of the offline search, then a loop with no cut-off. */
  method MinimaxBasic(g: Board, depth: nat, maxTurn: bool, nodeCount: nat)
    returns (col: int, score: int, count: nat)
    requires IsBoard(g)
    ensures Result(col, score, count) == Minimax(OfflineVariant, g, depth, maxTurn, nodeCount)
    decreases depth, 2
  {
    var playerWon := CheckForWin(g, PlayerPiece);
    if playerWon {
      return 0, OfflineVariant.winScore + depth * AgingPenalty, nodeCount;
    }
    var aiWon := CheckForWin(g, AiPiece);
    if aiWon {
      return 0, -OfflineVariant.winScore - depth * AgingPenalty, nodeCount;
    }
    var cols := GetValidColumns(g);
    if |cols| == 0 {
      return 0, Tie, nodeCount;
    }
    if depth == 0 {
      score := EvaluatePosition(g, AiPiece, OfflineVariant.weights);
      return cols[0], score, nodeCount;
    }
    if maxTurn {
      col, score, count := BasicMaxBranch(g, cols, depth, nodeCount);
    } else {
      col, score, count := BasicMinBranch(g, cols, depth, nodeCount);
    }
  }

  method BasicMaxBranch(g: Board, cols: seq<nat>, depth: nat, nodeCount: nat)
    returns (col: int, score: int, count: nat)
    requires IsBoard(g) && depth > 0 && cols == ValidColumns(g)
    ensures Result(col, score, count) == MinimaxMaxFrom(OfflineVariant, g, depth, 0, -MaxSize, 0, nodeCount)
    decreases depth, 0
  {
    col, score, count := 0, -MaxSize, nodeCount;
    for i := 0 to |cols|
      invariant MinimaxMaxFrom(OfflineVariant, g, depth, i, score, col, count)
             == MinimaxMaxFrom(OfflineVariant, g, depth, 0, -MaxSize, 0, nodeCount)
    {
      var row := GetNextOpenRow(g, cols[i]);
      var child := Place(g, row, cols[i], PlayerPiece);
      var childCol, childScore;
      childCol, childScore, count := MinimaxBasic(child, depth - 1, false, count);
      if childScore > score {
        score, col := childScore, cols[i];
      }
    }
    count := count + 1;
  }

  method BasicMinBranch(g: Board, cols: seq<nat>, depth: nat, nodeCount: nat)
    returns (col: int, score: int, count: nat)
    requires IsBoard(g) && depth > 0 && cols == ValidColumns(g)
    ensures Result(col, score, count) == MinimaxMinFrom(OfflineVariant, g, depth, 0, MaxSize, 0, nodeCount)
    decreases depth, 0
  {
    col, score, count := 0, MaxSize, nodeCount;
    for i := 0 to |cols|
      invariant MinimaxMinFrom(OfflineVariant, g, depth, i, score, col, count)
             == MinimaxMinFrom(OfflineVariant, g, depth, 0, MaxSize, 0, nodeCount)
    {
      var row := GetNextOpenRow(g, cols[i]);
      var child := Place(g, row, cols[i], AiPiece);
      var childCol, childScore;
      childCol, childScore, count := MinimaxBasic(child, depth - 1, true, count);
      if childScore < score {
        score, col := childScore, cols[i];
      }
    }
    count := count + 1;
  }
}
