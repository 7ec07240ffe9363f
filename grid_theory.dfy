/**
 * What the three grid searches promise, proved about their specification
 * functions in GridSearch:
 *
 *  - node_count is threaded through and never read: the column and the
 *    score do not depend on the count passed in (so the fast search, which
 *    keeps no count, is the offline search with other constants);
 *  - minimax_basic adds one to the count per internal node of the game
 *    tree, and the pruned search never counts more;
 *  - clamped to its window, the pruned search has the value of the plain
 *    one, so at the root window (-sys.maxsize, sys.maxsize) the two return
 *    the same score and the same column.
 */
module GridTheory {
  import opened Wrappers
  import opened Grid
  import opened GridSearch

  /** r with count added to its node count. */
  function Shift(r: Result, count: nat): (s: Result)
    ensures s.col == r.col && s.score == r.score && s.count == r.count + count
  {
    Result(r.col, r.score, r.count + count)
  }

  // ---------------------------------------------------------------------
  // The count is an accumulator
  // ---------------------------------------------------------------------

  /** Searching with node_count = c is searching with 0 and adding c to the count. */
  lemma {:induction false} AlphaBetaCountShift(v: Variant, g: Board, depth: nat, alpha: int, beta: int, maxTurn: bool, c: nat)
    requires IsBoard(g)
    ensures AlphaBeta(v, g, depth, alpha, beta, maxTurn, c) == Shift(AlphaBeta(v, g, depth, alpha, beta, maxTurn, 0), c)
    decreases depth, 2
  {
    if !IsLeaf(g, depth) {
      if maxTurn {
        MaxFromCountShift(v, g, depth, 0, alpha, beta, -MaxSize, 0, 0, c);
      } else {
        MinFromCountShift(v, g, depth, 0, alpha, beta, MaxSize, 0, 0, c);
      }
    }
  }

  /** Adding d to the count passed in adds d to the count returned. */
  lemma AlphaBetaCountAdd(v: Variant, g: Board, depth: nat, alpha: int, beta: int, maxTurn: bool, c: nat, d: nat)
    requires IsBoard(g)
    ensures AlphaBeta(v, g, depth, alpha, beta, maxTurn, c + d) == Shift(AlphaBeta(v, g, depth, alpha, beta, maxTurn, c), d)
    decreases depth, 3
  {
    AlphaBetaCountShift(v, g, depth, alpha, beta, maxTurn, c);
    AlphaBetaCountShift(v, g, depth, alpha, beta, maxTurn, c + d);
  }

  lemma {:induction false} MaxFromCountShift(v: Variant, g: Board, depth: nat, i: nat, alpha: int, beta: int,
                                             value: int, bestCol: int, c: nat, d: nat)
    requires IsBoard(g) && depth > 0 && i <= |ValidColumns(g)|
    ensures AlphaBetaMaxFrom(v, g, depth, i, alpha, beta, value, bestCol, c + d)
         == Shift(AlphaBetaMaxFrom(v, g, depth, i, alpha, beta, value, bestCol, c), d)
    decreases depth, 1, |ValidColumns(g)| - i
  {
    var cols := ValidColumns(g);
    if i < |cols| {
      var child := Drop(g, cols[i], PlayerPiece);
      AlphaBetaCountAdd(v, child, depth - 1, alpha, beta, false, c, d);
      var r := AlphaBeta(v, child, depth - 1, alpha, beta, false, c);
      var value' := if r.score > value then r.score else value;
      var bestCol' := if r.score > value then cols[i] else bestCol;
      MaxFromCountShift(v, g, depth, i + 1, Max(alpha, value'), beta, value', bestCol', r.count, d);
    }
  }

  lemma {:induction false} MinFromCountShift(v: Variant, g: Board, depth: nat, i: nat, alpha: int, beta: int,
                                             value: int, bestCol: int, c: nat, d: nat)
    requires IsBoard(g) && depth > 0 && i <= |ValidColumns(g)|
    ensures AlphaBetaMinFrom(v, g, depth, i, alpha, beta, value, bestCol, c + d)
         == Shift(AlphaBetaMinFrom(v, g, depth, i, alpha, beta, value, bestCol, c), d)
    decreases depth, 1, |ValidColumns(g)| - i
  {
    var cols := ValidColumns(g);
    if i < |cols| {
      var child := Drop(g, cols[i], AiPiece);
      AlphaBetaCountAdd(v, child, depth - 1, alpha, beta, true, c, d);
      var r := AlphaBeta(v, child, depth - 1, alpha, beta, true, c);
      var value' := if r.score < value then r.score else value;
      var bestCol' := if r.score < value then cols[i] else bestCol;
      MinFromCountShift(v, g, depth, i + 1, alpha, Min(beta, value'), value', bestCol', r.count, d);
    }
  }

  // ---------------------------------------------------------------------
  // Node counts
  // ---------------------------------------------------------------------

  /** The piece that moves at a max node (player 1) or a min node (player 2). */
  function Mover(maxTurn: bool): int
  {
    if maxTurn then PlayerPiece else AiPiece
  }

  /** The number of internal nodes of the game tree below g, the side to move given by maxTurn. */
  ghost function InternalNodes(g: Board, depth: nat, maxTurn: bool): nat
    requires IsBoard(g)
    decreases depth, 1
  {
    if IsLeaf(g, depth) then 0 else 1 + InternalNodesFrom(g, depth, maxTurn, 0)
  }

  /** The internal nodes below the children of g for the i-th valid column on. */
  ghost function InternalNodesFrom(g: Board, depth: nat, maxTurn: bool, i: nat): nat
    requires IsBoard(g) && depth > 0 && i <= |ValidColumns(g)|
    decreases depth, 0, |ValidColumns(g)| - i
  {
    var cols := ValidColumns(g);
    if i == |cols| then 0
    else InternalNodes(Drop(g, cols[i], Mover(maxTurn)), depth - 1, !maxTurn)
         + InternalNodesFrom(g, depth, maxTurn, i + 1)
  }

  /** minimax_basic adds exactly one to node_count per internal node of the tree it searches. */
  lemma {:induction false} MinimaxCount(v: Variant, g: Board, depth: nat, maxTurn: bool, c: nat)
    requires IsBoard(g)
    ensures Minimax(v, g, depth, maxTurn, c).count == c + InternalNodes(g, depth, maxTurn)
    decreases depth, 2
  {
    if !IsLeaf(g, depth) {
      if maxTurn {
        MinimaxMaxFromCount(v, g, depth, 0, -MaxSize, 0, c);
      } else {
        MinimaxMinFromCount(v, g, depth, 0, MaxSize, 0, c);
      }
    }
  }

  lemma {:induction false} MinimaxMaxFromCount(v: Variant, g: Board, depth: nat, i: nat, value: int, bestCol: int, c: nat)
    requires IsBoard(g) && depth > 0 && i <= |ValidColumns(g)|
    ensures MinimaxMaxFrom(v, g, depth, i, value, bestCol, c).count == c + 1 + InternalNodesFrom(g, depth, true, i)
    decreases depth, 1, |ValidColumns(g)| - i
  {
    var cols := ValidColumns(g);
    if i < |cols| {
      var child := Drop(g, cols[i], PlayerPiece);
      MinimaxCount(v, child, depth - 1, false, c);
      var r := Minimax(v, child, depth - 1, false, c);
      assert InternalNodesFrom(g, depth, true, i)
          == InternalNodes(child, depth - 1, false) + InternalNodesFrom(g, depth, true, i + 1);
      if r.score > value {
        MinimaxMaxFromCount(v, g, depth, i + 1, r.score, cols[i], r.count);
      } else {
        MinimaxMaxFromCount(v, g, depth, i + 1, value, bestCol, r.count);
      }
    }
  }

  lemma {:induction false} MinimaxMinFromCount(v: Variant, g: Board, depth: nat, i: nat, value: int, bestCol: int, c: nat)
    requires IsBoard(g) && depth > 0 && i <= |ValidColumns(g)|
    ensures MinimaxMinFrom(v, g, depth, i, value, bestCol, c).count == c + 1 + InternalNodesFrom(g, depth, false, i)
    decreases depth, 1, |ValidColumns(g)| - i
  {
    var cols := ValidColumns(g);
    if i < |cols| {
      var child := Drop(g, cols[i], AiPiece);
      MinimaxCount(v, child, depth - 1, true, c);
      var r := Minimax(v, child, depth - 1, true, c);
      assert InternalNodesFrom(g, depth, false, i)
          == InternalNodes(child, depth - 1, true) + InternalNodesFrom(g, depth, false, i + 1);
      if r.score < value {
        MinimaxMinFromCount(v, g, depth, i + 1, r.score, cols[i], r.count);
      } else {
        MinimaxMinFromCount(v, g, depth, i + 1, value, bestCol, r.count);
      }
    }
  }

  /** Pruning only skips nodes: the pruned search counts at most the internal nodes of the tree. */
  lemma {:induction false} AlphaBetaCountBound(v: Variant, g: Board, depth: nat, alpha: int, beta: int, maxTurn: bool, c: nat)
    requires IsBoard(g)
    ensures c <= AlphaBeta(v, g, depth, alpha, beta, maxTurn, c).count <= c + InternalNodes(g, depth, maxTurn)
    decreases depth, 2
  {
    if !IsLeaf(g, depth) {
      if maxTurn {
        MaxFromCountBound(v, g, depth, 0, alpha, beta, -MaxSize, 0, c);
      } else {
        MinFromCountBound(v, g, depth, 0, alpha, beta, MaxSize, 0, c);
      }
    }
  }

  lemma {:induction false} MaxFromCountBound(v: Variant, g: Board, depth: nat, i: nat, alpha: int, beta: int,
                                             value: int, bestCol: int, c: nat)
    requires IsBoard(g) && depth > 0 && i <= |ValidColumns(g)|
    ensures c < AlphaBetaMaxFrom(v, g, depth, i, alpha, beta, value, bestCol, c).count
              <= c + 1 + InternalNodesFrom(g, depth, true, i)
    decreases depth, 1, |ValidColumns(g)| - i
  {
    var cols := ValidColumns(g);
    if i < |cols| {
      var child := Drop(g, cols[i], PlayerPiece);
      AlphaBetaCountBound(v, child, depth - 1, alpha, beta, false, c);
      var r := AlphaBeta(v, child, depth - 1, alpha, beta, false, c);
      var value' := if r.score > value then r.score else value;
      var bestCol' := if r.score > value then cols[i] else bestCol;
      MaxFromCountBound(v, g, depth, i + 1, Max(alpha, value'), beta, value', bestCol', r.count);
    }
  }

  lemma {:induction false} MinFromCountBound(v: Variant, g: Board, depth: nat, i: nat, alpha: int, beta: int,
                                             value: int, bestCol: int, c: nat)
    requires IsBoard(g) && depth > 0 && i <= |ValidColumns(g)|
    ensures c < AlphaBetaMinFrom(v, g, depth, i, alpha, beta, value, bestCol, c).count
              <= c + 1 + InternalNodesFrom(g, depth, false, i)
    decreases depth, 1, |ValidColumns(g)| - i
  {
    var cols := ValidColumns(g);
    if i < |cols| {
      var child := Drop(g, cols[i], AiPiece);
      AlphaBetaCountBound(v, child, depth - 1, alpha, beta, true, c);
      var r := AlphaBeta(v, child, depth - 1, alpha, beta, true, c);
      var value' := if r.score < value then r.score else value;
      var bestCol' := if r.score < value then cols[i] else bestCol;
      MinFromCountBound(v, g, depth, i + 1, alpha, Min(beta, value'), value', bestCol', r.count);
    }
  }

  // ---------------------------------------------------------------------
  // Pruning keeps the value inside the window
  // ---------------------------------------------------------------------

  /** x pulled into [lo, hi]. */
  function Clamp(lo: int, hi: int, x: int): (y: int)
    requires lo <= hi
    ensures lo <= y <= hi
    ensures x <= lo ==> y == lo
    ensures x >= hi ==> y == hi
    ensures lo <= x <= hi ==> y == x
  {
    Max(lo, Min(hi, x))
  }

  /** A max node of minimax_basic never ends below the value it starts its loop with. */
  lemma {:induction false} MinimaxMaxFromAtLeast(v: Variant, g: Board, depth: nat, i: nat, value: int, bestCol: int, c: nat)
    requires IsBoard(g) && depth > 0 && i <= |ValidColumns(g)|
    ensures MinimaxMaxFrom(v, g, depth, i, value, bestCol, c).score >= value
    decreases |ValidColumns(g)| - i
  {
    var cols := ValidColumns(g);
    if i < |cols| {
      var r := Minimax(v, Drop(g, cols[i], PlayerPiece), depth - 1, false, c);
      MinimaxMaxFromAtLeast(v, g, depth, i + 1, r.score, cols[i], r.count);
      MinimaxMaxFromAtLeast(v, g, depth, i + 1, value, bestCol, r.count);
    }
  }

  /** A min node of minimax_basic never ends above the value it starts its loop with. */
  lemma {:induction false} MinimaxMinFromAtMost(v: Variant, g: Board, depth: nat, i: nat, value: int, bestCol: int, c: nat)
    requires IsBoard(g) && depth > 0 && i <= |ValidColumns(g)|
    ensures MinimaxMinFrom(v, g, depth, i, value, bestCol, c).score <= value
    decreases |ValidColumns(g)| - i
  {
    var cols := ValidColumns(g);
    if i < |cols| {
      var r := Minimax(v, Drop(g, cols[i], AiPiece), depth - 1, true, c);
      MinimaxMinFromAtMost(v, g, depth, i + 1, r.score, cols[i], r.count);
      MinimaxMinFromAtMost(v, g, depth, i + 1, value, bestCol, r.count);
    }
  }

  /**
   * One turn of a max loop, on numbers: the loop has raised alpha0 to
   * alpha = max(alpha0, value), and the child's two values agree once
   * clamped to [alpha, beta]; then the new running maxima agree once
   * clamped to [alpha0, beta].
   */
  lemma ClampMaxStep(alpha0: int, alpha: int, beta: int, value: int, w: int, r: int, s: int)
    requires alpha0 <= alpha < beta && alpha == Max(alpha0, value)
    requires Clamp(alpha0, beta, value) == Clamp(alpha0, beta, w)
    requires Clamp(alpha, beta, r) == Clamp(alpha, beta, s)
    ensures Clamp(alpha0, beta, Max(value, r)) == Clamp(alpha0, beta, Max(w, s))
  {
  }

  /** The same for a min loop, which lowers beta0 to beta = min(beta0, value). */
  lemma ClampMinStep(alpha: int, beta0: int, beta: int, value: int, w: int, r: int, s: int)
    requires alpha < beta <= beta0 && beta == Min(beta0, value)
    requires Clamp(alpha, beta0, value) == Clamp(alpha, beta0, w)
    requires Clamp(alpha, beta, r) == Clamp(alpha, beta, s)
    ensures Clamp(alpha, beta0, Min(value, r)) == Clamp(alpha, beta0, Min(w, s))
  {
  }

  /**
   * Within a window -sys.maxsize <= alpha < beta <= sys.maxsize, the pruned
   * search and minimax_basic agree once their scores are clamped to the
   * window: an exact value inside it, a bound outside it.
   */
  lemma {:induction false} AlphaBetaClamp(v: Variant, g: Board, depth: nat, alpha: int, beta: int, maxTurn: bool, c: nat, c': nat)
    requires IsBoard(g) && -MaxSize <= alpha < beta <= MaxSize
    ensures Clamp(alpha, beta, AlphaBeta(v, g, depth, alpha, beta, maxTurn, c).score)
         == Clamp(alpha, beta, Minimax(v, g, depth, maxTurn, c').score)
    decreases depth, 2
  {
    if !IsLeaf(g, depth) {
      if maxTurn {
        MaxFromClamp(v, g, depth, 0, alpha, beta, alpha, -MaxSize, 0, c, -MaxSize, 0, c');
      } else {
        MinFromClamp(v, g, depth, 0, alpha, beta, beta, MaxSize, 0, c, MaxSize, 0, c');
      }
    }
  }

  /** One child of a max loop keeps the running scores of both searches equal once clamped. */
  lemma MaxChildClamp(v: Variant, child: Board, depth: nat, alpha0: int, alpha: int, beta: int,
                      value: int, w: int, c: nat, c': nat)
    requires IsBoard(child) && -MaxSize <= alpha0 <= alpha < beta <= MaxSize && alpha == Max(alpha0, value)
    requires Clamp(alpha0, beta, value) == Clamp(alpha0, beta, w)
    ensures Clamp(alpha0, beta, Max(value, AlphaBeta(v, child, depth, alpha, beta, false, c).score))
         == Clamp(alpha0, beta, Max(w, Minimax(v, child, depth, false, c').score))
    decreases depth + 1, 0, 0
  {
    AlphaBetaClamp(v, child, depth, alpha, beta, false, c, c');
    ClampMaxStep(alpha0, alpha, beta, value, w, AlphaBeta(v, child, depth, alpha, beta, false, c).score,
                 Minimax(v, child, depth, false, c').score);
  }

  /** One child of a min loop keeps the running scores of both searches equal once clamped. */
  lemma MinChildClamp(v: Variant, child: Board, depth: nat, alpha: int, beta0: int, beta: int,
                      value: int, w: int, c: nat, c': nat)
    requires IsBoard(child) && -MaxSize <= alpha < beta <= beta0 <= MaxSize && beta == Min(beta0, value)
    requires Clamp(alpha, beta0, value) == Clamp(alpha, beta0, w)
    ensures Clamp(alpha, beta0, Min(value, AlphaBeta(v, child, depth, alpha, beta, true, c).score))
         == Clamp(alpha, beta0, Min(w, Minimax(v, child, depth, true, c').score))
    decreases depth + 1, 0, 0
  {
    AlphaBetaClamp(v, child, depth, alpha, beta, true, c, c');
    ClampMinStep(alpha, beta0, beta, value, w, AlphaBeta(v, child, depth, alpha, beta, true, c).score,
                 Minimax(v, child, depth, true, c').score);
  }

  lemma {:induction false} MaxFromClamp(v: Variant, g: Board, depth: nat, i: nat, alpha0: int, beta: int,
                                        alpha: int, value: int, bestCol: int, c: nat,
                                        w: int, wCol: int, c': nat)
    requires IsBoard(g) && depth > 0 && i <= |ValidColumns(g)|
    requires -MaxSize <= alpha0 <= alpha < beta <= MaxSize && alpha == Max(alpha0, value)
    requires Clamp(alpha0, beta, value) == Clamp(alpha0, beta, w)
    ensures Clamp(alpha0, beta, AlphaBetaMaxFrom(v, g, depth, i, alpha, beta, value, bestCol, c).score)
         == Clamp(alpha0, beta, MinimaxMaxFrom(v, g, depth, i, w, wCol, c').score)
    decreases depth, 1, |ValidColumns(g)| - i
  {
    var cols := ValidColumns(g);
    if i < |cols| {
      var child := Drop(g, cols[i], PlayerPiece);
      MaxChildClamp(v, child, depth - 1, alpha0, alpha, beta, value, w, c, c');
      var r := AlphaBeta(v, child, depth - 1, alpha, beta, false, c);
      var s := Minimax(v, child, depth - 1, false, c');
      var value' := if r.score > value then r.score else value;
      var bestCol' := if r.score > value then cols[i] else bestCol;
      var w' := if s.score > w then s.score else w;
      var wCol' := if s.score > w then cols[i] else wCol;
      if Max(alpha, value') >= beta {
        MinimaxMaxFromAtLeast(v, g, depth, i + 1, w', wCol', s.count);
      } else {
        MaxFromClamp(v, g, depth, i + 1, alpha0, beta, Max(alpha, value'), value', bestCol', r.count, w', wCol', s.count);
      }
    }
  }

  lemma {:induction false} MinFromClamp(v: Variant, g: Board, depth: nat, i: nat, alpha: int, beta0: int,
                                        beta: int, value: int, bestCol: int, c: nat,
                                        w: int, wCol: int, c': nat)
    requires IsBoard(g) && depth > 0 && i <= |ValidColumns(g)|
    requires -MaxSize <= alpha < beta <= beta0 <= MaxSize && beta == Min(beta0, value)
    requires Clamp(alpha, beta0, value) == Clamp(alpha, beta0, w)
    ensures Clamp(alpha, beta0, AlphaBetaMinFrom(v, g, depth, i, alpha, beta, value, bestCol, c).score)
         == Clamp(alpha, beta0, MinimaxMinFrom(v, g, depth, i, w, wCol, c').score)
    decreases depth, 1, |ValidColumns(g)| - i
  {
    var cols := ValidColumns(g);
    if i < |cols| {
      var child := Drop(g, cols[i], AiPiece);
      MinChildClamp(v, child, depth - 1, alpha, beta0, beta, value, w, c, c');
      var r := AlphaBeta(v, child, depth - 1, alpha, beta, true, c);
      var s := Minimax(v, child, depth - 1, true, c');
      var value' := if r.score < value then r.score else value;
      var bestCol' := if r.score < value then cols[i] else bestCol;
      var w' := if s.score < w then s.score else w;
      var wCol' := if s.score < w then cols[i] else wCol;
      if alpha >= Min(beta, value') {
        MinimaxMinFromAtMost(v, g, depth, i + 1, w', wCol', s.count);
      } else {
        MinFromClamp(v, g, depth, i + 1, alpha, beta0, Min(beta, value'), value', bestCol', r.count, w', wCol', s.count);
      }
    }
  }

  // ---------------------------------------------------------------------
  // The root window (-sys.maxsize, sys.maxsize)
  // ---------------------------------------------------------------------

  /**
   * The constants keep every score within sys.maxsize at this depth: a
   * win with its aging bonus and a board evaluation (69 windows) both fit.
   */
  predicate Fits(v: Variant, depth: nat)
  {
    NonNegative(v.weights) && 0 <= v.winScore && v.winScore + depth * AgingPenalty <= MaxSize
    && 69 * WeightBound(v.weights) <= MaxSize
  }

  /** Both variants the program uses fit at any depth below 3 * 10^18. */
  lemma VariantsFit(depth: nat)
    requires depth <= 3_000_000_000_000_000_000
    ensures Fits(OfflineVariant, depth) && Fits(FastVariant, depth)
  {
  }

  lemma LeafRange(v: Variant, g: Board, depth: nat, c: nat)
    requires IsBoard(g) && IsLeaf(g, depth) && Fits(v, depth)
    ensures -MaxSize <= LeafResult(v, g, depth, c).score <= MaxSize
  {
    EvaluateBound(g, AiPiece, v.weights);
  }

  /** Every score of the pruned search lies within sys.maxsize. */
  lemma {:induction false} AlphaBetaRange(v: Variant, g: Board, depth: nat, alpha: int, beta: int, maxTurn: bool, c: nat)
    requires IsBoard(g) && Fits(v, depth)
    ensures -MaxSize <= AlphaBeta(v, g, depth, alpha, beta, maxTurn, c).score <= MaxSize
    decreases depth, 2
  {
    if IsLeaf(g, depth) {
      LeafRange(v, g, depth, c);
    } else if maxTurn {
      MaxFromRange(v, g, depth, 0, alpha, beta, -MaxSize, 0, c);
    } else {
      MinFromRange(v, g, depth, 0, alpha, beta, MaxSize, 0, c);
    }
  }

  lemma {:induction false} MaxFromRange(v: Variant, g: Board, depth: nat, i: nat, alpha: int, beta: int,
                                        value: int, bestCol: int, c: nat)
    requires IsBoard(g) && depth > 0 && i <= |ValidColumns(g)| && Fits(v, depth)
    requires -MaxSize <= value <= MaxSize
    ensures -MaxSize <= AlphaBetaMaxFrom(v, g, depth, i, alpha, beta, value, bestCol, c).score <= MaxSize
    decreases depth, 1, |ValidColumns(g)| - i
  {
    var cols := ValidColumns(g);
    if i < |cols| {
      var child := Drop(g, cols[i], PlayerPiece);
      AlphaBetaRange(v, child, depth - 1, alpha, beta, false, c);
      var r := AlphaBeta(v, child, depth - 1, alpha, beta, false, c);
      var value' := if r.score > value then r.score else value;
      var bestCol' := if r.score > value then cols[i] else bestCol;
      MaxFromRange(v, g, depth, i + 1, Max(alpha, value'), beta, value', bestCol', r.count);
    }
  }

  lemma {:induction false} MinFromRange(v: Variant, g: Board, depth: nat, i: nat, alpha: int, beta: int,
                                        value: int, bestCol: int, c: nat)
    requires IsBoard(g) && depth > 0 && i <= |ValidColumns(g)| && Fits(v, depth)
    requires -MaxSize <= value <= MaxSize
    ensures -MaxSize <= AlphaBetaMinFrom(v, g, depth, i, alpha, beta, value, bestCol, c).score <= MaxSize
    decreases depth, 1, |ValidColumns(g)| - i
  {
    var cols := ValidColumns(g);
    if i < |cols| {
      var child := Drop(g, cols[i], AiPiece);
      AlphaBetaRange(v, child, depth - 1, alpha, beta, true, c);
      var r := AlphaBeta(v, child, depth - 1, alpha, beta, true, c);
      var value' := if r.score < value then r.score else value;
      var bestCol' := if r.score < value then cols[i] else bestCol;
      MinFromRange(v, g, depth, i + 1, alpha, Min(beta, value'), value', bestCol', r.count);
    }
  }

  /** Every score of minimax_basic lies within sys.maxsize. */
  lemma {:induction false} MinimaxRange(v: Variant, g: Board, depth: nat, maxTurn: bool, c: nat)
    requires IsBoard(g) && Fits(v, depth)
    ensures -MaxSize <= Minimax(v, g, depth, maxTurn, c).score <= MaxSize
    decreases depth, 2
  {
    if IsLeaf(g, depth) {
      LeafRange(v, g, depth, c);
    } else if maxTurn {
      MinimaxMaxFromRange(v, g, depth, 0, -MaxSize, 0, c);
    } else {
      MinimaxMinFromRange(v, g, depth, 0, MaxSize, 0, c);
    }
  }

  lemma {:induction false} MinimaxMaxFromRange(v: Variant, g: Board, depth: nat, i: nat, value: int, bestCol: int, c: nat)
    requires IsBoard(g) && depth > 0 && i <= |ValidColumns(g)| && Fits(v, depth)
    requires -MaxSize <= value <= MaxSize
    ensures -MaxSize <= MinimaxMaxFrom(v, g, depth, i, value, bestCol, c).score <= MaxSize
    decreases depth, 1, |ValidColumns(g)| - i
  {
    var cols := ValidColumns(g);
    if i < |cols| {
      var child := Drop(g, cols[i], PlayerPiece);
      MinimaxRange(v, child, depth - 1, false, c);
      var r := Minimax(v, child, depth - 1, false, c);
      MinimaxMaxFromRange(v, g, depth, i + 1, r.score, cols[i], r.count);
      MinimaxMaxFromRange(v, g, depth, i + 1, value, bestCol, r.count);
    }
  }

  lemma {:induction false} MinimaxMinFromRange(v: Variant, g: Board, depth: nat, i: nat, value: int, bestCol: int, c: nat)
    requires IsBoard(g) && depth > 0 && i <= |ValidColumns(g)| && Fits(v, depth)
    requires -MaxSize <= value <= MaxSize
    ensures -MaxSize <= MinimaxMinFrom(v, g, depth, i, value, bestCol, c).score <= MaxSize
    decreases depth, 1, |ValidColumns(g)| - i
  {
    var cols := ValidColumns(g);
    if i < |cols| {
      var child := Drop(g, cols[i], AiPiece);
      MinimaxRange(v, child, depth - 1, true, c);
      var r := Minimax(v, child, depth - 1, true, c);
      MinimaxMinFromRange(v, g, depth, i + 1, r.score, cols[i], r.count);
      MinimaxMinFromRange(v, g, depth, i + 1, value, bestCol, r.count);
    }
  }

  /**
   * Called with the window (-sys.maxsize, sys.maxsize), the pruned search
   * returns the score of minimax_basic, whoever is to move.
   */
  lemma FullWindowScore(v: Variant, g: Board, depth: nat, maxTurn: bool, c: nat, c': nat)
    requires IsBoard(g) && Fits(v, depth)
    ensures AlphaBeta(v, g, depth, -MaxSize, MaxSize, maxTurn, c).score == Minimax(v, g, depth, maxTurn, c').score
  {
    AlphaBetaClamp(v, g, depth, -MaxSize, MaxSize, maxTurn, c, c');
    AlphaBetaRange(v, g, depth, -MaxSize, MaxSize, maxTurn, c);
    MinimaxRange(v, g, depth, maxTurn, c');
  }

  /** Once a max loop of minimax_basic holds sys.maxsize, no later column replaces it. */
  lemma {:induction false} MinimaxMaxFromTop(v: Variant, g: Board, depth: nat, i: nat, bestCol: int, c: nat)
    requires IsBoard(g) && depth > 0 && i <= |ValidColumns(g)| && Fits(v, depth)
    ensures MinimaxMaxFrom(v, g, depth, i, MaxSize, bestCol, c).col == bestCol
    ensures MinimaxMaxFrom(v, g, depth, i, MaxSize, bestCol, c).score == MaxSize
    decreases |ValidColumns(g)| - i
  {
    var cols := ValidColumns(g);
    if i < |cols| {
      var child := Drop(g, cols[i], PlayerPiece);
      MinimaxRange(v, child, depth - 1, false, c);
      var r := Minimax(v, child, depth - 1, false, c);
      MinimaxMaxFromTop(v, g, depth, i + 1, bestCol, r.count);
    }
  }

  /**
   * A min-node search with the window (value, sys.maxsize) tells the same
   * children apart as minimax does: it scores above value exactly when
   * minimax does, and then with minimax's score.
   */
  lemma WindowAgreesAbove(v: Variant, g: Board, depth: nat, value: int, c: nat, c': nat)
    requires IsBoard(g) && Fits(v, depth) && -MaxSize <= value < MaxSize
    ensures var r := AlphaBeta(v, g, depth, value, MaxSize, false, c);
      var s := Minimax(v, g, depth, false, c');
      (r.score > value <==> s.score > value) && (s.score > value ==> r.score == s.score) &&
      s.score <= MaxSize
  {
    AlphaBetaClamp(v, g, depth, value, MaxSize, false, c, c');
    AlphaBetaRange(v, g, depth, value, MaxSize, false, c);
    MinimaxRange(v, g, depth, false, c');
  }

  /**
   * The root loop at the full window: alpha is the best score so far, so
   * a child improves on it in the pruned search exactly when it does in
   * minimax_basic, and with the same score.
   */
  lemma {:induction false} RootMaxFrom(v: Variant, g: Board, depth: nat, i: nat, value: int, bestCol: int, c: nat, c': nat)
    requires IsBoard(g) && depth > 0 && i <= |ValidColumns(g)| && Fits(v, depth)
    requires -MaxSize <= value < MaxSize
    ensures AlphaBetaMaxFrom(v, g, depth, i, value, MaxSize, value, bestCol, c).col
         == MinimaxMaxFrom(v, g, depth, i, value, bestCol, c').col
    ensures AlphaBetaMaxFrom(v, g, depth, i, value, MaxSize, value, bestCol, c).score
         == MinimaxMaxFrom(v, g, depth, i, value, bestCol, c').score
    decreases |ValidColumns(g)| - i
  {
    var cols := ValidColumns(g);
    if i < |cols| {
      var child := Drop(g, cols[i], PlayerPiece);
      WindowAgreesAbove(v, child, depth - 1, value, c, c');
      var r := AlphaBeta(v, child, depth - 1, value, MaxSize, false, c);
      var s := Minimax(v, child, depth - 1, false, c');
      if s.score > value {
        if s.score >= MaxSize {
          MinimaxMaxFromTop(v, g, depth, i + 1, cols[i], s.count);
        } else {
          RootMaxFrom(v, g, depth, i + 1, s.score, cols[i], r.count, s.count);
        }
      } else {
        RootMaxFrom(v, g, depth, i + 1, value, bestCol, r.count, s.count);
      }
    }
  }

  /**
   * The root call of connect4-offline.py, minimax(board, depth,
   * -sys.maxsize, sys.maxsize, True, 0), picks the column and the score
   * that minimax_basic(board, depth, True, 0) picks.
   */
  lemma FullWindowRoot(v: Variant, g: Board, depth: nat, c: nat, c': nat)
    requires IsBoard(g) && Fits(v, depth)
    ensures AlphaBeta(v, g, depth, -MaxSize, MaxSize, true, c).col == Minimax(v, g, depth, true, c').col
    ensures AlphaBeta(v, g, depth, -MaxSize, MaxSize, true, c).score == Minimax(v, g, depth, true, c').score
  {
    if !IsLeaf(g, depth) {
      RootMaxFrom(v, g, depth, 0, -MaxSize, 0, c, c');
    }
  }

  /**
   * With either program's constants a won position outranks every board
   * evaluation, at any depth.
   */
  lemma WinOutranksEvaluation(v: Variant, g: Board)
    requires IsBoard(g) && (v == OfflineVariant || v == FastVariant)
    ensures -v.winScore < Evaluate(g, AiPiece, v.weights) < v.winScore
  {
    EvaluateBound(g, AiPiece, v.weights);
  }
}
