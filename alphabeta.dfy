/**
 * alphabeta_search of Connect4-Bitboard/minimax_alphabeta.py.
 *
 * The nested max_value / min_value closures become the methods of a class
 * whose fields are the captured variables: `turn` (who went first), the depth
 * limit `d` and the `seen` dictionary, keyed by the __eq__ fingerprint of a
 * State.  Each method is proved against a specification function over
 * Position values that follows the same loop: MaxNode / MinNode for a node,
 * MaxLoop / MinLoop for the loop over its children.
 */
module AlphaBetaSearch {
  import opened Wrappers
  import opened BitSets
  import opened GameState

  /** What a max_value / min_value call returns, and the `seen` it leaves. */
  datatype Outcome = Outcome(value: int, count: nat, seen: map<Key, int>)

  /**
   * max_value(state, alpha, beta, depth, cnt) for a state at position p whose
   * status field holds `status` on entry.  A node is a leaf when depth > d
   * (the heuristic then sees the status it had on entry) or when
   * terminal_node_test finds a result.
   */
  function MaxNode(first: int, d: int, p: Position, status: int, alpha: int, beta: int,
                   depth: nat, cnt: nat, seen: map<Key, int>): Outcome
    decreases Budget(d, depth), 1, 0
  {
    if depth > d then Outcome(Heuristic(status, p.ply), cnt + 1, seen)
    else if TerminalStatus(p) != Unset then Outcome(Heuristic(TerminalStatus(p), p.ply), cnt + 1, seen)
    else MaxLoop(first, d, Children(p, first), 0, -MaxSize, alpha, beta, depth, cnt, seen)
  }

  /** The loop of max_value from child i on, with v, alpha, cnt and seen as they are then. */
  function MaxLoop(first: int, d: int, kids: seq<Position>, i: nat, v: int, alpha: int, beta: int,
                   depth: nat, cnt: nat, seen: map<Key, int>): Outcome
    requires depth <= d && i <= |kids|
    decreases Budget(d, depth), 0, |kids| - i
  {
    if i == |kids| then Outcome(if v == -MaxSize then MaxSize else v, cnt + 1, seen)
    else if KeyOf(kids[i]) in seen then MaxLoop(first, d, kids, i + 1, v, alpha, beta, depth, cnt, seen)
    else
      var o := MinNode(first, d, kids[i], Unset, alpha, beta, depth + 1, cnt, seen);
      var v' := Max(v, o.value);
      var seen' := o.seen[KeyOf(kids[i]) := alpha];
      if v' >= beta then Outcome(v', o.count + 1, seen')
      else MaxLoop(first, d, kids, i + 1, v', Max(alpha, v'), beta, depth, o.count, seen')
  }

  /** min_value(state, alpha, beta, depth, cnt). */
  function MinNode(first: int, d: int, p: Position, status: int, alpha: int, beta: int,
                   depth: nat, cnt: nat, seen: map<Key, int>): Outcome
    decreases Budget(d, depth), 1, 0
  {
    if depth > d then Outcome(Heuristic(status, p.ply), cnt + 1, seen)
    else if TerminalStatus(p) != Unset then Outcome(Heuristic(TerminalStatus(p), p.ply), cnt + 1, seen)
    else MinLoop(first, d, Children(p, first), 0, MaxSize, alpha, beta, depth, cnt, seen)
  }

  /** The loop of min_value from child i on. */
  function MinLoop(first: int, d: int, kids: seq<Position>, i: nat, v: int, alpha: int, beta: int,
                   depth: nat, cnt: nat, seen: map<Key, int>): Outcome
    requires depth <= d && i <= |kids|
    decreases Budget(d, depth), 0, |kids| - i
  {
    if i == |kids| then Outcome(if v == MaxSize then -MaxSize else v, cnt + 1, seen)
    else if KeyOf(kids[i]) in seen then MinLoop(first, d, kids, i + 1, v, alpha, beta, depth, cnt, seen)
    else
      var o := MaxNode(first, d, kids[i], Unset, alpha, beta, depth + 1, cnt, seen);
      var v' := Min(v, o.value);
      var seen' := o.seen[KeyOf(kids[i]) := alpha];
      if v' <= alpha then Outcome(v', o.count + 1, seen')
      else MinLoop(first, d, kids, i + 1, v', alpha, Min(beta, v'), depth, o.count, seen')
  }

  /** What the root loop computes: the index of the chosen child, its score and the count. */
  datatype RootResult = RootResult(best: Option<nat>, score: int, count: nat)

  /** The root loop from child i on: each child is searched with alpha = best score so far. */
  function RootLoop(first: int, d: int, kids: seq<Position>, i: nat, bestScore: int,
                    best: Option<nat>, cnt: nat, seen: map<Key, int>): RootResult
    requires i <= |kids|
    decreases |kids| - i
  {
    if i == |kids| then RootResult(best, bestScore, cnt)
    else
      var o := MinNode(first, d, kids[i], Unset, bestScore, MaxSize, 1, 0, seen);
      if o.value > bestScore then RootLoop(first, d, kids, i + 1, o.value, Some(i), o.count, o.seen)
      else RootLoop(first, d, kids, i + 1, bestScore, best, o.count, o.seen)
  }

  /** alphabeta_search(state, first, d), with a fresh, empty `seen`. */
  function RootSearch(first: int, d: int, p: Position): RootResult
  {
    RootLoop(first, d, Children(p, first), 0, -MaxSize, None, 0, map[])
  }

  // ---------------------------------------------------------------------
  // Properties of the search
  // ---------------------------------------------------------------------

  /**
   * A search never forgets a fingerprint and always counts at least the node
   * it was called on.
   */
  lemma {:induction false} MaxNodeGrows(first: int, d: int, p: Position, status: int, alpha: int,
                                        beta: int, depth: nat, cnt: nat, seen: map<Key, int>)
    ensures var o := MaxNode(first, d, p, status, alpha, beta, depth, cnt, seen);
      seen.Keys <= o.seen.Keys && o.count > cnt
    decreases Budget(d, depth), 1, 0
  {
    if depth <= d && TerminalStatus(p) == Unset {
      MaxLoopGrows(first, d, Children(p, first), 0, -MaxSize, alpha, beta, depth, cnt, seen);
    }
  }

  lemma {:induction false} MaxLoopGrows(first: int, d: int, kids: seq<Position>, i: nat, v: int,
                                        alpha: int, beta: int, depth: nat, cnt: nat, seen: map<Key, int>)
    requires depth <= d && i <= |kids|
    ensures var o := MaxLoop(first, d, kids, i, v, alpha, beta, depth, cnt, seen);
      seen.Keys <= o.seen.Keys && o.count > cnt
    decreases Budget(d, depth), 0, |kids| - i
  {
    if i < |kids| {
      if KeyOf(kids[i]) in seen {
        MaxLoopGrows(first, d, kids, i + 1, v, alpha, beta, depth, cnt, seen);
      } else {
        var o := MinNode(first, d, kids[i], Unset, alpha, beta, depth + 1, cnt, seen);
        MinNodeGrows(first, d, kids[i], Unset, alpha, beta, depth + 1, cnt, seen);
        var v' := Max(v, o.value);
        if v' < beta {
          MaxLoopGrows(first, d, kids, i + 1, v', Max(alpha, v'), beta, depth, o.count,
                       o.seen[KeyOf(kids[i]) := alpha]);
        }
      }
    }
  }

  lemma {:induction false} MinNodeGrows(first: int, d: int, p: Position, status: int, alpha: int,
                                        beta: int, depth: nat, cnt: nat, seen: map<Key, int>)
    ensures var o := MinNode(first, d, p, status, alpha, beta, depth, cnt, seen);
      seen.Keys <= o.seen.Keys && o.count > cnt
    decreases Budget(d, depth), 1, 0
  {
    if depth <= d && TerminalStatus(p) == Unset {
      MinLoopGrows(first, d, Children(p, first), 0, MaxSize, alpha, beta, depth, cnt, seen);
    }
  }

  lemma {:induction false} MinLoopGrows(first: int, d: int, kids: seq<Position>, i: nat, v: int,
                                        alpha: int, beta: int, depth: nat, cnt: nat, seen: map<Key, int>)
    requires depth <= d && i <= |kids|
    ensures var o := MinLoop(first, d, kids, i, v, alpha, beta, depth, cnt, seen);
      seen.Keys <= o.seen.Keys && o.count > cnt
    decreases Budget(d, depth), 0, |kids| - i
  {
    if i < |kids| {
      if KeyOf(kids[i]) in seen {
        MinLoopGrows(first, d, kids, i + 1, v, alpha, beta, depth, cnt, seen);
      } else {
        var o := MaxNode(first, d, kids[i], Unset, alpha, beta, depth + 1, cnt, seen);
        MaxNodeGrows(first, d, kids[i], Unset, alpha, beta, depth + 1, cnt, seen);
        var v' := Min(v, o.value);
        if v' > alpha {
          MinLoopGrows(first, d, kids, i + 1, v', alpha, Min(beta, v'), depth, o.count,
                       o.seen[KeyOf(kids[i]) := alpha]);
        }
      }
    }
  }

  /**
   * Without a beta cutoff the max loop visits every remaining child: each one
   * is then in `seen`, either from before or because it was searched.
   */
  lemma {:induction false} MaxLoopRecordsChildren(first: int, d: int, kids: seq<Position>, i: nat,
                                                  v: int, alpha: int, beta: int, depth: nat,
                                                  cnt: nat, seen: map<Key, int>)
    requires depth <= d && i <= |kids|
    requires beta <= MaxSize
    ensures var o := MaxLoop(first, d, kids, i, v, alpha, beta, depth, cnt, seen);
      o.value < beta ==> forall j :: i <= j < |kids| ==> KeyOf(kids[j]) in o.seen
    decreases |kids| - i
  {
    if i < |kids| {
      if KeyOf(kids[i]) in seen {
        MaxLoopRecordsChildren(first, d, kids, i + 1, v, alpha, beta, depth, cnt, seen);
        MaxLoopGrows(first, d, kids, i + 1, v, alpha, beta, depth, cnt, seen);
      } else {
        var o := MinNode(first, d, kids[i], Unset, alpha, beta, depth + 1, cnt, seen);
        var v' := Max(v, o.value);
        var seen' := o.seen[KeyOf(kids[i]) := alpha];
        if v' < beta {
          MaxLoopRecordsChildren(first, d, kids, i + 1, v', Max(alpha, v'), beta, depth, o.count, seen');
          MaxLoopGrows(first, d, kids, i + 1, v', Max(alpha, v'), beta, depth, o.count, seen');
        }
      }
    }
  }

  /** The min loop visits every remaining child unless it stops on v <= alpha. */
  lemma {:induction false} MinLoopRecordsChildren(first: int, d: int, kids: seq<Position>, i: nat,
                                                  v: int, alpha: int, beta: int, depth: nat,
                                                  cnt: nat, seen: map<Key, int>)
    requires depth <= d && i <= |kids|
    requires alpha >= -MaxSize
    ensures var o := MinLoop(first, d, kids, i, v, alpha, beta, depth, cnt, seen);
      o.value > alpha ==> forall j :: i <= j < |kids| ==> KeyOf(kids[j]) in o.seen
    decreases |kids| - i
  {
    if i < |kids| {
      if KeyOf(kids[i]) in seen {
        MinLoopRecordsChildren(first, d, kids, i + 1, v, alpha, beta, depth, cnt, seen);
        MinLoopGrows(first, d, kids, i + 1, v, alpha, beta, depth, cnt, seen);
      } else {
        var o := MaxNode(first, d, kids[i], Unset, alpha, beta, depth + 1, cnt, seen);
        var v' := Min(v, o.value);
        var seen' := o.seen[KeyOf(kids[i]) := alpha];
        if v' > alpha {
          MinLoopRecordsChildren(first, d, kids, i + 1, v', alpha, Min(beta, v'), depth, o.count, seen');
          MinLoopGrows(first, d, kids, i + 1, v', alpha, Min(beta, v'), depth, o.count, seen');
        }
      }
    }
  }

  /**
   * When every child of an expanded max node is already in `seen`, nothing is
   * searched and max_value reports +sys.maxsize with one node counted.
   */
  lemma {:induction false} MaxLoopAllSeen(first: int, d: int, kids: seq<Position>, i: nat, alpha: int,
                                          beta: int, depth: nat, cnt: nat, seen: map<Key, int>)
    requires depth <= d && i <= |kids|
    requires forall j :: i <= j < |kids| ==> KeyOf(kids[j]) in seen
    ensures MaxLoop(first, d, kids, i, -MaxSize, alpha, beta, depth, cnt, seen) == Outcome(MaxSize, cnt + 1, seen)
    decreases |kids| - i
  {
    if i < |kids| {
      MaxLoopAllSeen(first, d, kids, i + 1, alpha, beta, depth, cnt, seen);
    }
  }

  lemma {:induction false} MinLoopAllSeen(first: int, d: int, kids: seq<Position>, i: nat, alpha: int,
                                          beta: int, depth: nat, cnt: nat, seen: map<Key, int>)
    requires depth <= d && i <= |kids|
    requires forall j :: i <= j < |kids| ==> KeyOf(kids[j]) in seen
    ensures MinLoop(first, d, kids, i, MaxSize, alpha, beta, depth, cnt, seen) == Outcome(-MaxSize, cnt + 1, seen)
    decreases |kids| - i
  {
    if i < |kids| {
      MinLoopAllSeen(first, d, kids, i + 1, alpha, beta, depth, cnt, seen);
    }
  }

  /**
   * A node cut off by depth never runs terminal_node_test: with the default
   * status it reports +sys.maxsize at even depth and -sys.maxsize at odd
   * depth, even when one side has already won.
   */
  lemma DepthCutoffIgnoresWins(first: int, d: int, p: Position, alpha: int, beta: int, depth: nat,
                               cnt: nat, seen: map<Key, int>)
    requires depth > d
    ensures MaxNode(first, d, p, Unset, alpha, beta, depth, cnt, seen)
         == MinNode(first, d, p, Unset, alpha, beta, depth, cnt, seen)
         == Outcome(if p.ply % 2 == 0 then MaxSize else -MaxSize, cnt + 1, seen)
  {
  }

  /**
   * The root keeps the first child whose score beats every earlier one: it
   * reports no action exactly when no child scored above -sys.maxsize, and
   * otherwise a valid child index whose score is the reported best score.
   */
  lemma {:induction false} RootLoopChoice(first: int, d: int, kids: seq<Position>, i: nat,
                                          bestScore: int, best: Option<nat>, cnt: nat,
                                          seen: map<Key, int>)
    requires i <= |kids|
    requires bestScore >= -MaxSize
    requires best.None? <==> bestScore == -MaxSize
    requires best.Some? ==> best.value < i
    ensures var r := RootLoop(first, d, kids, i, bestScore, best, cnt, seen);
      r.score >= bestScore &&
      (r.best.None? <==> r.score == -MaxSize) &&
      (r.best.Some? ==> r.best.value < |kids|) &&
      (r.best != best ==> r.best.Some? && i <= r.best.value && r.score > bestScore)
    decreases |kids| - i
  {
    if i < |kids| {
      var o := MinNode(first, d, kids[i], Unset, bestScore, MaxSize, 1, 0, seen);
      if o.value > bestScore {
        RootLoopChoice(first, d, kids, i + 1, o.value, Some(i), o.count, o.seen);
      } else {
        RootLoopChoice(first, d, kids, i + 1, bestScore, best, o.count, o.seen);
      }
    }
  }

  /**
   * The count the root returns belongs to the last root child alone: the
   * counts of earlier children are dropped because cnt restarts at 0.
   */
  lemma RootCountIsLastChild(first: int, d: int, kids: seq<Position>, i: nat, bestScore: int,
                             best: Option<nat>, cnt1: nat, cnt2: nat, seen: map<Key, int>)
    requires i < |kids|
    ensures RootLoop(first, d, kids, i, bestScore, best, cnt1, seen).count
         == RootLoop(first, d, kids, i, bestScore, best, cnt2, seen).count
  {
  }

  /** The root loop's running values after the first k children: best score, choice, count and seen. */
  datatype RootState = RootState(score: int, best: Option<nat>, count: nat, seen: map<Key, int>)

  function RootPrefix(first: int, d: int, kids: seq<Position>, k: nat): RootState
    requires k <= |kids|
    decreases k
  {
    if k == 0 then RootState(-MaxSize, None, 0, map[])
    else
      var a := RootPrefix(first, d, kids, k - 1);
      var o := MinNode(first, d, kids[k - 1], Unset, a.score, MaxSize, 1, 0, a.seen);
      if o.value > a.score then RootState(o.value, Some(k - 1), o.count, o.seen)
      else RootState(a.score, a.best, o.count, o.seen)
  }

  /** The value root child k gets: min_value with alpha = the best score before it and the seen table as it is then. */
  function RootChildValue(first: int, d: int, kids: seq<Position>, k: nat): int
    requires k < |kids|
  {
    var a := RootPrefix(first, d, kids, k);
    MinNode(first, d, kids[k], Unset, a.score, MaxSize, 1, 0, a.seen).value
  }

  /** Running the root loop from child k with the values the first k children left is running it from the start. */
  lemma {:induction false} RootLoopFromPrefix(first: int, d: int, kids: seq<Position>, k: nat)
    requires k <= |kids|
    ensures var a := RootPrefix(first, d, kids, k);
      RootLoop(first, d, kids, k, a.score, a.best, a.count, a.seen) == RootLoop(first, d, kids, 0, -MaxSize, None, 0, map[])
    decreases k
  {
    if k > 0 {
      RootLoopFromPrefix(first, d, kids, k - 1);
    }
  }

  /**
   * After k children the running choice is the first of them whose value is
   * strictly greater than every earlier one, and the running score is its
   * value, no smaller than any value so far; None while every value is
   * -sys.maxsize.
   */
  lemma {:induction false} RootPrefixChoice(first: int, d: int, kids: seq<Position>, k: nat)
    requires k <= |kids|
    ensures var a := RootPrefix(first, d, kids, k);
      a.score >= -MaxSize &&
      (a.best.None? <==> a.score == -MaxSize) &&
      (a.best.Some? ==> a.best.value < k && a.score == RootChildValue(first, d, kids, a.best.value)) &&
      (forall j :: 0 <= j < k ==> RootChildValue(first, d, kids, j) <= a.score) &&
      (a.best.Some? ==> forall j :: 0 <= j < a.best.value ==> RootChildValue(first, d, kids, j) < a.score)
    decreases k
  {
    if k > 0 {
      RootPrefixChoice(first, d, kids, k - 1);
      assert RootChildValue(first, d, kids, k - 1) ==
        MinNode(first, d, kids[k - 1], Unset, RootPrefix(first, d, kids, k - 1).score, MaxSize, 1, 0,
                RootPrefix(first, d, kids, k - 1).seen).value;
    }
  }

  /**
   * alphabeta_search picks the first child whose value, searched with alpha
   * set to the best score so far, is strictly greater than every earlier
   * value; its score is that value and no child's value exceeds it.  It
   * picks nothing exactly when every child scored -sys.maxsize, and the count
   * is the last child's.
   */
  lemma RootSearchChoice(first: int, d: int, p: Position)
    ensures var kids := Children(p, first);
      var r := RootSearch(first, d, p);
      (r.best.None? <==> r.score == -MaxSize) &&
      (r.best.Some? ==> r.best.value < |kids| && r.score == RootChildValue(first, d, kids, r.best.value))
    ensures var kids := Children(p, first);
      forall j :: 0 <= j < |kids| ==> RootChildValue(first, d, kids, j) <= RootSearch(first, d, p).score
    ensures var kids := Children(p, first);
      var r := RootSearch(first, d, p);
      r.best.Some? ==> forall j :: 0 <= j < r.best.value ==> RootChildValue(first, d, kids, j) < r.score
    ensures var kids := Children(p, first);
      |kids| > 0 ==>
        var a := RootPrefix(first, d, kids, |kids| - 1);
        RootSearch(first, d, p).count == MinNode(first, d, kids[|kids| - 1], Unset, a.score, MaxSize, 1, 0, a.seen).count
  {
    var kids := Children(p, first);
    RootLoopFromPrefix(first, d, kids, |kids|);
    RootPrefixChoice(first, d, kids, |kids|);
  }

  // ---------------------------------------------------------------------
  // The search as the program runs it
  // ---------------------------------------------------------------------

  class Searcher {
    /** who_went_first, passed on to generate_children. */
    const turn: int
    /** The depth limit. */
    const d: int
    /** The fingerprints of the states searched so far, with the alpha they were searched under. */
    var seen: map<Key, int>

    constructor(turn: int, d: int)
      ensures this.turn == turn && this.d == d && seen == map[]
    {
      this.turn := turn;
      this.d := d;
      seen := map[];
    }

    method MaxValue(st: State, alpha: int, beta: int, depth: nat, cnt: nat) returns (v: int, cnt': nat)
      modifies this`seen, st`status
      ensures Outcome(v, cnt', seen) == MaxNode(turn, d, st.Pos(), old(st.status), alpha, beta, depth, cnt, old(seen))
      decreases Budget(d, depth)
    {
      var cutoff := depth > d;
      if !cutoff {
        cutoff := st.TerminalNodeTest();
      }
      if cutoff {
        return st.CalculateHeuristic(), cnt + 1;
      }
      var kids := st.GenerateChildren(turn);
      ghost var ps := Positions(kids);
      v := -MaxSize;
      var a, c, i := alpha, cnt, 0;
      while i < |kids|
        invariant 0 <= i <= |kids|
        invariant MaxLoop(turn, d, ps, i, v, a, beta, depth, c, seen)
               == MaxNode(turn, d, st.Pos(), old(st.status), alpha, beta, depth, cnt, old(seen))
        invariant forall j :: 0 <= j < |kids| ==> fresh(kids[j])
        invariant forall j :: i <= j < |kids| ==> kids[j].status == Unset
        invariant a >= alpha
        decreases |kids| - i
      {
        var child := kids[i];
        assert ps[i] == child.Pos();
        if KeyOf(child.Pos()) in seen {
          i := i + 1;
          continue;
        }
        var tv, c' := MinValue(child, a, beta, depth + 1, c);
        v := Max(v, tv);
        seen := seen[KeyOf(child.Pos()) := a];
        if v >= beta {
          return v, c' + 1;
        }
        a := Max(a, v);
        c := c';
        i := i + 1;
      }
      if v == -MaxSize {
        return MaxSize, c + 1;
      }
      return v, c + 1;
    }

    method MinValue(st: State, alpha: int, beta: int, depth: nat, cnt: nat) returns (v: int, cnt': nat)
      modifies this`seen, st`status
      ensures Outcome(v, cnt', seen) == MinNode(turn, d, st.Pos(), old(st.status), alpha, beta, depth, cnt, old(seen))
      decreases Budget(d, depth)
    {
      var cutoff := depth > d;
      if !cutoff {
        cutoff := st.TerminalNodeTest();
      }
      if cutoff {
        return st.CalculateHeuristic(), cnt + 1;
      }
      var kids := st.GenerateChildren(turn);
      ghost var ps := Positions(kids);
      v := MaxSize;
      var b, c, i := beta, cnt, 0;
      while i < |kids|
        invariant 0 <= i <= |kids|
        invariant MinLoop(turn, d, ps, i, v, alpha, b, depth, c, seen)
               == MinNode(turn, d, st.Pos(), old(st.status), alpha, beta, depth, cnt, old(seen))
        invariant forall j :: 0 <= j < |kids| ==> fresh(kids[j])
        invariant forall j :: i <= j < |kids| ==> kids[j].status == Unset
        invariant b <= beta
        decreases |kids| - i
      {
        var child := kids[i];
        assert ps[i] == child.Pos();
        if KeyOf(child.Pos()) in seen {
          i := i + 1;
          continue;
        }
        var tv, c' := MaxValue(child, alpha, b, depth + 1, c);
        v := Min(v, tv);
        seen := seen[KeyOf(child.Pos()) := alpha];
        if v <= alpha {
          return v, c' + 1;
        }
        b := Min(b, v);
        c := c';
        i := i + 1;
      }
      if v == MaxSize {
        return -MaxSize, c + 1;
      }
      return v, c + 1;
    }
  }

  /**
   * alphabeta_search(state, turn, d): the child to play (None when no child
   * scored above -sys.maxsize) and the node count of the last root child.
   * The position must have a legal move; otherwise cnt is never bound.
   */
  method AlphabetaSearch(state: State, turn: int, d: int) returns (best: State?, cnt: nat)
    requires !IsDraw(state.game)
    ensures var r := RootSearch(turn, d, state.Pos());
      (best == null <==> r.best.None?) &&
      (best != null ==> r.best.value < |Children(state.Pos(), turn)| &&
                        best.Pos() == Children(state.Pos(), turn)[r.best.value]) &&
      cnt == r.count
  {
    var searcher := new Searcher(turn, d);
    var kids := state.GenerateChildren(turn);
    ghost var ps := Positions(kids);
    NoChildrenIffDraw(state.Pos(), turn);
    var bestScore := -MaxSize;
    var beta := MaxSize;
    best := null;
    ghost var bestIndex: Option<nat> := None;
    cnt := 0;
    var i := 0;
    while i < |kids|
      invariant 0 <= i <= |kids|
      invariant RootLoop(turn, d, ps, i, bestScore, bestIndex, cnt, searcher.seen) == RootSearch(turn, d, state.Pos())
      invariant forall j :: 0 <= j < |kids| ==> fresh(kids[j])
      invariant forall j :: i <= j < |kids| ==> kids[j].status == Unset
      invariant best == null <==> bestIndex.None?
      invariant best != null ==> bestIndex.value < |kids| && best == kids[bestIndex.value]
      invariant fresh(searcher)
      decreases |kids| - i
    {
      var child := kids[i];
      var v, c := searcher.MinValue(child, bestScore, beta, 1, 0);
      assert ps[i] == child.Pos();
      cnt := c;
      if v > bestScore {
        bestScore := v;
        best := child;
        bestIndex := Some(i);
      }
      i := i + 1;
    }
    assert RootLoop(turn, d, ps, i, bestScore, bestIndex, cnt, searcher.seen) == RootResult(bestIndex, bestScore, cnt);
    ghost var r := RootSearch(turn, d, state.Pos());
    assert r.best == bestIndex && r.count == cnt;
    assert ps == Children(state.Pos(), turn);
    if best != null {
      assert best.Pos() == ps[bestIndex.value];
    }
  }
}
