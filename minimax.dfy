/**
 * basic_minimax of Connect4-Bitboard/minimax.py.
 *
 * Same leaf rule as the alpha-beta search, no pruning.  The value of a node
 * is specified declaratively (the largest / smallest child value, with the
 * sentinel rule) and the count by the size of the searched tree.  The
 * `seen` dictionary of the source is created empty and never written; it is
 * a constant field here and the skip it guards is dead.
 */
module BasicMinimax {
  import opened Wrappers
  import opened BitSets
  import opened GameState

  /** The largest of -sys.maxsize and the members of s. */
  function MaxOf(s: seq<int>): int
  {
    if s == [] then -MaxSize
    else
      var m := MaxOf(s[..|s| - 1]);
      if s[|s| - 1] > m then s[|s| - 1] else m
  }

  /** The smallest of sys.maxsize and the members of s. */
  function MinOf(s: seq<int>): int
  {
    if s == [] then MaxSize
    else
      var m := MinOf(s[..|s| - 1]);
      if s[|s| - 1] < m then s[|s| - 1] else m
  }

  /** MaxOf is an upper bound of s that is -sys.maxsize or a member of s. */
  lemma {:induction false} MaxOfSpec(s: seq<int>)
    ensures MaxOf(s) >= -MaxSize
    ensures forall k :: 0 <= k < |s| ==> s[k] <= MaxOf(s)
    ensures MaxOf(s) == -MaxSize || exists k :: 0 <= k < |s| && s[k] == MaxOf(s)
  {
    if s != [] {
      var init := s[..|s| - 1];
      MaxOfSpec(init);
      assert forall k :: 0 <= k < |init| ==> init[k] == s[k];
    }
  }

  /** MinOf is a lower bound of s that is sys.maxsize or a member of s. */
  lemma {:induction false} MinOfSpec(s: seq<int>)
    ensures MinOf(s) <= MaxSize
    ensures forall k :: 0 <= k < |s| ==> MinOf(s) <= s[k]
    ensures MinOf(s) == MaxSize || exists k :: 0 <= k < |s| && s[k] == MinOf(s)
  {
    if s != [] {
      var init := s[..|s| - 1];
      MinOfSpec(init);
      assert forall k :: 0 <= k < |init| ==> init[k] == s[k];
    }
  }

  /** A node is a leaf when the depth limit is passed or terminal_node_test succeeds. */
  predicate IsLeaf(d: int, p: Position, depth: nat)
  {
    depth > d || TerminalStatus(p) != Unset
  }

  /** The value the leaf reports: its status on entry after a depth cutoff, else the test's result. */
  function LeafValue(d: int, p: Position, status: int, depth: nat): int
  {
    if depth > d then Heuristic(status, p.ply) else Heuristic(TerminalStatus(p), p.ply)
  }

  /** The value max_value returns for a state at p holding `status` on entry. */
  function MaxValueOf(first: int, d: int, p: Position, status: int, depth: nat): int
    decreases Budget(d, depth), 1
  {
    if IsLeaf(d, p, depth) then LeafValue(d, p, status, depth)
    else
      var m := MaxOf(MinValuesOf(first, d, Children(p, first), depth + 1));
      if m == -MaxSize then MaxSize else m
  }

  /** The value min_value returns. */
  function MinValueOf(first: int, d: int, p: Position, status: int, depth: nat): int
    decreases Budget(d, depth), 1
  {
    if IsLeaf(d, p, depth) then LeafValue(d, p, status, depth)
    else
      var m := MinOf(MaxValuesOf(first, d, Children(p, first), depth + 1));
      if m == MaxSize then -MaxSize else m
  }

  /** min_value of each of kids, searched at the given depth. */
  function MinValuesOf(first: int, d: int, kids: seq<Position>, depth: nat): (vs: seq<int>)
    ensures |vs| == |kids|
    decreases Budget(d, depth), 2, |kids|
  {
    if kids == [] then []
    else MinValuesOf(first, d, kids[..|kids| - 1], depth) + [MinValueOf(first, d, kids[|kids| - 1], Unset, depth)]
  }

  /** max_value of each of kids, searched at the given depth. */
  function MaxValuesOf(first: int, d: int, kids: seq<Position>, depth: nat): (vs: seq<int>)
    ensures |vs| == |kids|
    decreases Budget(d, depth), 2, |kids|
  {
    if kids == [] then []
    else MaxValuesOf(first, d, kids[..|kids| - 1], depth) + [MaxValueOf(first, d, kids[|kids| - 1], Unset, depth)]
  }

  /** The number of nodes in the tree the search explores below and including p. */
  function NodeCount(first: int, d: int, p: Position, depth: nat): (n: nat)
    ensures n >= 1
    decreases Budget(d, depth), 1
  {
    if IsLeaf(d, p, depth) then 1 else 1 + NodeCounts(first, d, Children(p, first), depth + 1)
  }

  function NodeCounts(first: int, d: int, kids: seq<Position>, depth: nat): (n: nat)
    ensures n >= |kids|
    decreases Budget(d, depth), 2, |kids|
  {
    if kids == [] then 0
    else NodeCounts(first, d, kids[..|kids| - 1], depth) + NodeCount(first, d, kids[|kids| - 1], depth)
  }

  /** The first index of a strict maximum above -sys.maxsize, as the root loop picks it. */
  function BestIndex(vs: seq<int>): Option<nat>
  {
    if vs == [] then None
    else
      var b := BestIndex(vs[..|vs| - 1]);
      if vs[|vs| - 1] > MaxOf(vs[..|vs| - 1]) then Some(|vs| - 1) else b
  }

  /**
   * The root's choice: None when every child scores -sys.maxsize; otherwise
   * the first child reaching the highest score.
   */
  lemma {:induction false} BestIndexSpec(vs: seq<int>)
    ensures BestIndex(vs).None? <==> MaxOf(vs) == -MaxSize
    ensures BestIndex(vs).Some? ==>
      var k := BestIndex(vs).value;
      k < |vs| && vs[k] == MaxOf(vs) && forall j :: 0 <= j < k ==> vs[j] < vs[k]
  {
    if vs != [] {
      var init := vs[..|vs| - 1];
      BestIndexSpec(init);
      MaxOfSpec(init);
      assert forall j :: 0 <= j < |init| ==> init[j] == vs[j];
    }
  }

  class Minimax {
    /** who_went_first, passed on to generate_children. */
    const turn: int
    /** The depth limit. */
    const d: int
    /** Created empty by basic_minimax and never written. */
    const seen: map<Key, int> := map[]

    constructor(turn: int, d: int)
      ensures this.turn == turn && this.d == d
    {
      this.turn := turn;
      this.d := d;
    }

    method MaxValue(st: State, depth: nat, cnt: nat) returns (v: int, cnt': nat)
      modifies st`status
      ensures v == MaxValueOf(turn, d, st.Pos(), old(st.status), depth)
      ensures cnt' == cnt + NodeCount(turn, d, st.Pos(), depth)
      decreases Budget(d, depth)
    {
      var cutoff := depth > d;
      if !cutoff {
        cutoff := st.TerminalNodeTest();
      }
      if cutoff {
        return st.CalculateHeuristic(), cnt + 1;
      }
      var kids := st.GenerateChildren(turn);
      ghost var ps := Positions(kids);
      v := -MaxSize;
      var c, i := cnt, 0;
      while i < |kids|
        invariant 0 <= i <= |kids|
        invariant v == MaxOf(MinValuesOf(turn, d, ps[..i], depth + 1))
        invariant c == cnt + NodeCounts(turn, d, ps[..i], depth + 1)
        invariant forall j :: 0 <= j < |kids| ==> fresh(kids[j])
        invariant forall j :: i <= j < |kids| ==> kids[j].status == Unset
        decreases |kids| - i
      {
        var child := kids[i];
        var tv;
        tv, c := MinValue(child, depth + 1, c);
        assert child.Pos() == ps[i];
        MaxLoopStep(turn, d, ps, i, depth + 1);
        v := if v >= tv then v else tv;
        i := i + 1;
      }
      assert ps[..i] == ps;
      if v == -MaxSize {
        return MaxSize, c + 1;
      }
      return v, c + 1;
    }

    method MinValue(st: State, depth: nat, cnt: nat) returns (v: int, cnt': nat)
      modifies st`status
      ensures v == MinValueOf(turn, d, st.Pos(), old(st.status), depth)
      ensures cnt' == cnt + NodeCount(turn, d, st.Pos(), depth)
      decreases Budget(d, depth)
    {
      var cutoff := depth > d;
      if !cutoff {
        cutoff := st.TerminalNodeTest();
      }
      if cutoff {
        return st.CalculateHeuristic(), cnt + 1;
      }
      var kids := st.GenerateChildren(turn);
      ghost var ps := Positions(kids);
      v := MaxSize;
      var c := cnt;
      var i: int := 0;
      while i < |kids|
        invariant 0 <= i <= |kids|
        invariant v == MinOf(MaxValuesOf(turn, d, ps[..i], depth + 1))
        invariant c == cnt + NodeCounts(turn, d, ps[..i], depth + 1)
        invariant forall j :: 0 <= j < |kids| ==> fresh(kids[j])
        invariant forall j :: i <= j < |kids| ==> kids[j].status == Unset
        decreases |kids| - i
      {
        var child := kids[i];
        if KeyOf(child.Pos()) in seen {
          i := i + 1;
          continue;
        }
        var tv;
        tv, c := MaxValue(child, depth + 1, c);
        assert child.Pos() == ps[i];
        MinLoopStep(turn, d, ps, i, depth + 1);
        v := if v <= tv then v else tv;
        i := i + 1;
      }
      assert ps[..i] == ps;
      if v == MaxSize {
        return -MaxSize, c + 1;
      }
      return v, c + 1;
    }
  }

  /** What the root loop computes: the index of the chosen child, its score and the count. */
  datatype RootResult = RootResult(best: Option<nat>, score: int, count: nat)

  /** The root loop from child i on, keeping the first strict improvement. */
  function RootLoop(first: int, d: int, kids: seq<Position>, i: nat, bestScore: int,
                    best: Option<nat>, cnt: nat): RootResult
    requires i <= |kids|
    decreases |kids| - i
  {
    if i == |kids| then RootResult(best, bestScore, cnt)
    else
      var v := MinValueOf(first, d, kids[i], Unset, 1);
      var c := NodeCount(first, d, kids[i], 1);
      if v > bestScore then RootLoop(first, d, kids, i + 1, v, Some(i), c)
      else RootLoop(first, d, kids, i + 1, bestScore, best, c)
  }

  /** basic_minimax(state, first, d) as a value. */
  function RootSearch(first: int, d: int, p: Position): RootResult
  {
    RootLoop(first, d, Children(p, first), 0, -MaxSize, None, 0)
  }

  /**
   * basic_minimax(state, turn, d): the child to play (None when every child
   * scores -sys.maxsize) and the node count of the last root child's subtree.
   * The position must have a legal move; otherwise cnt is never bound.
   */
  method BasicMinimaxSearch(state: State, turn: int, d: int) returns (best: State?, cnt: nat)
    requires !IsDraw(state.game)
    ensures var r := RootSearch(turn, d, state.Pos());
      (best == null <==> r.best.None?) &&
      (best != null ==> r.best.value < |Children(state.Pos(), turn)| &&
                        best.Pos() == Children(state.Pos(), turn)[r.best.value]) &&
      cnt == r.count
  {
    var searcher := new Minimax(turn, d);
    var kids := state.GenerateChildren(turn);
    ghost var ps := Positions(kids);
    var bestScore := -MaxSize;
    best := null;
    ghost var bestIndex: Option<nat> := None;
    cnt := 0;
    var i := 0;
    while i < |kids|
      invariant 0 <= i <= |kids|
      invariant RootLoop(turn, d, ps, i, bestScore, bestIndex, cnt) == RootSearch(turn, d, state.Pos())
      invariant forall j :: 0 <= j < |kids| ==> fresh(kids[j])
      invariant forall j :: i <= j < |kids| ==> kids[j].status == Unset
      invariant best == null <==> bestIndex.None?
      invariant best != null ==> bestIndex.value < |kids| && best == kids[bestIndex.value]
      invariant fresh(searcher)
      decreases |kids| - i
    {
      var child := kids[i];
      var v, c := searcher.MinValue(child, 1, 0);
      assert ps[i] == child.Pos();
      cnt := c;
      if v > bestScore {
        bestScore := v;
        best := child;
        bestIndex := Some(i);
      }
      i := i + 1;
    }
    assert RootLoop(turn, d, ps, i, bestScore, bestIndex, cnt) == RootResult(bestIndex, bestScore, cnt);
    ghost var r := RootSearch(turn, d, state.Pos());
    assert r.best == bestIndex && r.count == cnt;
    assert ps == Children(state.Pos(), turn);
    if best != null {
      assert best.Pos() == ps[bestIndex.value];
    }
  }

  /**
   * The root returns the first child with the strictly greatest value (None
   * when every child scores -sys.maxsize), and only the last child's count.
   */
  lemma RootSearchSpec(first: int, d: int, p: Position)
    requires !IsDraw(p.game)
    ensures |Children(p, first)| > 0
    ensures RootSearch(first, d, p).best == BestIndex(MinValuesOf(first, d, Children(p, first), 1))
    ensures RootSearch(first, d, p).score == MaxOf(MinValuesOf(first, d, Children(p, first), 1))
    ensures RootSearch(first, d, p).count == NodeCount(first, d, Children(p, first)[|Children(p, first)| - 1], 1)
  {
    var kids := Children(p, first);
    NoChildrenIffDraw(p, first);
    assert kids[..0] == [];
    RootLoopSpec(first, d, kids, 0, 0);
    assert kids[..|kids|] == kids;
  }

  lemma {:induction false} RootLoopSpec(first: int, d: int, kids: seq<Position>, i: nat, cnt: nat)
    requires 0 < |kids| && i <= |kids|
    requires i > 0 ==> cnt == NodeCount(first, d, kids[i - 1], 1)
    ensures var pre := MinValuesOf(first, d, kids[..i], 1);
      RootLoop(first, d, kids, i, MaxOf(pre), BestIndex(pre), cnt)
        == RootResult(BestIndex(MinValuesOf(first, d, kids[..|kids|], 1)),
                      MaxOf(MinValuesOf(first, d, kids[..|kids|], 1)),
                      NodeCount(first, d, kids[|kids| - 1], 1))
    decreases |kids| - i
  {
    if i < |kids| {
      RootStep(first, d, kids, i);
      RootLoopSpec(first, d, kids, i + 1, NodeCount(first, d, kids[i], 1));
    }
  }

  /** One step of max_value's loop: child i's value and count join the running ones. */
  lemma MaxLoopStep(first: int, d: int, ps: seq<Position>, i: nat, depth: nat)
    requires i < |ps|
    ensures var pre := MinValuesOf(first, d, ps[..i], depth);
      var v := MinValueOf(first, d, ps[i], Unset, depth);
      MaxOf(MinValuesOf(first, d, ps[..i + 1], depth)) == (if MaxOf(pre) >= v then MaxOf(pre) else v) &&
      NodeCounts(first, d, ps[..i + 1], depth) == NodeCounts(first, d, ps[..i], depth) + NodeCount(first, d, ps[i], depth)
  {
    assert ps[..i + 1][..i] == ps[..i];
  }

  /** One step of min_value's loop. */
  lemma MinLoopStep(first: int, d: int, ps: seq<Position>, i: nat, depth: nat)
    requires i < |ps|
    ensures var pre := MaxValuesOf(first, d, ps[..i], depth);
      var v := MaxValueOf(first, d, ps[i], Unset, depth);
      MinOf(MaxValuesOf(first, d, ps[..i + 1], depth)) == (if MinOf(pre) <= v then MinOf(pre) else v) &&
      NodeCounts(first, d, ps[..i + 1], depth) == NodeCounts(first, d, ps[..i], depth) + NodeCount(first, d, ps[i], depth)
  {
    assert ps[..i + 1][..i] == ps[..i];
  }

  /** One step of the root loop: child i's value joins the running maximum and choice. */
  lemma RootStep(first: int, d: int, ps: seq<Position>, i: nat)
    requires i < |ps|
    ensures var pre := MinValuesOf(first, d, ps[..i], 1);
      var post := MinValuesOf(first, d, ps[..i + 1], 1);
      var v := MinValueOf(first, d, ps[i], Unset, 1);
      MaxOf(post) == (if v > MaxOf(pre) then v else MaxOf(pre)) &&
      BestIndex(post) == (if v > MaxOf(pre) then Some(i) else BestIndex(pre))
  {
    var pre := MinValuesOf(first, d, ps[..i], 1);
    var post := MinValuesOf(first, d, ps[..i + 1], 1);
    assert ps[..i + 1][..i] == ps[..i];
    assert post == pre + [MinValueOf(first, d, ps[i], Unset, 1)];
    assert post[..|post| - 1] == pre;
  }

  // ---------------------------------------------------------------------
  // Properties
  // ---------------------------------------------------------------------

  /**
   * An expanded max node reports the largest child value, or +sys.maxsize
   * when no child scored above -sys.maxsize (in particular when it has none).
   */
  lemma MaxValueIsLargestChild(first: int, d: int, p: Position, status: int, depth: nat)
    requires !IsLeaf(d, p, depth)
    ensures var kids := Children(p, first);
      var v := MaxValueOf(first, d, p, status, depth);
      var vs := MinValuesOf(first, d, kids, depth + 1);
      (forall k :: 0 <= k < |vs| && vs[k] > -MaxSize ==> vs[k] <= v) &&
      (v == MaxSize || exists k :: 0 <= k < |vs| && vs[k] == v) &&
      (v == MaxSize <==> MaxOf(vs) == -MaxSize || MaxOf(vs) == MaxSize)
  {
    MaxOfSpec(MinValuesOf(first, d, Children(p, first), depth + 1));
  }

  /**
   * An expanded min node reports the smallest child value, or -sys.maxsize
   * when no child scored below +sys.maxsize.
   */
  lemma MinValueIsSmallestChild(first: int, d: int, p: Position, status: int, depth: nat)
    requires !IsLeaf(d, p, depth)
    ensures var kids := Children(p, first);
      var v := MinValueOf(first, d, p, status, depth);
      var vs := MaxValuesOf(first, d, kids, depth + 1);
      (forall k :: 0 <= k < |vs| && vs[k] < MaxSize ==> v <= vs[k]) &&
      (v == -MaxSize || exists k :: 0 <= k < |vs| && vs[k] == v) &&
      (v == -MaxSize <==> MinOf(vs) == MaxSize || MinOf(vs) == -MaxSize)
  {
    MinOfSpec(MaxValuesOf(first, d, Children(p, first), depth + 1));
  }

  /** The node count is one for the node plus the counts of all its children. */
  lemma {:induction false} NodeCountsSum(first: int, d: int, kids: seq<Position>, depth: nat, k: nat)
    requires k < |kids|
    ensures NodeCounts(first, d, kids, depth) >= NodeCount(first, d, kids[k], depth) + |kids| - 1
    decreases |kids|
  {
    var init := kids[..|kids| - 1];
    if k < |kids| - 1 {
      NodeCountsSum(first, d, init, depth, k);
      assert init[k] == kids[k];
    }
  }
}
