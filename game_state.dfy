/**
 * The bitboard game state of Connect4-Bitboard/game_state.py.
 *
 * Layout: column c occupies bits 7c .. 7c + 6; row r of column c (row 0 at
 * the bottom) is bit 7c + r, and bit 7c + 6 is a sentinel that is never set.
 * `ai` marks the AI's pieces, `game` every occupied cell.
 */
module GameState {
  import opened BitSets

  /** sys.maxsize on a 64-bit CPython. */
  const MaxSize: int := 0x7FFF_FFFF_FFFF_FFFF

  /** Values of State.status. */
  const Unset: int := 3
  const AiWins: int := -1
  const HumanWins: int := 1
  const Draw: int := 0

  /** Values of who_went_first (and of the game's turn). */
  const AiTurn: int := -1
  const HumanTurn: int := 0

  const Rows: nat := 6
  const Columns: nat := 7

  /** The bit of row `row` in column `col`. */
  function Cell(col: nat, row: nat): nat
  {
    7 * col + row
  }

  /** A bit inside the 6 x 7 playing area (not a sentinel, not beyond column 6). */
  predicate OnBoard(i: nat)
  {
    i < 49 && i % 7 < 6
  }

  /** A well-formed occupancy mask: pieces only on the board, each resting on the one below. */
  predicate Stacked(mask: Bits)
  {
    forall i :: i in mask ==> OnBoard(i) && (i % 7 > 0 ==> i - 1 in mask)
  }

  /** A well-formed pair of bitboards. */
  predicate Legal(ai: Bits, game: Bits)
  {
    ai <= game && Stacked(game)
  }

  // ---------------------------------------------------------------------
  // human_bitboard
  // ---------------------------------------------------------------------

  /** ai ^ game: the human's pieces. */
  function HumanBitboard(ai: Bits, game: Bits): (h: Bits)
    ensures ai <= game ==> h !! ai && h + ai == game
  {
    Xor(ai, game)
  }

  // ---------------------------------------------------------------------
  // four_in_a_row
  // ---------------------------------------------------------------------

  /** Bits i, i + s, i + 2s and i + 3s are all set. */
  predicate Line(b: Bits, i: nat, s: nat)
  {
    i in b && i + s in b && i + 2 * s in b && i + 3 * s in b
  }

  /** The strides four_in_a_row tries: horizontal, diagonal \, diagonal /, vertical. */
  const Strides: seq<nat> := [7, 6, 8, 1]

  /** m & (m >> 2s) where m = b & (b >> s). */
  function Reduce(b: Bits, s: nat): Bits
  {
    var m := b * Shr(b, s);
    m * Shr(m, 2 * s)
  }

  function FourInARow(b: Bits): bool
  {
    if Reduce(b, 7) != {} then true
    else if Reduce(b, 6) != {} then true
    else if Reduce(b, 8) != {} then true
    else Reduce(b, 1) != {}
  }

  lemma ReduceAt(b: Bits, s: nat, i: nat)
    ensures i in Reduce(b, s) <==> Line(b, i, s)
  {
    var m := b * Shr(b, s);
    ShrMember(b, s, i);
    ShrMember(b, s, i + 2 * s);
    ShrMember(m, 2 * s, i);
    assert i + 2 * s + s == i + 3 * s;
  }

  lemma ReduceNonEmpty(b: Bits, s: nat)
    ensures Reduce(b, s) != {} <==> exists i :: Line(b, i, s)
  {
    if Reduce(b, s) != {} {
      var i :| i in Reduce(b, s);
      ReduceAt(b, s, i);
    }
    if exists i :: Line(b, i, s) {
      var i :| Line(b, i, s);
      ReduceAt(b, s, i);
    }
  }

  /** four_in_a_row finds exactly the runs of four at strides 7, 6, 8 and 1. */
  lemma FourInARowSpec(b: Bits)
    ensures FourInARow(b) <==> exists k, i :: 0 <= k < 4 && Line(b, i, Strides[k])
  {
    ReduceNonEmpty(b, 7);
    ReduceNonEmpty(b, 6);
    ReduceNonEmpty(b, 8);
    ReduceNonEmpty(b, 1);
    if FourInARow(b) {
      if Reduce(b, 7) != {} {
        var i :| Line(b, i, 7);
        assert Line(b, i, Strides[0]);
      } else if Reduce(b, 6) != {} {
        var i :| Line(b, i, 6);
        assert Line(b, i, Strides[1]);
      } else if Reduce(b, 8) != {} {
        var i :| Line(b, i, 8);
        assert Line(b, i, Strides[2]);
      } else {
        var i :| Line(b, i, 1);
        assert Line(b, i, Strides[3]);
      }
    }
  }

  // ---------------------------------------------------------------------
  // is_draw
  // ---------------------------------------------------------------------

  /** The top-row bit 7c + 5 of every column is set. */
  predicate IsDraw(b: Bits)
  {
    forall col: nat :: col < 7 ==> Cell(col, 5) in b
  }

  // ---------------------------------------------------------------------
  // make_move / make_move_opponent
  // ---------------------------------------------------------------------

  /** The lowest clear row of column col at or above row r (6 when rows r..5 are all set). */
  function OpenRowFrom(mask: Bits, col: nat, r: nat): (h: nat)
    requires r <= 6
    ensures r <= h <= 6
    ensures forall j :: r <= j < h ==> Cell(col, j) in mask
    ensures h < 6 ==> Cell(col, h) !in mask
    decreases 6 - r
  {
    if r < 6 && Cell(col, r) in mask then OpenRowFrom(mask, col, r + 1) else r
  }

  /** The lowest clear bit of column col's block, as a row number. */
  function OpenRow(mask: Bits, col: nat): (h: nat)
    ensures h <= 6
    ensures forall j :: 0 <= j < h ==> Cell(col, j) in mask
    ensures h < 6 ==> Cell(col, h) !in mask
  {
    OpenRowFrom(mask, col, 0)
  }

  /** mask | (mask + (1 << (col * 7))) */
  function MoveMask(mask: Bits, col: nat): Bits
  {
    mask + AddPow2(mask, Cell(col, 0))
  }

  /** make_move: the mover's pieces and the new mask. */
  function MakeMove(position: Bits, mask: Bits, col: nat): (Bits, Bits)
  {
    var opponent := Xor(position, mask);
    var newMask := MoveMask(mask, col);
    (Xor(opponent, newMask), newMask)
  }

  /** make_move_opponent: the pieces passed in, unchanged, and the new mask. */
  function MakeMoveOpponent(position: Bits, mask: Bits, col: nat): (Bits, Bits)
  {
    (position, MoveMask(mask, col))
  }

  /**
   * On a column whose top bit is clear, the add-and-or trick sets exactly one
   * new bit: the lowest clear bit of the column's block.
   */
  lemma MoveMaskAddsOneBit(mask: Bits, col: nat)
    requires Cell(col, 5) !in mask
    ensures OpenRow(mask, col) < 6
    ensures Cell(col, OpenRow(mask, col)) !in mask
    ensures MoveMask(mask, col) == mask + {Cell(col, OpenRow(mask, col))}
  {
    var h := OpenRow(mask, col);
    var base := Cell(col, 0);
    forall x | x in Run(base, 0, h)
      ensures x in mask
    {
      RunMember(base, 0, h, x);
      assert x == Cell(col, x - base);
    }
    CarryRun(mask, base, 0, h);
  }

  /** make_move adds the new bit to both the mover's pieces and the mask. */
  lemma MakeMoveAddsOneBit(position: Bits, mask: Bits, col: nat)
    requires position <= mask
    requires Cell(col, 5) !in mask
    ensures OpenRow(mask, col) < 6
    ensures var x := Cell(col, OpenRow(mask, col));
      x !in mask && MakeMove(position, mask, col) == (position + {x}, mask + {x})
  {
    MoveMaskAddsOneBit(mask, col);
    var x := Cell(col, OpenRow(mask, col));
    assert Xor(Xor(position, mask), mask + {x}) == position + {x};
  }

  /** make_move_opponent keeps the pieces and adds the new bit to the mask. */
  lemma MakeMoveOpponentAddsOneBit(position: Bits, mask: Bits, col: nat)
    requires Cell(col, 5) !in mask
    ensures OpenRow(mask, col) < 6
    ensures var x := Cell(col, OpenRow(mask, col));
      x !in mask && MakeMoveOpponent(position, mask, col) == (position, mask + {x})
  {
    MoveMaskAddsOneBit(mask, col);
  }

  /** Dropping a piece on a stacked mask keeps it stacked. */
  lemma MoveKeepsStacked(mask: Bits, col: nat)
    requires Stacked(mask)
    requires col < 7
    requires Cell(col, 5) !in mask
    ensures Stacked(MoveMask(mask, col))
  {
    MoveMaskAddsOneBit(mask, col);
    var h := OpenRow(mask, col);
    assert Cell(col, h) % 7 == h;
    if h > 0 {
      assert Cell(col, h) - 1 == Cell(col, h - 1);
    }
  }

  // ---------------------------------------------------------------------
  // States as values
  // ---------------------------------------------------------------------

  /** The immutable part of a State: its bitboards and its depth (ply). */
  datatype Position = Position(ai: Bits, game: Bits, ply: nat)

  /** What __eq__ and __hash__ compare. */
  datatype Key = Key(ai: Bits, game: Bits, parity: nat)

  function KeyOf(p: Position): Key
  {
    Key(p.ai, p.game, p.ply % 2)
  }

  /** The status terminal_node_test stores, or Unset when it returns False. */
  function TerminalStatus(p: Position): int
  {
    if FourInARow(p.ai) then AiWins
    else if FourInARow(HumanBitboard(p.ai, p.game)) then HumanWins
    else if IsDraw(p.game) then Draw
    else Unset
  }

  /** calculate_heuristic for a given status and depth. */
  function Heuristic(status: int, ply: nat): (h: int)
    ensures status == AiWins && ply <= 42 ==> 1 <= h <= 22
    ensures status == HumanWins && ply <= 42 ==> -22 <= h <= -1
    ensures status != AiWins && status != HumanWins && status != Draw ==> h == MaxSize || h == -MaxSize
  {
    if status == AiWins then 22 - ply / 2
    else if status == HumanWins then -1 * (22 - ply / 2)
    else if status == Draw then 0
    else if ply % 2 == 0 then MaxSize
    else -MaxSize
  }

  /** Levels a search with depth limit d has left at depth `depth` before its cutoff. */
  function Budget(d: int, depth: nat): nat
  {
    if depth > d then 0 else d - depth + 1
  }

  /** A quicker AI win scores at least as high, a quicker human win at least as low. */
  lemma HeuristicPrefersQuickWins(ply1: nat, ply2: nat)
    requires ply1 <= ply2
    ensures Heuristic(AiWins, ply1) >= Heuristic(AiWins, ply2)
    ensures Heuristic(HumanWins, ply1) <= Heuristic(HumanWins, ply2)
    ensures ply1 + 2 <= ply2 ==> Heuristic(AiWins, ply1) > Heuristic(AiWins, ply2)
  {
  }

  // ---------------------------------------------------------------------
  // generate_children
  // ---------------------------------------------------------------------

  /** 3 + (1 - 2 * (i % 2)) * (i + 1) // 2 */
  function ColumnAt(i: nat): (c: nat)
    requires i < 7
    ensures c < 7
  {
    3 + (1 - 2 * (i % 2)) * (i + 1) / 2
  }

  const CentreOrder: seq<nat> := [3, 2, 4, 1, 5, 0, 6]

  lemma ColumnAtIsCentreOrder(i: nat)
    requires i < 7
    ensures ColumnAt(i) == CentreOrder[i]
  {
  }

  /** The AI makes the move from a state of depth ply iff this holds. */
  predicate AiToMove(ply: nat, first: int)
  {
    (first == AiTurn && ply % 2 == 0) || (first == HumanTurn && ply % 2 == 1)
  }

  /** Columns 0 .. n - 1 of the centre-out order whose top bit is clear. */
  function OpenColumnsUpTo(game: Bits, n: nat): seq<nat>
    requires n <= 7
  {
    if n == 0 then []
    else
      var col := ColumnAt(n - 1);
      OpenColumnsUpTo(game, n - 1) + (if Cell(col, 5) in game then [] else [col])
  }

  function OpenColumns(game: Bits): seq<nat>
  {
    OpenColumnsUpTo(game, 7)
  }

  /** The child reached by dropping a piece in column col. */
  function Child(p: Position, first: int, col: nat): Position
  {
    var (ai, game) := if AiToMove(p.ply, first) then MakeMove(p.ai, p.game, col)
                      else MakeMoveOpponent(p.ai, p.game, col);
    Position(ai, game, p.ply + 1)
  }

  function ChildrenOf(p: Position, first: int, cols: seq<nat>): seq<Position>
  {
    seq(|cols|, j requires 0 <= j < |cols| => Child(p, first, cols[j]))
  }

  /** The positions generate_children yields, in order. */
  function Children(p: Position, first: int): seq<Position>
  {
    ChildrenOf(p, first, OpenColumns(p.game))
  }

  lemma {:induction false} OpenColumnsUpToSpec(game: Bits, n: nat)
    requires n <= 7
    ensures forall j :: 0 <= j < |OpenColumnsUpTo(game, n)| ==>
      exists i :: 0 <= i < n && OpenColumnsUpTo(game, n)[j] == CentreOrder[i]
    ensures forall i :: 0 <= i < n ==>
      (CentreOrder[i] in OpenColumnsUpTo(game, n) <==> Cell(CentreOrder[i], 5) !in game)
    ensures forall j, k :: 0 <= j < k < |OpenColumnsUpTo(game, n)| ==>
      OpenColumnsUpTo(game, n)[j] != OpenColumnsUpTo(game, n)[k]
  {
    if n > 0 {
      OpenColumnsUpToSpec(game, n - 1);
      ColumnAtIsCentreOrder(n - 1);
      assert forall a, b :: 0 <= a < b < 7 ==> CentreOrder[a] != CentreOrder[b];
      var prev := OpenColumnsUpTo(game, n - 1);
      var cur := OpenColumnsUpTo(game, n);
      forall j | 0 <= j < |cur|
        ensures exists i :: 0 <= i < n && cur[j] == CentreOrder[i]
      {
        if j < |prev| {
          var i :| 0 <= i < n - 1 && prev[j] == CentreOrder[i];
          assert cur[j] == CentreOrder[i];
        } else {
          assert cur[j] == CentreOrder[n - 1];
        }
      }
    } else {
      assert OpenColumnsUpTo(game, 0) == [];
    }
  }

  /**
   * generate_children tries the columns 3, 2, 4, 1, 5, 0, 6 and keeps exactly
   * the columns whose top bit is clear, each once.
   */
  lemma OpenColumnsSpec(game: Bits)
    ensures forall c :: c in OpenColumns(game) <==> c < 7 && Cell(c, 5) !in game
    ensures forall j, k :: 0 <= j < k < |OpenColumns(game)| ==>
      OpenColumns(game)[j] != OpenColumns(game)[k]
    ensures OpenColumns(game) == [] <==> IsDraw(game)
  {
    OpenColumnsUpToSpec(game, 7);
    var cols := OpenColumns(game);
    forall c | c in cols
      ensures c < 7 && Cell(c, 5) !in game
    {
      var j :| 0 <= j < |cols| && cols[j] == c;
      var i :| 0 <= i < 7 && c == CentreOrder[i];
    }
    forall c: nat | c < 7 && Cell(c, 5) !in game
      ensures c in cols
    {
      if c == 0 { assert CentreOrder[5] == c; }
      else if c == 1 { assert CentreOrder[3] == c; }
      else if c == 2 { assert CentreOrder[1] == c; }
      else if c == 3 { assert CentreOrder[0] == c; }
      else if c == 4 { assert CentreOrder[2] == c; }
      else if c == 5 { assert CentreOrder[4] == c; }
      else { assert CentreOrder[6] == c; }
    }
    if cols != [] {
      var c := cols[0];
      assert c in cols;
      assert c < 7 && Cell(c, 5) !in game;
    } else {
      forall col: nat | col < 7
        ensures Cell(col, 5) in game
      {
        assert col !in cols;
      }
    }
  }

  /**
   * Every child is one ply deeper and holds exactly one more piece, in an
   * open column, owned by the AI exactly when AiToMove says so; legality is
   * preserved.
   */
  lemma ChildrenSpec(p: Position, first: int)
    requires Legal(p.ai, p.game)
    ensures |Children(p, first)| == |OpenColumns(p.game)|
    ensures forall j :: 0 <= j < |Children(p, first)| ==>
      var q := Children(p, first)[j];
      var col := OpenColumns(p.game)[j];
      var x := Cell(col, OpenRow(p.game, col));
      col < 7 && Cell(col, 5) !in p.game && x !in p.game &&
      q.ply == p.ply + 1 &&
      q.game == p.game + {x} &&
      q.ai == (if AiToMove(p.ply, first) then p.ai + {x} else p.ai) &&
      Legal(q.ai, q.game)
  {
    OpenColumnsSpec(p.game);
    var cols := OpenColumns(p.game);
    forall j | 0 <= j < |cols|
      ensures var q := Children(p, first)[j];
        var x := Cell(cols[j], OpenRow(p.game, cols[j]));
        cols[j] < 7 && Cell(cols[j], 5) !in p.game && x !in p.game &&
        q.ply == p.ply + 1 && q.game == p.game + {x} &&
        q.ai == (if AiToMove(p.ply, first) then p.ai + {x} else p.ai) &&
        Legal(q.ai, q.game)
    {
      var col := cols[j];
      assert col in cols;
      MakeMoveAddsOneBit(p.ai, p.game, col);
      MakeMoveOpponentAddsOneBit(p.ai, p.game, col);
      MoveKeepsStacked(p.game, col);
    }
  }

  /** A position has children exactly when it is not a draw by is_draw. */
  lemma NoChildrenIffDraw(p: Position, first: int)
    ensures Children(p, first) == [] <==> IsDraw(p.game)
  {
    OpenColumnsSpec(p.game);
  }

  /**
   * States equal under __eq__ are interchangeable for terminal_node_test and
   * for generate_children; only the depth-based heuristic can tell them apart.
   */
  lemma EqualKeysSameSearch(p: Position, q: Position, first: int)
    requires KeyOf(p) == KeyOf(q)
    ensures TerminalStatus(p) == TerminalStatus(q)
    ensures AiToMove(p.ply, first) == AiToMove(q.ply, first)
    ensures |Children(p, first)| == |Children(q, first)|
    ensures forall j :: 0 <= j < |Children(p, first)| ==>
      KeyOf(Children(p, first)[j]) == KeyOf(Children(q, first)[j])
  {
    assert p.ply % 2 == q.ply % 2;
    forall j | 0 <= j < |Children(p, first)|
      ensures KeyOf(Children(p, first)[j]) == KeyOf(Children(q, first)[j])
    {
      assert (p.ply + 1) % 2 == (q.ply + 1) % 2;
    }
  }

  // ---------------------------------------------------------------------
  // class State
  // ---------------------------------------------------------------------

  class State {
    const ai: Bits
    const game: Bits
    const depth: nat
    var status: int

    constructor(ai: Bits, game: Bits, depth: nat)
      ensures this.ai == ai && this.game == game && this.depth == depth
      ensures status == Unset
    {
      this.ai := ai;
      this.game := game;
      this.depth := depth;
      status := Unset;
    }

    function Pos(): Position
    {
      Position(ai, game, depth)
    }

    /** The human_bitboard property. */
    function Human(): (h: Bits)
      ensures ai <= game ==> h !! ai && h + ai == game
    {
      HumanBitboard(ai, game)
    }

    /** __eq__: the same bitboards and the same depth parity. */
    predicate Equals(other: State)
    {
      (ai, game, depth % 2) == (other.ai, other.game, other.depth % 2)
    }

    lemma EqualsIsKeyEquality(other: State)
      ensures Equals(other) <==> KeyOf(Pos()) == KeyOf(other.Pos())
    {
    }

    method TerminalNodeTest() returns (terminal: bool)
      modifies this`status
      ensures terminal <==> TerminalStatus(Pos()) != Unset
      ensures status == if terminal then TerminalStatus(Pos()) else old(status)
    {
      if FourInARow(ai) {
        status := AiWins;
        return true;
      } else if FourInARow(HumanBitboard(ai, game)) {
        status := HumanWins;
        return true;
      } else if IsDraw(game) {
        status := Draw;
        return true;
      } else {
        return false;
      }
    }

    /** calculate_heuristic reads the status terminal_node_test left behind. */
    function CalculateHeuristic(): int
      reads this
    {
      Heuristic(status, depth)
    }

    method GenerateChildren(first: int) returns (kids: seq<State>)
      ensures Positions(kids) == Children(Pos(), first)
      ensures forall j :: 0 <= j < |kids| ==> fresh(kids[j]) && kids[j].status == Unset
      ensures forall j, k :: 0 <= j < k < |kids| ==> kids[j] != kids[k]
    {
      kids := [];
      for i := 0 to 7
        invariant Positions(kids) == ChildrenOf(Pos(), first, OpenColumnsUpTo(game, i))
        invariant forall j :: 0 <= j < |kids| ==> fresh(kids[j]) && kids[j].status == Unset
        invariant forall j, k :: 0 <= j < k < |kids| ==> kids[j] != kids[k]
      {
        var column := ColumnAt(i);
        if Cell(column, 5) !in game {
          var newAi, newGame;
          if (first == -1 && depth % 2 == 0) || (first == 0 && depth % 2 == 1) {
            newAi, newGame := MakeMove(ai, game, column).0, MakeMove(ai, game, column).1;
          } else {
            newAi, newGame := ai, MakeMoveOpponent(ai, game, column).1;
          }
          var child := new State(newAi, newGame, depth + 1);
          assert child.Pos() == Child(Pos(), first, column);
          PositionsSnoc(kids, child);
          ChildrenOfSnoc(Pos(), first, OpenColumnsUpTo(game, i), column);
          kids := kids + [child];
        }
      }
    }
  }

  /** The positions of a sequence of states. */
  function Positions(kids: seq<State>): seq<Position>
  {
    seq(|kids|, j requires 0 <= j < |kids| => kids[j].Pos())
  }

  lemma PositionsSnoc(kids: seq<State>, k: State)
    ensures Positions(kids + [k]) == Positions(kids) + [k.Pos()]
  {
  }

  lemma ChildrenOfSnoc(p: Position, first: int, cols: seq<nat>, c: nat)
    ensures ChildrenOf(p, first, cols + [c]) == ChildrenOf(p, first, cols) + [Child(p, first, c)]
  {
  }
}
