/**
 * The game bookkeeping shared by Connect4-Bitboard/play_bitboard.py and
 * Connect4-Bitboard/play_game.py: whose turn it is, the depth schedule,
 * the human's move, the end-of-game tests and the decoding of the
 * bitboards into a 6 x 7 grid for display.
 */
module Play {
  import opened BitSets
  import opened GameState
  import opened Wrappers
  import Grid

  /** Python's ~x on an int. */
  function Invert(x: int): (y: int)
    ensures x == AiTurn ==> y == HumanTurn
    ensures x == HumanTurn ==> y == AiTurn
  {
    -x - 1
  }

  /** Either side has four in a row. */
  predicate HasWinningState(ai: Bits, game: Bits)
  {
    FourInARow(ai) || FourInARow(HumanBitboard(ai, game))
  }

  /** The board is full and nobody has won. */
  predicate IsDrawn(ai: Bits, game: Bits)
  {
    IsDraw(game) && !HasWinningState(ai, game)
  }

  /** has_winning_state finds a run of four of either side at one of the four strides. */
  lemma HasWinningStateSpec(ai: Bits, game: Bits)
    ensures HasWinningState(ai, game) <==>
      exists k, i :: 0 <= k < 4 && (Line(ai, i, Strides[k]) || Line(HumanBitboard(ai, game), i, Strides[k]))
  {
    FourInARowSpec(ai);
    FourInARowSpec(HumanBitboard(ai, game));
  }

  /** is_game_over: somebody has won, or the game is drawn. */
  function GameOver(ai: Bits, game: Bits): (over: bool)
    ensures over <==> HasWinningState(ai, game) || IsDraw(game)
  {
    HasWinningState(ai, game) || IsDrawn(ai, game)
  }

  /** While the game is not over the side to move has a move, so an AI turn may search. */
  lemma GameContinues(p: Position, first: int)
    requires !GameOver(p.ai, p.game)
    ensures !IsDraw(p.game) && |Children(p, first)| > 0
  {
    NoChildrenIffDraw(p, first);
  }

  /** A drawn game has no move left for either side. */
  lemma DrawnHasNoMoves(p: Position, first: int)
    requires IsDrawn(p.ai, p.game)
    ensures Children(p, first) == []
  {
    NoChildrenIffDraw(p, first);
  }

  // ---------------------------------------------------------------------
  // query_player
  // ---------------------------------------------------------------------

  /** The checks of query_player: a column 0..6 whose top cell (bit 7c + 5) is clear. */
  predicate Accepts(game: Bits, column: int)
  {
    0 <= column <= 6 && Cell(column, 5) !in game
  }

  /**
   * The mask after the human drops into an accepted column: one new bit,
   * the lowest clear cell of the column; a legal board stays legal.
   */
  lemma HumanMoveSpec(ai: Bits, game: Bits, column: nat)
    requires Accepts(game, column)
    ensures OpenRow(game, column) < 6
    ensures var x := Cell(column, OpenRow(game, column));
      x !in game && MakeMove(HumanBitboard(ai, game), game, column).1 == game + {x}
    ensures Legal(ai, game) ==> Legal(ai, MakeMove(HumanBitboard(ai, game), game, column).1)
  {
    MoveMaskAddsOneBit(game, column);
    if Legal(ai, game) {
      MoveKeepsStacked(game, column);
    }
  }

  // ---------------------------------------------------------------------
  // The depth schedule
  // ---------------------------------------------------------------------

  /** The search depth after an AI turn taken when the round counter reads rounds. */
  function NextDepth(rounds: nat, depth: nat): nat
  {
    if rounds % 5 == 0 && depth < 10 then depth + 1 else depth
  }

  /** The depth once n rounds have passed: 7, plus one per five rounds, at most 10. */
  function ScheduledDepth(n: nat): nat
  {
    Min(10, 7 + n / 5)
  }

  /** NextDepth follows the schedule: it takes the depth for rounds - 1 to the depth for rounds. */
  lemma NextDepthSchedule(rounds: nat, depth: nat)
    requires rounds > 0 && depth == ScheduledDepth(rounds - 1)
    ensures NextDepth(rounds, depth) == ScheduledDepth(rounds)
  {
    if rounds % 5 == 0 {
      assert rounds / 5 == (rounds - 1) / 5 + 1;
    } else {
      assert rounds / 5 == (rounds - 1) / 5;
    }
  }

  // ---------------------------------------------------------------------
  // bitboard_to_array
  // ---------------------------------------------------------------------

  /** What bitboard_to_array writes for a cell before the flip: 1 for the AI, 2 for the human, 0 for empty. */
  function Decode(ai: Bits, game: Bits, row: nat, col: nat): int
  {
    if Cell(col, row) in ai then 1
    else if Cell(col, row) in game then 2
    else 0
  }

  /** On a legal board the decoding tells the AI's pieces, the human's pieces and the empty cells apart. */
  lemma DecodeSpec(ai: Bits, game: Bits, row: nat, col: nat)
    requires Legal(ai, game) && row < 6 && col < 7
    ensures Decode(ai, game, row, col) == 1 <==> Cell(col, row) in ai
    ensures Decode(ai, game, row, col) == 2 <==> Cell(col, row) in HumanBitboard(ai, game)
    ensures Decode(ai, game, row, col) == 0 <==> Cell(col, row) !in game
    ensures OnBoard(Cell(col, row))
  {
  }

  /** The grid bitboard_to_array fills before the flip: row 0 at the bottom, as the dense-grid engines keep it. */
  function DecodedGrid(ai: Bits, game: Bits): (g: Grid.Board)
    ensures Grid.IsBoard(g)
    ensures forall r, c :: 0 <= r < 6 && 0 <= c < 7 ==> g[r][c] == Decode(ai, game, r, c)
  {
    seq(6, (r: int) requires 0 <= r < 6 => seq(7, (c: int) requires 0 <= c < 7 => Decode(ai, game, r, c)))
  }

  /** Every bit of b is a board cell, and the grid holds piece exactly on the cells of b. */
  predicate Depicts(g: Grid.Board, piece: int, b: Bits)
  {
    Grid.IsBoard(g) &&
    (forall i :: i in b ==> OnBoard(i)) &&
    forall r, c :: 0 <= r < 6 && 0 <= c < 7 ==> (g[r][c] == piece <==> Cell(c, r) in b)
  }

  /** Four board cells 7 apart lie in one row, starting left of column 4. */
  lemma RowRunStart(i: nat)
    requires OnBoard(i) && OnBoard(i + 21)
    ensures i / 7 < 4
  {
  }

  /** Four board cells 1 apart lie in one column, starting below row 3: the sentinel bit breaks longer runs. */
  lemma ColumnRunStart(i: nat)
    requires OnBoard(i) && OnBoard(i + 1) && OnBoard(i + 2) && OnBoard(i + 3)
    ensures i % 7 < 3
  {
  }

  /** Four board cells 8 apart rise to the right from below row 3 and left of column 4. */
  lemma RisingRunStart(i: nat)
    requires OnBoard(i) && OnBoard(i + 8) && OnBoard(i + 16) && OnBoard(i + 24)
    ensures i % 7 < 3 && i / 7 < 4
  {
  }

  /** Four board cells 6 apart fall to the right from row 3 or above and left of column 4. */
  lemma FallingRunStart(i: nat)
    requires OnBoard(i) && OnBoard(i + 6) && OnBoard(i + 12) && OnBoard(i + 18)
    ensures 3 <= i % 7 && i / 7 < 4
  {
  }

  /** A run of four bits 7 apart is a row window of four pieces. */
  lemma RowLineIsWindow(g: Grid.Board, piece: int, b: Bits, i: nat)
    requires Depicts(g, piece, b) && Line(b, i, 7)
    ensures Grid.WinAt(g, piece, Grid.Start(0, i % 7, i / 7))
  {
    var c, r := i / 7, i % 7;
    RowRunStart(i);
    assert Cell(c, r) in b && Cell(c + 1, r) in b && Cell(c + 2, r) in b && Cell(c + 3, r) in b;
  }

  /** A run of four bits 6 apart is a falling diagonal window of four pieces. */
  lemma FallingLineIsWindow(g: Grid.Board, piece: int, b: Bits, i: nat)
    requires Depicts(g, piece, b) && Line(b, i, 6)
    ensures Grid.WinAt(g, piece, Grid.Start(3, i % 7, i / 7))
  {
    var c, r := i / 7, i % 7;
    FallingRunStart(i);
    assert Cell(c, r) in b && Cell(c + 1, r - 1) in b && Cell(c + 2, r - 2) in b && Cell(c + 3, r - 3) in b;
  }

  /** A run of four bits 8 apart is a rising diagonal window of four pieces. */
  lemma RisingLineIsWindow(g: Grid.Board, piece: int, b: Bits, i: nat)
    requires Depicts(g, piece, b) && Line(b, i, 8)
    ensures Grid.WinAt(g, piece, Grid.Start(2, i % 7, i / 7))
  {
    var c, r := i / 7, i % 7;
    RisingRunStart(i);
    assert Cell(c, r) in b && Cell(c + 1, r + 1) in b && Cell(c + 2, r + 2) in b && Cell(c + 3, r + 3) in b;
  }

  /** A run of four bits 1 apart is a column window of four pieces. */
  lemma ColumnLineIsWindow(g: Grid.Board, piece: int, b: Bits, i: nat)
    requires Depicts(g, piece, b) && Line(b, i, 1)
    ensures Grid.WinAt(g, piece, Grid.Start(1, i % 7, i / 7))
  {
    var c, r := i / 7, i % 7;
    ColumnRunStart(i);
    assert i == Cell(c, r);
    assert Cell(c, r + 1) == i + 1 && Cell(c, r + 2) == i + 2 && Cell(c, r + 3) == i + 3;
  }

  /** A window of four pieces in a row is a run of four bits 7 apart. */
  lemma RowWindowIsLine(g: Grid.Board, piece: int, b: Bits, row: nat, col: nat)
    requires Depicts(g, piece, b) && Grid.WinAt(g, piece, Grid.Start(0, row, col))
    ensures Line(b, Cell(col, row), 7)
  {
    var w := Grid.Window(g, Grid.Start(0, row, col));
    assert w[0] == piece && w[1] == piece && w[2] == piece && w[3] == piece;
  }

  /** A window of four pieces falling to the right is a run of four bits 6 apart. */
  lemma FallingWindowIsLine(g: Grid.Board, piece: int, b: Bits, row: nat, col: nat)
    requires Depicts(g, piece, b) && Grid.WinAt(g, piece, Grid.Start(3, row, col))
    ensures Line(b, Cell(col, row), 6)
  {
    var w := Grid.Window(g, Grid.Start(3, row, col));
    assert w[0] == piece && w[1] == piece && w[2] == piece && w[3] == piece;
  }

  /** A window of four pieces rising to the right is a run of four bits 8 apart. */
  lemma RisingWindowIsLine(g: Grid.Board, piece: int, b: Bits, row: nat, col: nat)
    requires Depicts(g, piece, b) && Grid.WinAt(g, piece, Grid.Start(2, row, col))
    ensures Line(b, Cell(col, row), 8)
  {
    var w := Grid.Window(g, Grid.Start(2, row, col));
    assert w[0] == piece && w[1] == piece && w[2] == piece && w[3] == piece;
  }

  /** A window of four pieces in a column is a run of four bits 1 apart. */
  lemma ColumnWindowIsLine(g: Grid.Board, piece: int, b: Bits, row: nat, col: nat)
    requires Depicts(g, piece, b) && Grid.WinAt(g, piece, Grid.Start(1, row, col))
    ensures Line(b, Cell(col, row), 1)
  {
    var w := Grid.Window(g, Grid.Start(1, row, col));
    assert w[0] == piece && w[1] == piece && w[2] == piece && w[3] == piece;
  }

  /** A run of four bits at one of the strides is a window of four pieces on the grid. */
  lemma LineIsWindow(g: Grid.Board, piece: int, b: Bits, k: nat, i: nat)
    requires Depicts(g, piece, b) && k < 4 && Line(b, i, Strides[k])
    ensures exists s: Grid.Start :: Grid.WinAt(g, piece, s)
  {
    if k == 0 {
      RowLineIsWindow(g, piece, b, i);
    } else if k == 1 {
      FallingLineIsWindow(g, piece, b, i);
    } else if k == 2 {
      RisingLineIsWindow(g, piece, b, i);
    } else {
      ColumnLineIsWindow(g, piece, b, i);
    }
  }

  /** A window of four pieces on the grid is a run of four bits at one of the strides. */
  lemma WindowIsLine(g: Grid.Board, piece: int, b: Bits, s: Grid.Start)
    requires Depicts(g, piece, b) && Grid.WinAt(g, piece, s)
    ensures exists k, i :: 0 <= k < 4 && Line(b, i, Strides[k])
  {
    if s.dir == 0 {
      RowWindowIsLine(g, piece, b, s.row, s.col);
      assert Line(b, Cell(s.col, s.row), Strides[0]);
    } else if s.dir == 3 {
      FallingWindowIsLine(g, piece, b, s.row, s.col);
      assert Line(b, Cell(s.col, s.row), Strides[1]);
    } else if s.dir == 2 {
      RisingWindowIsLine(g, piece, b, s.row, s.col);
      assert Line(b, Cell(s.col, s.row), Strides[2]);
    } else {
      ColumnWindowIsLine(g, piece, b, s.row, s.col);
      assert Line(b, Cell(s.col, s.row), Strides[3]);
    }
  }

  /** four_in_a_row on a bitboard and check_for_win on the grid it depicts agree. */
  lemma WinTestsAgree(g: Grid.Board, piece: int, b: Bits)
    requires Depicts(g, piece, b)
    ensures FourInARow(b) <==> Grid.HasFour(g, piece)
  {
    FourInARowSpec(b);
    Grid.HasFourSpec(g, piece);
    if FourInARow(b) {
      var k, i :| 0 <= k < 4 && Line(b, i, Strides[k]);
      LineIsWindow(g, piece, b, k, i);
    }
    if Grid.HasFour(g, piece) {
      var s :| Grid.WinAt(g, piece, s);
      WindowIsLine(g, piece, b, s);
    }
  }

  /**
   * On a legal board the bitboard engine and the dense-grid engine see the
   * same wins: the AI has four in a row exactly when the decoded grid has
   * four 1s in a row, and the human exactly when it has four 2s.
   */
  lemma DecodedWinsAgree(ai: Bits, game: Bits)
    requires Legal(ai, game)
    ensures FourInARow(ai) <==> Grid.HasFour(DecodedGrid(ai, game), 1)
    ensures FourInARow(HumanBitboard(ai, game)) <==> Grid.HasFour(DecodedGrid(ai, game), 2)
  {
    var g := DecodedGrid(ai, game);
    forall r, c | 0 <= r < 6 && 0 <= c < 7
      ensures g[r][c] == 1 <==> Cell(c, r) in ai
      ensures g[r][c] == 2 <==> Cell(c, r) in HumanBitboard(ai, game)
    {
      DecodeSpec(ai, game, r, c);
    }
    WinTestsAgree(g, 1, ai);
    WinTestsAgree(g, 2, HumanBitboard(ai, game));
  }

  /** bitboard_to_array: fill the grid row by row from the top, then flip it upside down (np.flipud). */
  method BitboardToArray(ai: Bits, game: Bits) returns (grid: array2<int>)
    ensures fresh(grid) && grid.Length0 == 6 && grid.Length1 == 7
    ensures forall r, c :: 0 <= r < 6 && 0 <= c < 7 ==> grid[r, c] == Decode(ai, game, 5 - r, c)
  {
    var output := new int[6, 7];
    var row: int := 5;
    while row >= 0
      invariant -1 <= row <= 5
      invariant forall r, c :: row < r < 6 && 0 <= c < 7 ==> output[r, c] == Decode(ai, game, r, c)
    {
      for col := 0 to 7
        invariant forall c :: 0 <= c < col ==> output[row, c] == Decode(ai, game, row, c)
        invariant forall r, c :: row < r < 6 && 0 <= c < 7 ==> output[r, c] == Decode(ai, game, r, c)
      {
        if Cell(col, row) in ai {
          output[row, col] := 1;
        } else if Cell(col, row) in game {
          output[row, col] := 2;
        } else {
          output[row, col] := 0;
        }
      }
      row := row - 1;
    }
    grid := new int[6, 7]((r: nat, c: nat) reads output requires r < 6 && c < 7 => output[5 - r, c]);
  }
}

/**
 * Connect4-Bitboard/play_bitboard.py: the human moves first, the AI answers
 * with alpha-beta search, and the depth grows by one every fifth AI turn.
 */
module PlayBitboard {
  import opened Wrappers
  import opened BitSets
  import opened GameState
  import opened Play
  import AlphaBetaSearch

  class Game {
    var state: State?
    var turn: int
    const first: int
    var rounds: nat
    var depth: nat
    var nodeCount: nat

    /**
     * The turn is one of the two sides, the board is legal, and rounds counts
     * the AI turns taken, so the depth is 7 plus one per five of them, at most 10.
     */
    predicate Valid()
      reads this
    {
      (turn == AiTurn || turn == HumanTurn) &&
      first == HumanTurn &&
      depth == ScheduledDepth(rounds) &&
      BoardLegal()
    }

    /** The current state, when there is one, holds a legal pair of bitboards. */
    predicate BoardLegal()
      reads this
    {
      state != null ==> Legal(state.ai, state.game)
    }

    constructor()
      ensures Valid()
      ensures fresh(state) && state.Pos() == Position({}, {}, 0) && state.status == Unset
      ensures turn == HumanTurn && first == HumanTurn && rounds == 0 && depth == 7 && nodeCount == 0
    {
      state := new State({}, {}, 0);
      turn := HumanTurn;
      first := HumanTurn;
      rounds := 0;
      depth := 7;
      nodeCount := 0;
    }

    /**
     * query_player for one column (zero-based): a rejected column leaves the
     * game alone; an accepted one drops a human piece into it.
     */
    method QueryPlayer(column: int) returns (accepted: bool)
      requires BoardLegal() && state != null
      modifies this
      ensures BoardLegal()
      ensures accepted <==> Accepts(old(state).game, column)
      ensures accepted ==>
        var x := Cell(column, OpenRow(old(state).game, column));
        fresh(state) && state.status == Unset &&
        x !in old(state).game && state.game == old(state).game + {x} &&
        state.ai == old(state).ai && state.depth == old(state).depth + 1
      ensures !accepted ==> state == old(state)
      ensures turn == old(turn) && rounds == old(rounds) && depth == old(depth) && nodeCount == old(nodeCount)
    {
      if !(0 <= column <= 6) {
        return false;
      }
      if Cell(column, 5) in state.game {
        return false;
      }
      HumanMoveSpec(state.ai, state.game, column);
      var (_, newGame) := MakeMove(state.Human(), state.game, column);
      state := new State(state.ai, newGame, state.depth + 1);
      return true;
    }

    /** query_AI: the state becomes the child alpha_beta search picks, or None. */
    method QueryAI(d: int)
      requires BoardLegal() && state != null && !IsDraw(state.game)
      modifies this
      ensures BoardLegal()
      ensures var r := AlphaBetaSearch.RootSearch(first, d, old(state).Pos());
        (state == null <==> r.best.None?) &&
        (state != null ==> r.best.value < |Children(old(state).Pos(), first)| &&
                           state.Pos() == Children(old(state).Pos(), first)[r.best.value]) &&
        nodeCount == r.count
      ensures turn == old(turn) && rounds == old(rounds) && depth == old(depth)
    {
      ChildrenSpec(state.Pos(), first);
      state, nodeCount := AlphaBetaSearch.AlphabetaSearch(state, first, d);
    }

    /**
     * next_turn: on the AI's turn count the round, deepen the search every
     * fifth round up to 10 and let the AI move; on the human's turn play the
     * given column; then pass the turn.
     */
    method NextTurn(column: int)
      requires Valid() && state != null
      requires turn == AiTurn ==> !IsDraw(state.game)
      requires turn == HumanTurn ==> Accepts(state.game, column)
      modifies this
      ensures Valid()
      ensures turn == Invert(old(turn))
      ensures old(depth) <= depth <= 10
      ensures old(turn) == AiTurn ==>
        rounds == old(rounds) + 1 && depth == NextDepth(rounds, old(depth)) &&
        var r := AlphaBetaSearch.RootSearch(first, depth, old(state).Pos());
        nodeCount == r.count && (state == null <==> r.best.None?) &&
        (state != null ==> r.best.value < |Children(old(state).Pos(), first)| &&
                           state.Pos() == Children(old(state).Pos(), first)[r.best.value])
      ensures old(turn) == HumanTurn ==>
        rounds == old(rounds) && depth == old(depth) && state != null &&
        fresh(state) && state.status == Unset && nodeCount == old(nodeCount) &&
        state.ai == old(state).ai && state.game == old(state).game + {Cell(column, OpenRow(old(state).game, column))} &&
        state.depth == old(state).depth + 1
    {
      if turn == AiTurn {
        rounds := rounds + 1;
        NextDepthSchedule(rounds, depth);
        if rounds % 5 == 0 && depth < 10 {
          depth := depth + 1;
        }
        QueryAI(depth);
      } else {
        var accepted := QueryPlayer(column);
      }
      turn := Invert(turn);
    }
  }
}

/**
 * Connect4-Bitboard/play_game.py: the AI moves first with plain minimax;
 * rounds starts at 1 and counts the human's turns, and the depth grows by
 * one on the AI turn of every fifth round.
 */
module PlayGame {
  import opened Wrappers
  import opened BitSets
  import opened GameState
  import opened Play
  import BasicMinimax

  class Game {
    var state: State?
    var turn: int
    const first: int
    var rounds: nat
    var depth: nat
    var nodeCount: nat

    /**
     * The turn is one of the two sides, the board is legal, and the depth is
     * 7 plus one per five rounds whose AI turn has been taken, at most 10.
     */
    predicate Valid()
      reads this
    {
      (turn == AiTurn || turn == HumanTurn) &&
      first == AiTurn && rounds >= 1 &&
      depth == ScheduledDepth(if turn == AiTurn then rounds - 1 else rounds) &&
      BoardLegal()
    }

    /** The current state, when there is one, holds a legal pair of bitboards. */
    predicate BoardLegal()
      reads this
    {
      state != null ==> Legal(state.ai, state.game)
    }

    constructor()
      ensures Valid()
      ensures fresh(state) && state.Pos() == Position({}, {}, 0) && state.status == Unset
      ensures turn == AiTurn && first == AiTurn && rounds == 1 && depth == 7 && nodeCount == 0
    {
      state := new State({}, {}, 0);
      turn := AiTurn;
      first := AiTurn;
      rounds := 1;
      depth := 7;
      nodeCount := 0;
    }

    /**
     * query_player for one column (zero-based): a rejected column leaves the
     * game alone; an accepted one drops a human piece into it.
     */
    method QueryPlayer(column: int) returns (accepted: bool)
      requires BoardLegal() && state != null
      modifies this
      ensures BoardLegal()
      ensures accepted <==> Accepts(old(state).game, column)
      ensures accepted ==>
        var x := Cell(column, OpenRow(old(state).game, column));
        fresh(state) && state.status == Unset &&
        x !in old(state).game && state.game == old(state).game + {x} &&
        state.ai == old(state).ai && state.depth == old(state).depth + 1
      ensures !accepted ==> state == old(state)
      ensures turn == old(turn) && rounds == old(rounds) && depth == old(depth) && nodeCount == old(nodeCount)
    {
      if !(0 <= column <= 6) {
        return false;
      }
      if Cell(column, 5) in state.game {
        return false;
      }
      HumanMoveSpec(state.ai, state.game, column);
      var (_, newGame) := MakeMove(state.Human(), state.game, column);
      state := new State(state.ai, newGame, state.depth + 1);
      return true;
    }

    /** query_AI: the state becomes the child basic_minimax picks, or None. */
    method QueryAI(d: int)
      requires BoardLegal() && state != null && !IsDraw(state.game)
      modifies this
      ensures BoardLegal()
      ensures var r := BasicMinimax.RootSearch(first, d, old(state).Pos());
        (state == null <==> r.best.None?) &&
        (state != null ==> r.best.value < |Children(old(state).Pos(), first)| &&
                           state.Pos() == Children(old(state).Pos(), first)[r.best.value]) &&
        nodeCount == r.count
      ensures turn == old(turn) && rounds == old(rounds) && depth == old(depth)
    {
      ChildrenSpec(state.Pos(), first);
      state, nodeCount := BasicMinimax.BasicMinimaxSearch(state, first, d);
    }

    /**
     * next_turn: on the AI's turn deepen the search every fifth round up to
     * 10 and let the AI move; on the human's turn count the round and play
     * the given column; then pass the turn.
     */
    method NextTurn(column: int)
      requires Valid() && state != null
      requires turn == AiTurn ==> !IsDraw(state.game)
      requires turn == HumanTurn ==> Accepts(state.game, column)
      modifies this
      ensures Valid()
      ensures turn == Invert(old(turn))
      ensures old(depth) <= depth <= 10
      ensures old(turn) == AiTurn ==>
        rounds == old(rounds) && depth == NextDepth(rounds, old(depth)) &&
        var r := BasicMinimax.RootSearch(first, depth, old(state).Pos());
        nodeCount == r.count && (state == null <==> r.best.None?) &&
        (state != null ==> r.best.value < |Children(old(state).Pos(), first)| &&
                           state.Pos() == Children(old(state).Pos(), first)[r.best.value])
      ensures old(turn) == HumanTurn ==>
        rounds == old(rounds) + 1 && depth == old(depth) && state != null &&
        fresh(state) && state.status == Unset && nodeCount == old(nodeCount) &&
        state.ai == old(state).ai && state.game == old(state).game + {Cell(column, OpenRow(old(state).game, column))} &&
        state.depth == old(state).depth + 1
    {
      if turn == AiTurn {
        NextDepthSchedule(rounds, depth);
        if rounds % 5 == 0 && depth < 10 {
          depth := depth + 1;
        }
        QueryAI(depth);
      } else {
        rounds := rounds + 1;
        var accepted := QueryPlayer(column);
      }
      turn := Invert(turn);
    }
  }
}
