/**
 * The dense-grid board helpers of base_game.py, repeated verbatim in
 * connect4-offline.py and (with other window weights) connect4-v2-fast.py.
 *
 * The board is a 6 x 7 grid; row 0 is the bottom row and a cell holds 0
 * (empty), 1 (the player's piece) or 2 (the AI's piece).  Read-only helpers
 * take the grid as a value; drop_piece writes a cell of an array in place,
 * and Place is the same write on a copy (np.copy followed by the write).
 */
module Grid {

  type Board = seq<seq<int>>

  const Rows: nat := 6
  const Columns: nat := 7

  predicate IsBoard(g: Board)
  {
    |g| == Rows && forall r :: 0 <= r < Rows ==> |g[r]| == Columns
  }

  // ---------------------------------------------------------------------
  // create_board / drop_piece
  // ---------------------------------------------------------------------

  /** The value of a fresh board. */
  function EmptyBoard(): (g: Board)
    ensures IsBoard(g)
    ensures forall r, c :: 0 <= r < Rows && 0 <= c < Columns ==> g[r][c] == 0
  {
    seq(Rows, _ => seq(Columns, _ => 0))
  }

  method CreateBoard() returns (board: array2<int>)
    ensures fresh(board)
    ensures board.Length0 == Rows && board.Length1 == Columns
    ensures forall r, c :: 0 <= r < Rows && 0 <= c < Columns ==> board[r, c] == 0
  {
    board := new int[Rows, Columns]((r, c) => 0);
  }

  /** drop_piece: writes one cell in place. */
  method DropPiece(board: array2<int>, row: nat, col: nat, piece: int)
    requires row < board.Length0 && col < board.Length1
    modifies board
    ensures board[row, col] == piece
    ensures forall r, c :: 0 <= r < board.Length0 && 0 <= c < board.Length1 && (r, c) != (row, col) ==>
      board[r, c] == old(board[r, c])
  {
    board[row, col] := piece;
  }

  /** A copy of g with cell [row, col] set to piece. */
  function Place(g: Board, row: nat, col: nat, piece: int): (h: Board)
    requires IsBoard(g) && row < Rows && col < Columns
    ensures IsBoard(h)
  {
    g[row := g[row][col := piece]]
  }

  /** Place changes cell [row, col] to piece and no other cell. */
  lemma PlaceSpec(g: Board, row: nat, col: nat, piece: int)
    requires IsBoard(g) && row < Rows && col < Columns
    ensures Place(g, row, col, piece)[row][col] == piece
    ensures forall r, c :: 0 <= r < Rows && 0 <= c < Columns && (r, c) != (row, col) ==>
      Place(g, row, col, piece)[r][c] == g[r][c]
  {
  }

  // ---------------------------------------------------------------------
  // is_valid_column / get_valid_columns
  // ---------------------------------------------------------------------

  /** The top cell of the column is empty. */
  predicate IsValidColumn(g: Board, col: nat)
    requires IsBoard(g) && col < Columns
  {
    g[Rows - 1][col] == 0
  }

  /** The order in which get_valid_columns tries the columns. */
  const MiddleOrder: seq<nat> := [3, 4, 2, 5, 1, 6, 0]

  /** The place of a column in MiddleOrder. */
  function Rank(c: nat): (k: nat)
    requires c < Columns
    ensures k < 7 && MiddleOrder[k] == c
  {
    if c == 3 then 0 else if c == 4 then 1 else if c == 2 then 2 else if c == 5 then 3
    else if c == 1 then 4 else if c == 6 then 5 else 6
  }

  /** The valid columns among the first n of MiddleOrder, in that order. */
  function ValidUpTo(g: Board, n: nat): (cols: seq<nat>)
    requires IsBoard(g) && n <= |MiddleOrder|
    ensures forall k :: 0 <= k < |cols| ==> cols[k] < Columns && IsValidColumn(g, cols[k])
  {
    if n == 0 then []
    else
      var col := MiddleOrder[n - 1];
      ValidUpTo(g, n - 1) + (if IsValidColumn(g, col) then [col] else [])
  }

  function ValidColumns(g: Board): (cols: seq<nat>)
    requires IsBoard(g)
    ensures forall k :: 0 <= k < |cols| ==> cols[k] < Columns && IsValidColumn(g, cols[k])
  {
    ValidUpTo(g, |MiddleOrder|)
  }

  lemma {:induction false} ValidUpToSpec(g: Board, n: nat)
    requires IsBoard(g) && n <= |MiddleOrder|
    ensures forall c: nat :: c in ValidUpTo(g, n) <==> c < Columns && Rank(c) < n && IsValidColumn(g, c)
    ensures forall i, j :: 0 <= i < j < |ValidUpTo(g, n)| ==>
      ValidUpTo(g, n)[i] < Columns && ValidUpTo(g, n)[j] < Columns &&
      Rank(ValidUpTo(g, n)[i]) < Rank(ValidUpTo(g, n)[j])
  {
    if n > 0 {
      ValidUpToSpec(g, n - 1);
      var prev := ValidUpTo(g, n - 1);
      var col := MiddleOrder[n - 1];
      assert Rank(col) == n - 1;
      forall c: nat | c < Columns && Rank(c) < n && IsValidColumn(g, c)
        ensures c in ValidUpTo(g, n)
      {
        if Rank(c) == n - 1 {
          assert c == col;
        }
      }
      var vs := ValidUpTo(g, n);
      forall i, j | 0 <= i < j < |vs|
        ensures vs[i] < Columns && vs[j] < Columns && Rank(vs[i]) < Rank(vs[j])
      {
        if j < |prev| {
          assert vs[i] == prev[i] && vs[j] == prev[j];
        } else {
          assert vs[i] == prev[i] && prev[i] in prev;
          assert vs[j] == col;
        }
      }
    } else {
      assert ValidUpTo(g, 0) == [];
    }
  }

  /**
   * get_valid_columns returns exactly the columns whose top cell is empty,
   * each once, in the order 3, 4, 2, 5, 1, 6, 0.
   */
  lemma ValidColumnsSpec(g: Board)
    requires IsBoard(g)
    ensures forall c: nat :: c in ValidColumns(g) <==> c < Columns && IsValidColumn(g, c)
    ensures forall i, j :: 0 <= i < j < |ValidColumns(g)| ==>
      ValidColumns(g)[i] < Columns && ValidColumns(g)[j] < Columns &&
      Rank(ValidColumns(g)[i]) < Rank(ValidColumns(g)[j])
    ensures ValidColumns(g) == [] <==> forall c: nat :: c < Columns ==> !IsValidColumn(g, c)
  {
    ValidUpToSpec(g, |MiddleOrder|);
    var vs := ValidColumns(g);
    if vs == [] {
      forall c: nat | c < Columns
        ensures !IsValidColumn(g, c)
      {
        assert c !in vs;
      }
    } else {
      assert vs[0] in vs;
    }
  }

  method GetValidColumns(g: Board) returns (cols: seq<nat>)
    requires IsBoard(g)
    ensures cols == ValidColumns(g)
  {
    cols := [];
    for i := 0 to |MiddleOrder|
      invariant cols == ValidUpTo(g, i)
    {
      var col := MiddleOrder[i];
      if IsValidColumn(g, col) {
        cols := cols + [col];
      }
    }
  }

  // ---------------------------------------------------------------------
  // get_next_open_row
  // ---------------------------------------------------------------------

  function OpenRowFrom(g: Board, col: nat, row: nat): (r: int)
    requires IsBoard(g) && col < Columns && row <= Rows
    ensures r == -1 || row <= r < Rows
    ensures r == -1 <==> forall j :: row <= j < Rows ==> g[j][col] != 0
    ensures r != -1 ==> g[r][col] == 0 && forall j :: row <= j < r ==> g[j][col] != 0
    decreases Rows - row
  {
    if row == Rows then -1
    else if g[row][col] == 0 then row
    else OpenRowFrom(g, col, row + 1)
  }

  /** The lowest empty row of the column, or -1 when the column is full. */
  function NextOpenRow(g: Board, col: nat): (r: int)
    requires IsBoard(g) && col < Columns
    ensures -1 <= r < Rows
    ensures r == -1 <==> forall j :: 0 <= j < Rows ==> g[j][col] != 0
    ensures r != -1 ==> g[r][col] == 0 && forall j :: 0 <= j < r ==> g[j][col] != 0
  {
    OpenRowFrom(g, col, 0)
  }

  method GetNextOpenRow(g: Board, col: nat) returns (row: int)
    requires IsBoard(g) && col < Columns
    ensures row == NextOpenRow(g, col)
  {
    for r := 0 to Rows
      invariant OpenRowFrom(g, col, r) == NextOpenRow(g, col)
    {
      if g[r][col] == 0 {
        return r;
      }
    }
    return -1;
  }

  // ---------------------------------------------------------------------
  // Windows of four cells
  // ---------------------------------------------------------------------

  /**
   * A window of four cells: from (row, col), going right (dir 0), up
   * (dir 1), up and right (dir 2) or down and right (dir 3).
   */
  datatype Start = Start(dir: nat, row: nat, col: nat)

  predicate ValidStart(s: Start)
  {
    if s.dir == 0 then s.row < Rows && s.col < Columns - 3
    else if s.dir == 1 then s.row < Rows - 3 && s.col < Columns
    else if s.dir == 2 then s.row < Rows - 3 && s.col < Columns - 3
    else s.dir == 3 && 3 <= s.row < Rows && s.col < Columns - 3
  }

  /** The row of the j-th cell of the window. */
  function RowAt(s: Start, j: nat): (r: int)
    ensures ValidStart(s) && j < 4 ==> 0 <= r < Rows
  {
    if s.dir == 0 then s.row else if s.dir == 3 then s.row - j else s.row + j
  }

  /** The column of the j-th cell of the window. */
  function ColAt(s: Start, j: nat): (c: int)
    ensures ValidStart(s) && j < 4 ==> 0 <= c < Columns
  {
    if s.dir == 1 then s.col else s.col + j
  }

  function Window(g: Board, s: Start): (w: seq<int>)
    requires IsBoard(g) && ValidStart(s)
  {
    [g[RowAt(s, 0)][ColAt(s, 0)], g[RowAt(s, 1)][ColAt(s, 1)],
     g[RowAt(s, 2)][ColAt(s, 2)], g[RowAt(s, 3)][ColAt(s, 3)]]
  }

  // ---------------------------------------------------------------------
  // check_for_win
  // ---------------------------------------------------------------------

  /** Every cell of the window at s holds piece. */
  predicate WinAt(g: Board, piece: int, s: Start)
    requires IsBoard(g)
  {
    ValidStart(s) && Window(g, s) == [piece, piece, piece, piece]
  }

  /**
   * check_for_win runs four loop nests, rows outside and columns inside,
   * one per direction; they differ only in the rows and columns a window
   * may start at.
   */
  function FirstRow(dir: nat): nat
  {
    if dir == 3 then 3 else 0
  }

  function EndRow(dir: nat): nat
  {
    if dir == 0 || dir == 3 then Rows else Rows - 3
  }

  function EndColumn(dir: nat): nat
  {
    if dir == 1 then Columns else Columns - 3
  }

  /** Numbers the 69 windows: 24 horizontal, 21 vertical, 12 of each diagonal. */
  function StartOf(k: nat): (s: Start)
    requires k < 69
    ensures ValidStart(s)
  {
    if k < 24 then Start(0, k / 4, k % 4)
    else if k < 45 then Start(1, (k - 24) / 7, (k - 24) % 7)
    else if k < 57 then Start(2, (k - 45) / 4, (k - 45) % 4)
    else Start(3, 3 + (k - 57) / 4, (k - 57) % 4)
  }

  /** The number StartOf gives a window: every window has one. */
  function IndexOf(s: Start): (k: nat)
    requires ValidStart(s)
    ensures k < 69 && StartOf(k) == s
  {
    if s.dir == 0 then s.row * 4 + s.col
    else if s.dir == 1 then 24 + s.row * 7 + s.col
    else if s.dir == 2 then 45 + s.row * 4 + s.col
    else 57 + (s.row - 3) * 4 + s.col
  }

  /** One of the first k windows is all piece. */
  predicate WinBefore(g: Board, piece: int, k: nat)
    requires IsBoard(g) && k <= 69
  {
    k > 0 && (WinBefore(g, piece, k - 1) || WinAt(g, piece, StartOf(k - 1)))
  }

  /** Some horizontal, vertical or diagonal window is all piece. */
  predicate HasFour(g: Board, piece: int)
    requires IsBoard(g)
  {
    WinBefore(g, piece, 69)
  }

  lemma {:induction false} WinBeforeSpec(g: Board, piece: int, k: nat)
    requires IsBoard(g) && k <= 69
    ensures WinBefore(g, piece, k) <==> exists j: nat :: j < k && WinAt(g, piece, StartOf(j))
  {
    if k > 0 {
      WinBeforeSpec(g, piece, k - 1);
    }
  }

  /** HasFour holds exactly when some window of the board is all piece. */
  lemma HasFourSpec(g: Board, piece: int)
    requires IsBoard(g)
    ensures HasFour(g, piece) <==> exists s: Start :: WinAt(g, piece, s)
  {
    WinBeforeSpec(g, piece, 69);
    if s: Start :| WinAt(g, piece, s) {
      assert WinAt(g, piece, StartOf(IndexOf(s)));
    }
  }

  /** One loop nest of check_for_win: is some window in direction dir all piece? */
  method CheckDirection(g: Board, piece: int, dir: nat) returns (won: bool)
    requires IsBoard(g) && dir < 4
    ensures won <==> exists s: Start :: s.dir == dir && WinAt(g, piece, s)
  {
    for r := FirstRow(dir) to EndRow(dir)
      invariant forall s: Start :: s.dir == dir && s.row < r ==> !WinAt(g, piece, s)
    {
      for c := 0 to EndColumn(dir)
        invariant forall s: Start :: s.dir == dir && (s.row < r || (s.row == r && s.col < c)) ==> !WinAt(g, piece, s)
      {
        var s := Start(dir, r, c);
        if g[RowAt(s, 0)][ColAt(s, 0)] == piece && g[RowAt(s, 1)][ColAt(s, 1)] == piece &&
           g[RowAt(s, 2)][ColAt(s, 2)] == piece && g[RowAt(s, 3)][ColAt(s, 3)] == piece {
          assert WinAt(g, piece, s);
          return true;
        }
      }
    }
    return false;
  }

  method CheckForWin(g: Board, piece: int) returns (won: bool)
    requires IsBoard(g)
    ensures won <==> HasFour(g, piece)
  {
    HasFourSpec(g, piece);
    for dir := 0 to 4
      invariant forall s: Start :: s.dir < dir ==> !WinAt(g, piece, s)
    {
      won := CheckDirection(g, piece, dir);
      if won {
        return;
      }
    }
    return false;
  }

  // ---------------------------------------------------------------------
  // score_window
  // ---------------------------------------------------------------------

  /**
   * The points for four, three-plus-empty and two-plus-two-empty of one's
   * own pieces, and the points taken off for the same of the opponent's.
   */
  datatype Weights = Weights(four: int, three: int, two: int, blockFour: int, blockThree: int, blockTwo: int)

  /** base_game.py and connect4-offline.py. */
  const Standard: Weights := Weights(100, 24, 12, 100, 12, 6)

  /** connect4-v2-fast.py. */
  const Fast: Weights := Weights(1000, 50, 10, 1000, 100, 10)

  /** list.count */
  function Count(w: seq<int>, x: int): (n: nat)
    ensures n <= |w|
  {
    if w == [] then 0 else (if w[0] == x then 1 else 0) + Count(w[1..], x)
  }

  /** Counting in a window of four. */
  lemma Count4(a: int, b: int, c: int, d: int, x: int)
    ensures Count([a, b, c, d], x) ==
      (if a == x then 1 else 0) + (if b == x then 1 else 0) + (if c == x then 1 else 0) + (if d == x then 1 else 0)
  {
    assert [a, b, c, d][1..] == [b, c, d];
    assert [b, c, d][1..] == [c, d];
    assert [c, d][1..] == [d];
    assert [d][1..] == [];
    assert Count([d], x) == (if d == x then 1 else 0) + Count([], x);
    assert Count([c, d], x) == (if c == x then 1 else 0) + Count([d], x);
    assert Count([b, c, d], x) == (if b == x then 1 else 0) + Count([c, d], x);
  }

  function Opponent(piece: int): int
  {
    piece % 2 + 1
  }

  function ScoreWindow(w: seq<int>, piece: int, wt: Weights): int
  {
    var offense := Count(w, piece);
    var defense := Count(w, Opponent(piece));
    var empty := Count(w, 0);
    var gain :=
      if offense == 4 then wt.four
      else if offense == 3 && empty == 1 then wt.three
      else if offense == 2 && empty == 2 then wt.two
      else 0;
    var loss :=
      if defense == 4 then wt.blockFour
      else if defense == 3 && empty == 1 then wt.blockThree
      else if defense == 2 && empty == 2 then wt.blockTwo
      else 0;
    gain - loss
  }

  /** The opponent of any piece is 1 or 2, and never the piece itself. */
  lemma OpponentSpec(piece: int)
    ensures Opponent(piece) == 1 || Opponent(piece) == 2
    ensures Opponent(piece) != piece
  {
  }

  /** The counts of three different values in a window of four add up to at most four. */
  lemma {:induction false} CountsBounded(w: seq<int>, x: int, y: int, z: int)
    requires x != y && y != z && x != z
    ensures Count(w, x) + Count(w, y) + Count(w, z) <= |w|
  {
    if w != [] {
      CountsBounded(w[1..], x, y, z);
    }
  }

  /**
   * For a piece other than 0, at most one of the offense and defense
   * branches fires, so a window scores one of seven values.
   */
  lemma {:induction false} ScoreWindowValues(w: seq<int>, piece: int, wt: Weights)
    requires |w| == 4 && piece != 0
    ensures ScoreWindow(w, piece, wt) in {wt.four, wt.three, wt.two, 0, -wt.blockFour, -wt.blockThree, -wt.blockTwo}
  {
    OpponentSpec(piece);
    CountsBounded(w, piece, Opponent(piece), 0);
  }

  /** A window full of one's own pieces scores `four`; one full of the opponent's loses `blockFour`. */
  lemma ScoreWindowFull(piece: int, wt: Weights)
    ensures ScoreWindow([piece, piece, piece, piece], piece, wt) == wt.four
    ensures ScoreWindow([Opponent(piece), Opponent(piece), Opponent(piece), Opponent(piece)], piece, wt) == -wt.blockFour
  {
    OpponentSpec(piece);
    var o := Opponent(piece);
    Count4(piece, piece, piece, piece, piece);
    Count4(piece, piece, piece, piece, o);
    Count4(piece, piece, piece, piece, 0);
    Count4(o, o, o, o, piece);
    Count4(o, o, o, o, o);
    Count4(o, o, o, o, 0);
  }

  // ---------------------------------------------------------------------
  // evaluate_position
  // ---------------------------------------------------------------------

  /**
   * The four loop nests of evaluate_position, one per direction, each with
   * an outer and an inner index: rows then columns for the horizontal and
   * both diagonal nests, columns then rows for the vertical one.  The falling
   * diagonal at outer index r starts at row r + 3.
   */
  function OuterLength(dir: nat): nat
  {
    if dir == 0 then Rows else if dir == 1 then Columns else Rows - 3
  }

  function InnerLength(dir: nat): nat
  {
    if dir == 1 then Rows - 3 else Columns - 3
  }

  /** The window scored at (outer, inner) of the nest for direction dir. */
  function LoopStart(dir: nat, outer: nat, inner: nat): (s: Start)
    ensures dir < 4 && outer < OuterLength(dir) && inner < InnerLength(dir) ==> ValidStart(s)
  {
    if dir == 1 then Start(1, inner, outer)
    else if dir == 3 then Start(3, outer + 3, inner)
    else Start(dir, outer, inner)
  }

  /** Every window of the board is scored by exactly one iteration of one nest. */
  lemma LoopStartSpec(s: Start)
    ensures ValidStart(s) <==>
      exists dir: nat, outer: nat, inner: nat :: dir < 4 && outer < OuterLength(dir) && inner < InnerLength(dir) &&
        LoopStart(dir, outer, inner) == s
    ensures forall dir: nat, outer: nat, inner: nat, dir': nat, outer': nat, inner': nat ::
      LoopStart(dir, outer, inner) == s && LoopStart(dir', outer', inner') == s ==>
        dir == dir' && outer == outer' && inner == inner'
  {
    if ValidStart(s) {
      if s.dir == 1 {
        assert LoopStart(1, s.col, s.row) == s;
      } else if s.dir == 3 {
        assert LoopStart(3, s.row - 3, s.col) == s;
      } else {
        assert LoopStart(s.dir, s.row, s.col) == s;
      }
    }
  }

  /** The score of the first n windows of iteration `outer` of nest dir. */
  function InnerSum(g: Board, piece: int, wt: Weights, dir: nat, outer: nat, n: nat): (sum: int)
    requires IsBoard(g) && dir < 4 && outer < OuterLength(dir) && n <= InnerLength(dir)
    ensures NonNegative(wt) ==> -WindowsBound(n, wt) <= sum <= WindowsBound(n, wt)
  {
    if n == 0 then 0
    else
      var w := Window(g, LoopStart(dir, outer, n - 1));
      ScoreWindowBound(w, piece, wt);
      InnerSum(g, piece, wt, dir, outer, n - 1) + ScoreWindow(w, piece, wt)
  }

  /** The score of the first n iterations of nest dir. */
  function OuterSum(g: Board, piece: int, wt: Weights, dir: nat, n: nat): (sum: int)
    requires IsBoard(g) && dir < 4 && n <= OuterLength(dir)
    ensures NonNegative(wt) ==> -WindowsBound(NestWindows(dir, n), wt) <= sum <= WindowsBound(NestWindows(dir, n), wt)
  {
    if n == 0 then 0
    else
      WindowsBoundAdd(NestWindows(dir, n - 1), InnerLength(dir), wt);
      OuterSum(g, piece, wt, dir, n - 1) + InnerSum(g, piece, wt, dir, n - 1, InnerLength(dir))
  }

  /** The score of nests 0 .. dir - 1. */
  function NestsSum(g: Board, piece: int, wt: Weights, dir: nat): int
    requires IsBoard(g) && dir <= 4
  {
    if dir == 0 then 0
    else NestsSum(g, piece, wt, dir - 1) + OuterSum(g, piece, wt, dir - 1, OuterLength(dir - 1))
  }

  /** evaluate_position: the sum of score_window over all 69 windows. */
  function Evaluate(g: Board, piece: int, wt: Weights): int
    requires IsBoard(g)
  {
    NestsSum(g, piece, wt, 4)
  }

  lemma EvaluateNests(g: Board, piece: int, wt: Weights)
    requires IsBoard(g)
    ensures Evaluate(g, piece, wt) ==
      OuterSum(g, piece, wt, 0, 6) + OuterSum(g, piece, wt, 1, 7) + OuterSum(g, piece, wt, 2, 3) + OuterSum(g, piece, wt, 3, 3)
  {
    assert NestsSum(g, piece, wt, 1) == OuterSum(g, piece, wt, 0, 6);
    assert NestsSum(g, piece, wt, 2) == NestsSum(g, piece, wt, 1) + OuterSum(g, piece, wt, 1, 7);
    assert NestsSum(g, piece, wt, 3) == NestsSum(g, piece, wt, 2) + OuterSum(g, piece, wt, 2, 3);
  }

  /** One loop nest of evaluate_position. */
  method ScoreDirection(g: Board, piece: int, wt: Weights, dir: nat) returns (score: int)
    requires IsBoard(g) && dir < 4
    ensures score == OuterSum(g, piece, wt, dir, OuterLength(dir))
  {
    score := 0;
    for outer := 0 to OuterLength(dir)
      invariant score == OuterSum(g, piece, wt, dir, outer)
    {
      for inner := 0 to InnerLength(dir)
        invariant score == OuterSum(g, piece, wt, dir, outer) + InnerSum(g, piece, wt, dir, outer, inner)
      {
        var window := Window(g, LoopStart(dir, outer, inner));
        score := score + ScoreWindow(window, piece, wt);
      }
    }
  }

  method EvaluatePosition(g: Board, piece: int, wt: Weights) returns (score: int)
    requires IsBoard(g)
    ensures score == Evaluate(g, piece, wt)
  {
    score := 0;
    for dir := 0 to 4
      invariant score == NestsSum(g, piece, wt, dir)
    {
      var nest := ScoreDirection(g, piece, wt, dir);
      score := score + nest;
    }
  }

  // ---------------------------------------------------------------------
  // Properties of evaluate_position
  // ---------------------------------------------------------------------

  /** Every cell of g is empty. */
  predicate AllEmpty(g: Board)
    requires IsBoard(g)
  {
    forall r, c :: 0 <= r < Rows && 0 <= c < Columns ==> g[r][c] == 0
  }

  /** Every window of the empty board is four empty cells, which score 0 for a real piece. */
  lemma EmptyWindowScoresZero(g: Board, s: Start, piece: int, wt: Weights)
    requires IsBoard(g) && AllEmpty(g) && ValidStart(s) && piece != 0
    ensures ScoreWindow(Window(g, s), piece, wt) == 0
  {
    OpponentSpec(piece);
    var w := Window(g, s);
    assert w == [0, 0, 0, 0];
    Count4(0, 0, 0, 0, piece);
    Count4(0, 0, 0, 0, Opponent(piece));
  }

  lemma {:induction false} InnerSumEmpty(g: Board, piece: int, wt: Weights, dir: nat, outer: nat, n: nat)
    requires IsBoard(g) && AllEmpty(g)
    requires piece != 0 && dir < 4 && outer < OuterLength(dir) && n <= InnerLength(dir)
    ensures InnerSum(g, piece, wt, dir, outer, n) == 0
  {
    if n > 0 {
      InnerSumEmpty(g, piece, wt, dir, outer, n - 1);
      EmptyWindowScoresZero(g, LoopStart(dir, outer, n - 1), piece, wt);
    }
  }

  lemma {:induction false} OuterSumEmpty(g: Board, piece: int, wt: Weights, dir: nat, n: nat)
    requires IsBoard(g) && AllEmpty(g)
    requires piece != 0 && dir < 4 && n <= OuterLength(dir)
    ensures OuterSum(g, piece, wt, dir, n) == 0
  {
    if n > 0 {
      OuterSumEmpty(g, piece, wt, dir, n - 1);
      InnerSumEmpty(g, piece, wt, dir, n - 1, InnerLength(dir));
    }
  }

  /** The empty board evaluates to 0 for either player. */
  lemma EvaluateEmpty(piece: int, wt: Weights)
    requires piece != 0
    ensures Evaluate(EmptyBoard(), piece, wt) == 0
  {
    var g := EmptyBoard();
    EvaluateNests(g, piece, wt);
    OuterSumEmpty(g, piece, wt, 0, OuterLength(0));
    OuterSumEmpty(g, piece, wt, 1, OuterLength(1));
    OuterSumEmpty(g, piece, wt, 2, OuterLength(2));
    OuterSumEmpty(g, piece, wt, 3, OuterLength(3));
  }

  /** Every weight is a non-negative number of points. */
  predicate NonNegative(wt: Weights)
  {
    wt.four >= 0 && wt.three >= 0 && wt.two >= 0 && wt.blockFour >= 0 && wt.blockThree >= 0 && wt.blockTwo >= 0
  }

  /** The most a single window can move the score. */
  function WeightBound(wt: Weights): int
  {
    wt.four + wt.three + wt.two + wt.blockFour + wt.blockThree + wt.blockTwo
  }

  lemma ScoreWindowBound(w: seq<int>, piece: int, wt: Weights)
    ensures NonNegative(wt) ==> -WeightBound(wt) <= ScoreWindow(w, piece, wt) <= WeightBound(wt)
  {
  }

  /** The most n windows can move the score: n times WeightBound. */
  function WindowsBound(n: nat, wt: Weights): int
  {
    if n == 0 then 0 else WindowsBound(n - 1, wt) + WeightBound(wt)
  }

  lemma {:induction false} WindowsBoundIsProduct(n: nat, wt: Weights)
    ensures WindowsBound(n, wt) == n * WeightBound(wt)
  {
    if n > 0 {
      WindowsBoundIsProduct(n - 1, wt);
      assert n * WeightBound(wt) == (n - 1) * WeightBound(wt) + WeightBound(wt);
    }
  }

  lemma {:induction false} WindowsBoundAdd(m: nat, n: nat, wt: Weights)
    ensures WindowsBound(m + n, wt) == WindowsBound(m, wt) + WindowsBound(n, wt)
  {
    if n > 0 {
      WindowsBoundAdd(m, n - 1, wt);
    }
  }

  /** The number of windows in the first n iterations of nest dir. */
  function NestWindows(dir: nat, n: nat): nat
  {
    if n == 0 then 0 else NestWindows(dir, n - 1) + InnerLength(dir)
  }

  /** The 69 windows: 24 horizontal, 21 vertical and 12 of each diagonal. */
  lemma WindowCounts()
    ensures NestWindows(0, OuterLength(0)) == 24 && NestWindows(1, OuterLength(1)) == 21
    ensures NestWindows(2, OuterLength(2)) == 12 && NestWindows(3, OuterLength(3)) == 12
  {
  }

  /** evaluate_position stays within 69 times the largest window score. */
  lemma EvaluateBound(g: Board, piece: int, wt: Weights)
    requires IsBoard(g) && NonNegative(wt)
    ensures -69 * WeightBound(wt) <= Evaluate(g, piece, wt) <= 69 * WeightBound(wt)
  {
    WindowCounts();
    EvaluateNests(g, piece, wt);
    WindowsBoundAdd(24, 21, wt);
    WindowsBoundAdd(45, 12, wt);
    WindowsBoundAdd(57, 12, wt);
    WindowsBoundIsProduct(69, wt);
  }
}
