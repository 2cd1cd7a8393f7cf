/**
 * The rules of Gomoku as pure definitions over a snapshot of the board:
 * the contiguous run a move extends along one direction, the win test the
 * game performs after every move, the geometric "five in a row" it is meant
 * to detect, the full-board test, and stone counting.
 *
 * A board snapshot is a sequence of rows; row index first, as in the game's
 * `board[row][col]`.
 */
module GomokuRules {

  /** The board is BoardSize x BoardSize. */
  const BoardSize: int := 15

  /** Number of lines a win is looked for on: horizontal, vertical and two diagonals. */
  const AxisTotal: int := 4

  /** A stone needs this many in a row to win; longer lines win as well. */
  const WinLength: int := 5

  datatype Player = Black | White

  /** A cell is empty (`null` in the game) or holds a stone of one player. */
  datatype Cell = Empty | Stone(owner: Player)

  type Grid = seq<seq<Cell>>

  /** The player who moves after `p`. */
  function Other(p: Player): (q: Player)
    ensures q != p
  {
    if p == Black then White else Black
  }

  ghost predicate IsBoard(g: Grid) {
    |g| == BoardSize && forall r :: 0 <= r < |g| ==> |g[r]| == BoardSize
  }

  predicate InBounds(r: int, c: int) {
    0 <= r < BoardSize && 0 <= c < BoardSize
  }

  /** (r, c) lies on the board and holds a stone of `p`. */
  ghost predicate Owns(g: Grid, r: int, c: int, p: Player)
    requires IsBoard(g)
  {
    InBounds(r, c) && g[r][c] == Stone(p)
  }

  predicate IsUnit(d: int) {
    -1 <= d <= 1
  }

  /** A step moves by at most one cell on each coordinate and does move. */
  predicate IsStep(dr: int, dc: int) {
    IsUnit(dr) && IsUnit(dc) && (dr != 0 || dc != 0)
  }

  /** The coordinate `i` steps of size `d` away from `r`, that is r + i * d for a unit `d`. */
  function Shift(r: int, d: int, i: int): int {
    if d == 0 then r else if d > 0 then r + i else r - i
  }

  /** How many steps in direction (dr, dc) from (r, c) remain on the board; a termination measure. */
  function Reach(r: int, c: int, dr: int, dc: int): int {
    if dr > 0 then BoardSize - r
    else if dr < 0 then r + 1
    else if dc > 0 then BoardSize - c
    else c + 1
  }

  /**
   * The number of consecutive stones of `p` met walking from (r, c) in
   * direction (dr, dc); the walk ends at the board edge or at the first cell
   * that does not hold a stone of `p`.
   */
  ghost function Run(g: Grid, r: int, c: int, dr: int, dc: int, p: Player): nat
    requires IsBoard(g) && IsStep(dr, dc)
    decreases Reach(r, c, dr, dc)
  {
    if Owns(g, r, c, p) then 1 + Run(g, r + dr, c + dc, dr, dc, p) else 0
  }

  /**
   * The direction table of the win test: axis `a` has the two opposite
   * directions k = 0 and k = 1, (dr, dc) and (-dr, -dc).
   */
  function Direction(a: int, k: int): (d: (int, int))
    requires 0 <= a < AxisTotal && 0 <= k < 2
    ensures IsStep(d.0, d.1)
    ensures k == 1 ==> d == (-Direction(a, 0).0, -Direction(a, 0).1)
  {
    var (dr, dc) :=
      if a == 0 then (0, 1)
      else if a == 1 then (1, 0)
      else if a == 2 then (1, 1)
      else (1, -1);
    if k == 0 then (dr, dc) else (-dr, -dc)
  }

  /** The four axes are four different lines through a cell: no direction of one is a direction of another. */
  lemma AxesDistinct(a: int, b: int)
    requires 0 <= a < AxisTotal && 0 <= b < AxisTotal && a != b
    ensures Direction(a, 0) != Direction(b, 0) && Direction(a, 0) != Direction(b, 1)
  {
  }

  /** The run of `p` leaving (row, col) in direction k of axis a, not counting (row, col) itself. */
  ghost function DirRun(g: Grid, row: int, col: int, a: int, k: int, p: Player): nat
    requires IsBoard(g) && 0 <= a < AxisTotal && 0 <= k < 2
  {
    var d := Direction(a, k);
    Run(g, row + d.0, col + d.1, d.0, d.1, p)
  }

  /** The count the win test forms on axis a: the new stone plus both runs. */
  ghost function AxisCount(g: Grid, row: int, col: int, a: int, p: Player): nat
    requires IsBoard(g) && 0 <= a < AxisTotal
  {
    1 + DirRun(g, row, col, a, 0, p) + DirRun(g, row, col, a, 1, p)
  }

  /** The game's win test after `p` plays (row, col): some axis counts at least five. */
  ghost predicate WinAt(g: Grid, row: int, col: int, p: Player)
    requires IsBoard(g)
  {
    exists a :: 0 <= a < AxisTotal && AxisCount(g, row, col, a, p) >= WinLength
  }

  /** The WinLength cells at offsets s .. s+4 along axis a through (row, col) all hold `p`. */
  ghost predicate FiveFrom(g: Grid, row: int, col: int, a: int, s: int, p: Player)
    requires IsBoard(g) && 0 <= a < AxisTotal
  {
    var d := Direction(a, 0);
    forall i :: s <= i < s + WinLength ==> Owns(g, Shift(row, d.0, i), Shift(col, d.1, i), p)
  }

  /** Five consecutive cells on some line through (row, col), (row, col) among them, all hold `p`. */
  ghost predicate FiveInRow(g: Grid, row: int, col: int, p: Player)
    requires IsBoard(g)
  {
    exists a, s :: 0 <= a < AxisTotal && 1 - WinLength <= s <= 0 && FiveFrom(g, row, col, a, s, p)
  }

  /** No cell of the board is empty. */
  ghost predicate Full(g: Grid)
    requires IsBoard(g)
  {
    forall r, c :: InBounds(r, c) ==> g[r][c] != Empty
  }

  /** The number of cells of `row` equal to `x`. */
  function CountRow(row: seq<Cell>, x: Cell): nat {
    if row == [] then 0 else (if row[0] == x then 1 else 0) + CountRow(row[1..], x)
  }

  /** The number of cells of `g` equal to `x`. */
  function CountGrid(g: Grid, x: Cell): nat {
    if g == [] then 0 else CountRow(g[0], x) + CountGrid(g[1..], x)
  }

  /** Black, who moves first, has as many stones as White or one more. */
  ghost predicate Balanced(g: Grid) {
    var b, w := CountGrid(g, Stone(Black)), CountGrid(g, Stone(White));
    b == w || b == w + 1
  }

  // ---------------------------------------------------------------------
  // Runs

  lemma ShiftStep(r: int, d: int, i: int)
    requires IsUnit(d)
    ensures Shift(r + d, d, i) == Shift(r, d, i + 1)
    ensures Shift(r - d, -d, i) == Shift(r, d, -(i + 1))
    ensures Shift(r, d, 0) == r
  {
  }

  /** Every cell a run passes over holds a stone of `p`. */
  lemma {:induction false} RunOwns(g: Grid, r: int, c: int, dr: int, dc: int, p: Player, i: int)
    requires IsBoard(g) && IsStep(dr, dc)
    requires 0 <= i < Run(g, r, c, dr, dc, p)
    ensures Owns(g, Shift(r, dr, i), Shift(c, dc, i), p)
    decreases i
  {
    if i > 0 {
      RunOwns(g, r + dr, c + dc, dr, dc, p, i - 1);
      ShiftStep(r, dr, i - 1);
      ShiftStep(c, dc, i - 1);
    }
  }

  /** A run stops at the first cell that is off the board or not a stone of `p`. */
  lemma {:induction false} RunStops(g: Grid, r: int, c: int, dr: int, dc: int, p: Player)
    requires IsBoard(g) && IsStep(dr, dc)
    ensures !Owns(g, Shift(r, dr, Run(g, r, c, dr, dc, p)), Shift(c, dc, Run(g, r, c, dr, dc, p)), p)
    decreases Reach(r, c, dr, dc)
  {
    if Owns(g, r, c, p) {
      var n := Run(g, r + dr, c + dc, dr, dc, p);
      RunStops(g, r + dr, c + dc, dr, dc, p);
      ShiftStep(r, dr, n);
      ShiftStep(c, dc, n);
    }
  }

  /** If the first k cells from (r, c) hold `p`, the run is at least k long. */
  lemma {:induction false} RunCovers(g: Grid, r: int, c: int, dr: int, dc: int, p: Player, k: nat)
    requires IsBoard(g) && IsStep(dr, dc)
    requires forall i :: 0 <= i < k ==> Owns(g, Shift(r, dr, i), Shift(c, dc, i), p)
    ensures Run(g, r, c, dr, dc, p) >= k
    decreases k
  {
    if k > 0 {
      ShiftStep(r, dr, 0);
      ShiftStep(c, dc, 0);
      assert Owns(g, Shift(r, dr, 0), Shift(c, dc, 0), p);
      var r1, c1 := r + dr, c + dc;
      forall i | 0 <= i < k - 1
        ensures Owns(g, Shift(r1, dr, i), Shift(c1, dc, i), p)
      {
        ShiftStep(r, dr, i);
        ShiftStep(c, dc, i);
        assert Owns(g, Shift(r, dr, i + 1), Shift(c, dc, i + 1), p);
      }
      RunCovers(g, r1, c1, dr, dc, p, k - 1);
    }
  }

  // ---------------------------------------------------------------------
  // The win test detects at least five in a row through the placed stone

  /** Every cell from the end of the backward run to the end of the forward run on axis a holds `p`. */
  lemma AxisOwns(g: Grid, row: int, col: int, a: int, p: Player, i: int)
    requires IsBoard(g) && 0 <= a < AxisTotal
    requires Owns(g, row, col, p)
    requires 0 <= i + DirRun(g, row, col, a, 1, p) && i <= DirRun(g, row, col, a, 0, p)
    ensures var d := Direction(a, 0); Owns(g, Shift(row, d.0, i), Shift(col, d.1, i), p)
  {
    var (dr, dc) := Direction(a, 0);
    if i > 0 {
      RunOwns(g, row + dr, col + dc, dr, dc, p, i - 1);
      ShiftStep(row, dr, i - 1);
      ShiftStep(col, dc, i - 1);
    } else if i < 0 {
      RunOwns(g, row - dr, col - dc, -dr, -dc, p, -i - 1);
      ShiftStep(row, dr, -i - 1);
      ShiftStep(col, dc, -i - 1);
    } else {
      ShiftStep(row, dr, 0);
      ShiftStep(col, dc, 0);
    }
  }

  /** A count of five or more on an axis means five consecutive stones of `p` through (row, col). */
  lemma CountGivesFive(g: Grid, row: int, col: int, a: int, p: Player)
    requires IsBoard(g) && 0 <= a < AxisTotal
    requires Owns(g, row, col, p)
    requires AxisCount(g, row, col, a, p) >= WinLength
    ensures FiveFrom(g, row, col, a, -Min(DirRun(g, row, col, a, 1, p), WinLength - 1), p)
  {
    var (dr, dc) := Direction(a, 0);
    var s := -Min(DirRun(g, row, col, a, 1, p), WinLength - 1);
    forall i | s <= i < s + WinLength
      ensures Owns(g, Shift(row, dr, i), Shift(col, dc, i), p)
    {
      AxisOwns(g, row, col, a, p, i);
    }
  }

  /** Five in a row from offset s makes the forward run on axis a at least s + 4 long. */
  lemma FiveAhead(g: Grid, row: int, col: int, a: int, s: int, p: Player)
    requires IsBoard(g) && 0 <= a < AxisTotal && 1 - WinLength <= s <= 0
    requires FiveFrom(g, row, col, a, s, p)
    ensures DirRun(g, row, col, a, 0, p) >= s + WinLength - 1
  {
    var (dr, dc) := Direction(a, 0);
    var fr, fc := row + dr, col + dc;
    forall i | 0 <= i < s + WinLength - 1
      ensures Owns(g, Shift(fr, dr, i), Shift(fc, dc, i), p)
    {
      ShiftStep(row, dr, i);
      ShiftStep(col, dc, i);
      assert Owns(g, Shift(row, dr, i + 1), Shift(col, dc, i + 1), p);
    }
    RunCovers(g, fr, fc, dr, dc, p, s + WinLength - 1);
  }

  /** Five in a row from offset s makes the backward run on axis a at least -s long. */
  lemma FiveBehind(g: Grid, row: int, col: int, a: int, s: int, p: Player)
    requires IsBoard(g) && 0 <= a < AxisTotal && 1 - WinLength <= s <= 0
    requires FiveFrom(g, row, col, a, s, p)
    ensures DirRun(g, row, col, a, 1, p) >= -s
  {
    var (dr, dc) := Direction(a, 0);
    var br, bc, ndr, ndc := row - dr, col - dc, -dr, -dc;
    forall i | 0 <= i < -s
      ensures Owns(g, Shift(br, ndr, i), Shift(bc, ndc, i), p)
    {
      ShiftStep(row, dr, i);
      ShiftStep(col, dc, i);
      assert Owns(g, Shift(row, dr, -(i + 1)), Shift(col, dc, -(i + 1)), p);
    }
    RunCovers(g, br, bc, ndr, ndc, p, -s);
  }

  /** Five consecutive stones of `p` through (row, col) on an axis make that axis count at least five. */
  lemma FiveGivesCount(g: Grid, row: int, col: int, a: int, s: int, p: Player)
    requires IsBoard(g) && 0 <= a < AxisTotal && 1 - WinLength <= s <= 0
    requires FiveFrom(g, row, col, a, s, p)
    ensures AxisCount(g, row, col, a, p) >= WinLength
  {
    FiveAhead(g, row, col, a, s, p);
    FiveBehind(g, row, col, a, s, p);
  }

  /**
   * Once `p` has a stone on (row, col), the game's win test succeeds exactly
   * when five consecutive cells of a line through (row, col) hold `p`.
   */
  lemma WinIffFive(g: Grid, row: int, col: int, p: Player)
    requires IsBoard(g) && Owns(g, row, col, p)
    ensures WinAt(g, row, col, p) <==> FiveInRow(g, row, col, p)
  {
    if WinAt(g, row, col, p) {
      var a :| 0 <= a < AxisTotal && AxisCount(g, row, col, a, p) >= WinLength;
      CountGivesFive(g, row, col, a, p);
      var s := -Min(DirRun(g, row, col, a, 1, p), WinLength - 1);
      assert FiveFrom(g, row, col, a, s, p);
    }
    if FiveInRow(g, row, col, p) {
      var a, s :| 0 <= a < AxisTotal && 1 - WinLength <= s <= 0 && FiveFrom(g, row, col, a, s, p);
      FiveGivesCount(g, row, col, a, s, p);
    }
  }

  /** An overline of six stones through (row, col) wins as well: the test asks for at least five. */
  lemma OverlineWins(g: Grid, row: int, col: int, a: int, s: int, p: Player)
    requires IsBoard(g) && 0 <= a < AxisTotal && -WinLength <= s <= 0
    requires var d := Direction(a, 0);
      forall i :: s <= i < s + WinLength + 1 ==> Owns(g, Shift(row, d.0, i), Shift(col, d.1, i), p)
    ensures WinAt(g, row, col, p)
  {
    var s5 := if s < 1 - WinLength then 1 - WinLength else s;
    assert FiveFrom(g, row, col, a, s5, p);
    FiveGivesCount(g, row, col, a, s5, p);
  }

  function Min(x: int, y: int): int {
    if x <= y then x else y
  }

  // ---------------------------------------------------------------------
  // Stone counts

  /** Writing `x` over an empty cell adds one `x` and leaves every other count alone. */
  lemma {:induction false} CountRowSet(row: seq<Cell>, j: int, x: Cell, y: Cell)
    requires 0 <= j < |row| && row[j] == Empty && x != Empty
    ensures CountRow(row[j := x], y) == CountRow(row, y) + (if y == x then 1 else 0) - (if y == Empty then 1 else 0)
    decreases j
  {
    if j > 0 {
      assert row[j := x][1..] == row[1..][j - 1 := x];
      CountRowSet(row[1..], j - 1, x, y);
    } else {
      assert row[j := x][1..] == row[1..];
    }
  }

  /** Writing `x` over an empty cell of a board adds one `x` and leaves every other count alone. */
  lemma {:induction false} CountGridSet(g: Grid, r: int, c: int, x: Cell, y: Cell)
    requires 0 <= r < |g| && 0 <= c < |g[r]| && g[r][c] == Empty && x != Empty
    ensures CountGrid(g[r := g[r][c := x]], y) == CountGrid(g, y) + (if y == x then 1 else 0) - (if y == Empty then 1 else 0)
    decreases r
  {
    var g' := g[r := g[r][c := x]];
    if r > 0 {
      assert g'[1..] == g[1..][r - 1 := g[1..][r - 1][c := x]];
      CountGridSet(g[1..], r - 1, c, x, y);
    } else {
      assert g'[1..] == g[1..];
      CountRowSet(g[0], c, x, y);
    }
  }

  /** Every cell of a row is empty, black or white. */
  lemma {:induction false} CountRowTotal(row: seq<Cell>)
    ensures CountRow(row, Empty) + CountRow(row, Stone(Black)) + CountRow(row, Stone(White)) == |row|
  {
    if row != [] {
      CountRowTotal(row[1..]);
      match row[0]
      case Empty =>
      case Stone(p) =>
        assert p == Black || p == White;
    }
  }

  /** A row with no cell equal to `x` counts zero of them. */
  lemma {:induction false} CountRowNone(row: seq<Cell>, x: Cell)
    requires forall j :: 0 <= j < |row| ==> row[j] != x
    ensures CountRow(row, x) == 0
  {
    if row != [] {
      CountRowNone(row[1..], x);
    }
  }

  /** On a full board there are BoardSize * BoardSize stones. */
  lemma {:induction false} FullStoneTotal(g: Grid)
    requires forall r :: 0 <= r < |g| ==> |g[r]| == BoardSize
    requires forall r, c :: 0 <= r < |g| && 0 <= c < BoardSize ==> g[r][c] != Empty
    ensures CountGrid(g, Stone(Black)) + CountGrid(g, Stone(White)) == |g| * BoardSize
  {
    if g != [] {
      CountRowTotal(g[0]);
      CountRowNone(g[0], Empty);
      FullStoneTotal(g[1..]);
    }
  }

  /** A board with no stone of `x` counts zero of them. */
  lemma {:induction false} CountGridNone(g: Grid, x: Cell)
    requires forall r, c :: 0 <= r < |g| && 0 <= c < |g[r]| ==> g[r][c] != x
    ensures CountGrid(g, x) == 0
  {
    if g != [] {
      CountRowNone(g[0], x);
      CountGridNone(g[1..], x);
    }
  }

  /**
   * With black moving first and the players alternating, a full board holds
   * 113 black and 112 white stones (DrawOnBlack shows the filling move is Black's).
   */
  lemma FullBoardCounts(g: Grid)
    requires IsBoard(g) && Full(g) && Balanced(g)
    ensures CountGrid(g, Stone(Black)) == 113 && CountGrid(g, Stone(White)) == 112
  {
    FullStoneTotal(g);
  }

  /**
   * Players alternate from Black, so a move that fills the board is always
   * Black's: the 225th stone is the 113th black one.
   */
  lemma DrawOnBlack(before: Grid, row: int, col: int, p: Player)
    requires IsBoard(before) && InBounds(row, col) && before[row][col] == Empty
    requires var b, w := CountGrid(before, Stone(Black)), CountGrid(before, Stone(White));
      (p == Black ==> b == w) && (p == White ==> b == w + 1)
    requires var after := before[row := before[row][col := Stone(p)]];
      Full(after)
    ensures p == Black
  {
    var after := before[row := before[row][col := Stone(p)]];
    CountGridSet(before, row, col, Stone(p), Stone(Black));
    CountGridSet(before, row, col, Stone(p), Stone(White));
    FullStoneTotal(after);
  }
}
