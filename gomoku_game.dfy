/**
 * The Gomoku game state: a 15 x 15 board updated in place, the player to move
 * and the game-over flag, with the click gate, the move, the win scan and the
 * draw scan. Each method is specified against the pure rules of GomokuRules.
 */
module Gomoku {
  import opened GomokuRules

  class GomokuGame {
    var board: array2<Cell>
    var currentPlayer: Player
    var gameOver: bool

    ghost predicate Valid()
      reads this`board
    {
      board.Length0 == BoardSize && board.Length1 == BoardSize
    }

    /** The board as a value, for the rules. */
    ghost function Grid(): (g: Grid)
      requires Valid()
      reads this`board, board
      ensures IsBoard(g)
      ensures forall r, c :: InBounds(r, c) ==> g[r][c] == board[r, c]
    {
      var b := board;
      seq(BoardSize, r requires 0 <= r < BoardSize reads b =>
        seq(BoardSize, c requires 0 <= c < BoardSize reads b => b[r, c]))
    }

    /** Black has as many stones as White or one more, and while the game runs the counts say whose turn it is. */
    ghost predicate Balanced()
      requires Valid()
      reads this, board
    {
      var g := Grid();
      GomokuRules.Balanced(g)
      && (!gameOver ==> (currentPlayer == Black <==> CountGrid(g, Stone(Black)) == CountGrid(g, Stone(White))))
    }

    constructor ()
      ensures Valid() && fresh(board)
      ensures forall r, c :: InBounds(r, c) ==> board[r, c] == Empty
      ensures currentPlayer == Black && !gameOver
      ensures Balanced()
    {
      board := new Cell[0, 0];
      currentPlayer := Black;
      gameOver := false;
      new;
      Init();
    }

    /** A fresh empty board, black to move, game running. */
    method Init()
      modifies this
      ensures Valid() && fresh(board)
      ensures forall r, c :: InBounds(r, c) ==> board[r, c] == Empty
      ensures currentPlayer == Black && !gameOver
      ensures Balanced()
    {
      board := new Cell[BoardSize, BoardSize]((r, c) => Empty);
      gameOver := false;
      currentPlayer := Black;
      CountGridNone(Grid(), Stone(Black));
      CountGridNone(Grid(), Stone(White));
    }

    /** Restarting is initialising again. */
    method Restart()
      modifies this
      ensures Valid() && fresh(board)
      ensures forall r, c :: InBounds(r, c) ==> board[r, c] == Empty
      ensures currentPlayer == Black && !gameOver
      ensures Balanced()
    {
      Init();
    }

    /**
     * A click on cell (row, col): ignored when the game is over, when the
     * cell is off the board or when it is occupied; otherwise the current
     * player moves there.
     */
    method HandleCell(row: int, col: int)
      requires Valid() && Balanced()
      modifies this, board
      ensures Valid() && Balanced() && board == old(board)
      ensures old(gameOver) || !InBounds(row, col) || old(board[row, col]) != Empty ==>
        unchanged(this) && unchanged(board)
      ensures !old(gameOver) && InBounds(row, col) && old(board[row, col]) == Empty ==>
        && board[row, col] == Stone(old(currentPlayer))
        && (forall r, c :: InBounds(r, c) && (r, c) != (row, col) ==> board[r, c] == old(board[r, c]))
        && gameOver == (WinAt(Grid(), row, col, old(currentPlayer)) || Full(Grid()))
        && currentPlayer == (if gameOver then old(currentPlayer) else Other(old(currentPlayer)))
    {
      if gameOver {
        return;
      }
      if 0 <= col < BoardSize && 0 <= row < BoardSize {
        if board[row, col] == Empty {
          PlacePiece(row, col);
        }
      }
    }

    /**
     * The current player puts a stone on (row, col). A win ends the game with
     * the winner still current; otherwise a full board ends it as a draw;
     * otherwise the turn passes.
     */
    method PlacePiece(row: int, col: int)
      requires Valid() && InBounds(row, col)
      modifies board, this`currentPlayer, this`gameOver
      ensures Valid() && board == old(board)
      ensures board[row, col] == Stone(old(currentPlayer))
      ensures forall r, c :: InBounds(r, c) && (r, c) != (row, col) ==> board[r, c] == old(board[r, c])
      ensures WinAt(Grid(), row, col, old(currentPlayer)) <==> FiveInRow(Grid(), row, col, old(currentPlayer))
      ensures WinAt(Grid(), row, col, old(currentPlayer)) ==> gameOver && currentPlayer == old(currentPlayer)
      ensures !WinAt(Grid(), row, col, old(currentPlayer)) && Full(Grid()) ==>
        gameOver && currentPlayer == old(currentPlayer)
      ensures !WinAt(Grid(), row, col, old(currentPlayer)) && !Full(Grid()) ==>
        gameOver == old(gameOver) && currentPlayer == Other(old(currentPlayer))
      ensures !old(gameOver) && old(board[row, col]) == Empty && old(Balanced()) ==> Balanced()
    {
      ghost var before := Grid();
      ghost var p := currentPlayer;
      ghost var fromGate := !gameOver && board[row, col] == Empty && Balanced();
      PutStone(row, col);
      ghost var after := Grid();
      WinIffFive(after, row, col, p);

      Conclude(row, col, after);
      assert Grid() == after;
      if fromGate {
        BalancedAfterMove(before, row, col, p);
      }
    }

    /**
     * After the stone on (row, col): the win scan, then the draw scan, then
     * the turn passes; `g` is the board at that moment.
     */
    method Conclude(row: int, col: int, ghost g: Grid)
      requires Valid() && InBounds(row, col) && g == Grid()
      modifies this`currentPlayer, this`gameOver
      ensures WinAt(g, row, col, old(currentPlayer)) ==> gameOver && currentPlayer == old(currentPlayer)
      ensures !WinAt(g, row, col, old(currentPlayer)) && Full(g) ==>
        gameOver && currentPlayer == old(currentPlayer)
      ensures !WinAt(g, row, col, old(currentPlayer)) && !Full(g) ==>
        gameOver == old(gameOver) && currentPlayer == Other(old(currentPlayer))
    {
      var win := CheckWin(row, col);
      if win {
        gameOver := true;
      } else {
        var draw := CheckDraw();
        if draw {
          gameOver := true;
        } else {
          currentPlayer := if currentPlayer == Black then White else Black;
        }
      }
    }

    /** Writes the current player's stone into (row, col) and nothing else. */
    method PutStone(row: int, col: int)
      requires Valid() && InBounds(row, col)
      modifies board
      ensures board[row, col] == Stone(currentPlayer)
      ensures forall r, c :: InBounds(r, c) && (r, c) != (row, col) ==> board[r, c] == old(board[r, c])
      ensures Grid() == old(Grid())[row := old(Grid())[row][col := Stone(currentPlayer)]]
    {
      ghost var before := Grid();
      board[row, col] := Stone(currentPlayer);
      assert Grid() == before[row := before[row][col := Stone(currentPlayer)]] by {
        forall r | 0 <= r < BoardSize
          ensures Grid()[r] == before[row := before[row][col := Stone(currentPlayer)]][r]
        {
        }
      }
    }

    /**
     * The win scan: on each axis, count the new stone plus the runs of the
     * current player's stones leaving (row, col) in both directions, and
     * report a win as soon as a count reaches five.
     */
    method CheckWin(row: int, col: int) returns (win: bool)
      requires Valid()
      ensures win == WinAt(Grid(), row, col, currentPlayer)
    {
      ghost var g := Grid();
      var a := 0;
      while a < AxisTotal
        invariant 0 <= a <= AxisTotal
        invariant forall j :: 0 <= j < a ==> AxisCount(g, row, col, j, currentPlayer) < WinLength
      {
        var count := CountAxis(row, col, a);
        if count >= WinLength {
          assert AxisCount(g, row, col, a, currentPlayer) >= WinLength;
          return true;
        }
        a := a + 1;
      }
      return false;
    }

    /** The count on axis a: the stone on (row, col) plus the runs leaving it both ways. */
    method CountAxis(row: int, col: int, a: int) returns (count: nat)
      requires Valid() && 0 <= a < AxisTotal
      ensures count == AxisCount(Grid(), row, col, a, currentPlayer)
    {
      ghost var g := Grid();
      count := 1;
      var k := 0;
      while k < 2
        invariant 0 <= k <= 2
        invariant count == 1 + (if k > 0 then DirRun(g, row, col, a, 0, currentPlayer) else 0)
                             + (if k > 1 then DirRun(g, row, col, a, 1, currentPlayer) else 0)
      {
        var run := WalkRun(row, col, a, k);
        count := count + run;
        k := k + 1;
      }
    }

    /**
     * One direction of the win scan: step away from (row, col) along
     * direction k of axis a while the cells hold the current player's stones.
     */
    method WalkRun(row: int, col: int, a: int, k: int) returns (n: nat)
      requires Valid() && 0 <= a < AxisTotal && 0 <= k < 2
      ensures n == DirRun(Grid(), row, col, a, k, currentPlayer)
    {
      ghost var g := Grid();
      var (dx, dy) := Direction(a, k);
      var r := row + dx;
      var c := col + dy;
      n := 0;
      while 0 <= r < BoardSize && 0 <= c < BoardSize && board[r, c] == Stone(currentPlayer)
        invariant n + Run(g, r, c, dx, dy, currentPlayer) == Run(g, row + dx, col + dy, dx, dy, currentPlayer)
        decreases Reach(r, c, dx, dy)
      {
        n := n + 1;
        r := r + dx;
        c := c + dy;
      }
    }

    /** The draw scan: the board is full exactly when no cell is empty. */
    method CheckDraw() returns (draw: bool)
      requires Valid()
      ensures draw == Full(Grid())
    {
      for r := 0 to BoardSize
        invariant forall i, j :: 0 <= i < r && 0 <= j < BoardSize ==> board[i, j] != Empty
      {
        for c := 0 to BoardSize
          invariant forall j :: 0 <= j < c ==> board[r, j] != Empty
        {
          if board[r, c] == Empty {
            return false;
          }
        }
      }
      return true;
    }

    /** The stone balance after `p` moved onto an empty cell, for each of the three outcomes. */
    lemma BalancedAfterMove(before: Grid, row: int, col: int, p: Player)
      requires Valid() && IsBoard(before) && InBounds(row, col)
      requires before[row][col] == Empty
      requires Grid() == before[row := before[row][col := Stone(p)]]
      requires var b, w := CountGrid(before, Stone(Black)), CountGrid(before, Stone(White));
        p == Black ==> b == w
      requires var b, w := CountGrid(before, Stone(Black)), CountGrid(before, Stone(White));
        p == White ==> b == w + 1
      requires gameOver || currentPlayer == Other(p)
      ensures Balanced()
    {
      CountGridSet(before, row, col, Stone(p), Stone(Black));
      CountGridSet(before, row, col, Stone(p), Stone(White));
    }
  }
}
