/** The rules of the game as the server applies them: the board, lines, and the winner scan. */
module TicTacToe {

  /** Nine cells, row by row: 0 is free, 1 and 2 are the players' marks. */
  type Board = b: seq<int> | |b| == 9 witness [0, 0, 0, 0, 0, 0, 0, 0, 0]

  const EMPTY_BOARD: Board := [0, 0, 0, 0, 0, 0, 0, 0, 0]

  predicate Marked(b: Board) {
    forall i :: 0 <= i < 9 ==> b[i] in {0, 1, 2}
  }

  predicate Holds(b: Board, p: int, i: nat, j: nat, k: nat)
    requires i < 9 && j < 9 && k < 9
  {
    b[i] == p && b[j] == p && b[k] == p
  }

  predicate RowLine(b: Board, p: int, i: nat)
    requires i < 3
  {
    Holds(b, p, 3 * i, 3 * i + 1, 3 * i + 2)
  }

  predicate ColumnLine(b: Board, p: int, i: nat)
    requires i < 3
  {
    Holds(b, p, i, i + 3, i + 6)
  }

  /** One of the eight lines of the board belongs to player `p`. */
  predicate HasLine(b: Board, p: int) {
    || RowLine(b, p, 0) || RowLine(b, p, 1) || RowLine(b, p, 2)
    || ColumnLine(b, p, 0) || ColumnLine(b, p, 1) || ColumnLine(b, p, 2)
    || Holds(b, p, 0, 4, 8) || Holds(b, p, 2, 4, 6)
  }

  function Cell(b: Board, row: nat, col: nat): int
    requires row < 3 && col < 3
  {
    b[3 * row + col]
  }

  /** The lines are what the board shows straight: three in a row, in a column, or on a diagonal. */
  lemma LinesAreStraight(b: Board, p: int)
    ensures HasLine(b, p) <==>
            || (exists r :: 0 <= r < 3 && Cell(b, r, 0) == p && Cell(b, r, 1) == p && Cell(b, r, 2) == p)
            || (exists c :: 0 <= c < 3 && Cell(b, 0, c) == p && Cell(b, 1, c) == p && Cell(b, 2, c) == p)
            || (forall r, c :: 0 <= r < 3 && 0 <= c < 3 && r == c ==> Cell(b, r, c) == p)
            || (forall r, c :: 0 <= r < 3 && 0 <= c < 3 && r + c == 2 ==> Cell(b, r, c) == p)
  {
    assert forall i :: 0 <= i < 3 ==> (RowLine(b, p, i) <==>
      Cell(b, i, 0) == p && Cell(b, i, 1) == p && Cell(b, i, 2) == p);
    assert forall i :: 0 <= i < 3 ==> (ColumnLine(b, p, i) <==>
      Cell(b, 0, i) == p && Cell(b, 1, i) == p && Cell(b, 2, i) == p);
    assert Holds(b, p, 0, 4, 8) <==> Cell(b, 0, 0) == p && Cell(b, 1, 1) == p && Cell(b, 2, 2) == p;
    assert Holds(b, p, 2, 4, 6) <==> Cell(b, 0, 2) == p && Cell(b, 1, 1) == p && Cell(b, 2, 0) == p;
  }

  /** The server's scan for a winner, from row and column `i` on, the diagonals last. */
  function Scan(b: Board, i: nat): int
    requires i <= 3
    decreases 3 - i
  {
    if i < 3 then
      if b[3 * i] != 0 && RowLine(b, b[3 * i], i) then b[3 * i]
      else if b[i] != 0 && ColumnLine(b, b[i], i) then b[i]
      else Scan(b, i + 1)
    else if b[0] != 0 && Holds(b, b[0], 0, 4, 8) then b[0]
    else if b[2] != 0 && Holds(b, b[2], 2, 4, 6) then b[2]
    else 0
  }

  function Winner(b: Board): int {
    Scan(b, 0)
  }

  /** The scan answers 0 exactly when no player has a line, and otherwise with a player who has one. */
  lemma WinnerMeaning(b: Board)
    ensures Winner(b) != 0 ==> HasLine(b, Winner(b))
    ensures Winner(b) == 0 <==> forall p :: p != 0 ==> !HasLine(b, p)
  {
    assert Scan(b, 2) == if b[6] != 0 && RowLine(b, b[6], 2) then b[6]
                         else if b[2] != 0 && ColumnLine(b, b[2], 2) then b[2] else Scan(b, 3);
    assert Scan(b, 1) == if b[3] != 0 && RowLine(b, b[3], 1) then b[3]
                         else if b[1] != 0 && ColumnLine(b, b[1], 1) then b[1] else Scan(b, 2);
    forall p | p != 0 && HasLine(b, p) ensures Winner(b) != 0 {
    }
    if Winner(b) != 0 {
      assert HasLine(b, Winner(b));
    }
  }

  function Cells(board: array2<int>): (b: Board)
    requires board.Length0 == 3 && board.Length1 == 3
    reads board
    ensures forall i, j :: 0 <= i < 3 && 0 <= j < 3 ==> b[3 * i + j] == board[i, j]
  {
    [board[0, 0], board[0, 1], board[0, 2],
     board[1, 0], board[1, 1], board[1, 2],
     board[2, 0], board[2, 1], board[2, 2]]
  }

  method CheckWinner(board: array2<int>) returns (winner: int)
    requires board.Length0 == 3 && board.Length1 == 3
    ensures winner == Winner(Cells(board))
  {
    for i := 0 to 3
      invariant Scan(Cells(board), 0) == Scan(Cells(board), i)
    {
      if board[i, 0] != 0 && board[i, 0] == board[i, 1] && board[i, 1] == board[i, 2] {
        return board[i, 0];
      }
      if board[0, i] != 0 && board[0, i] == board[1, i] && board[1, i] == board[2, i] {
        return board[0, i];
      }
    }
    if board[0, 0] != 0 && board[0, 0] == board[1, 1] && board[1, 1] == board[2, 2] {
      return board[0, 0];
    }
    if board[0, 2] != 0 && board[0, 2] == board[1, 1] && board[1, 1] == board[2, 0] {
      return board[0, 2];
    }
    return 0;
  }

  /** The number of cells that hold `p`. */
  function Count(cells: seq<int>, p: int): (n: nat)
    ensures n <= |cells|
  {
    if cells == [] then 0 else (if cells[0] == p then 1 else 0) + Count(cells[1..], p)
  }

  lemma {:induction false} CountUpdate(cells: seq<int>, i: nat, v: int, p: int)
    requires i < |cells|
    ensures Count(cells[i := v], p) == Count(cells, p) - (if cells[i] == p then 1 else 0) + (if v == p then 1 else 0)
  {
    if i == 0 {
      assert cells[0 := v][1..] == cells[1..];
    } else {
      assert cells[i := v][1..] == cells[1..][i - 1 := v];
      CountUpdate(cells[1..], i - 1, v, p);
    }
  }

  lemma {:induction false} CountTotal(cells: seq<int>)
    requires forall i :: 0 <= i < |cells| ==> cells[i] in {0, 1, 2}
    ensures Count(cells, 0) + Count(cells, 1) + Count(cells, 2) == |cells|
  {
    if cells != [] {
      CountTotal(cells[1..]);
    }
  }

  lemma {:induction false} CountPositive(cells: seq<int>, p: int) returns (i: nat)
    requires Count(cells, p) > 0
    ensures i < |cells| && cells[i] == p
  {
    if cells[0] == p {
      i := 0;
    } else {
      i := CountPositive(cells[1..], p);
      i := i + 1;
    }
  }

  /** A mark only ever makes lines for the player who sets it. */
  lemma LinesAfterMark(b: Board, i: nat, p: int, q: int)
    requires i < 9 && b[i] == 0 && p != q && q != 0
    ensures HasLine(b[i := p], q) ==> HasLine(b, q)
    ensures HasLine(b, p) && p != 0 ==> HasLine(b[i := p], p)
  {
  }

  /** On a board where only the mover can have a line, the order of the scan does not matter. */
  lemma WinnerIsMover(b: Board, p: int)
    requires p != 0 && forall q :: q != 0 && q != p ==> !HasLine(b, q)
    ensures Winner(b) == if HasLine(b, p) then p else 0
  {
    WinnerMeaning(b);
  }
}
