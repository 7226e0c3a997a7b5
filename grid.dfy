/** The Orthokon board as a value: a 4x4 grid indexed board[x][y], each square
    red, yellow or empty, together with the game status and piece counting. */
module Grid {

  /** One square; the source stores the strings "Red", "Yellow" and "". */
  datatype Cell = Empty | Red | Yellow

  /** The game status; the source stores "UNFINISHED", "RED_WON" and "YELLOW_WON". */
  datatype Status = Unfinished | RedWon | YellowWon

  /** The board, indexed board[x][y]. */
  type Board = seq<seq<Cell>>

  predicate WellFormed(b: Board) {
    |b| == 4 && forall x | 0 <= x < 4 :: |b[x]| == 4
  }

  predicate OnBoard(x: int, y: int) {
    0 <= x <= 3 && 0 <= y <= 3
  }

  /** The starting layout: every x holds a red piece at y = 0 and a yellow one at y = 3. */
  const InitialBoard: Board :=
    [[Red, Empty, Empty, Yellow], [Red, Empty, Empty, Yellow],
     [Red, Empty, Empty, Yellow], [Red, Empty, Empty, Yellow]]

  /** The board with square (x, y) set to c and every other square as it was. */
  function Update(b: Board, x: int, y: int, c: Cell): (r: Board)
    requires WellFormed(b) && OnBoard(x, y)
    ensures WellFormed(r)
  {
    b[x := b[x][y := c]]
  }

  /** After Update, square (x, y) holds c and every other square is unchanged. */
  lemma UpdateSquares(b: Board, x: int, y: int, c: Cell)
    requires WellFormed(b) && OnBoard(x, y)
    ensures Update(b, x, y, c)[x][y] == c
    ensures forall i, j | OnBoard(i, j) && (i != x || j != y) :: Update(b, x, y, c)[i][j] == b[i][j]
  {
  }

  /** Number of squares holding c in one column b[x] (counted from the front). */
  function CountLine(line: seq<Cell>, c: Cell): nat {
    if line == [] then 0
    else CountLine(line[..|line| - 1], c) + (if line[|line| - 1] == c then 1 else 0)
  }

  /** Number of squares holding c in the columns of b: on a board, the
      count the nested loops of `_update_current_state` make. */
  function Count(b: Board, c: Cell): nat {
    if b == [] then 0
    else Count(b[..|b| - 1], c) + CountLine(b[|b| - 1], c)
  }

  /** The number of pieces on the board, red and yellow together. */
  function Pieces(b: Board): nat {
    Count(b, Red) + Count(b, Yellow)
  }

  function Occupies(c: Cell): nat {
    if c == Empty then 0 else 1
  }

  lemma {:induction false} UpdateCountLine(line: seq<Cell>, y: nat, c: Cell, d: Cell)
    requires y < |line|
    ensures CountLine(line[y := c], d)
         == CountLine(line, d) - (if line[y] == d then 1 else 0) + (if c == d then 1 else 0)
  {
    var n := |line| - 1;
    var u := line[y := c];
    if y == n {
      assert u[..n] == line[..n];
    } else {
      assert u[..n] == line[..n][y := c];
      UpdateCountLine(line[..n], y, c, d);
    }
  }

  lemma {:induction false} UpdateCountColumns(b: Board, x: nat, col: seq<Cell>, d: Cell)
    requires x < |b|
    ensures Count(b[x := col], d) == Count(b, d) - CountLine(b[x], d) + CountLine(col, d)
  {
    var n := |b| - 1;
    var u := b[x := col];
    if x == n {
      assert u[..n] == b[..n];
    } else {
      assert u[..n] == b[..n][x := col];
      UpdateCountColumns(b[..n], x, col, d);
    }
  }

  /** Setting one square changes the count of c by what left and what arrived. */
  lemma UpdateCount(b: Board, x: int, y: int, c: Cell, d: Cell)
    requires WellFormed(b) && OnBoard(x, y)
    ensures Count(Update(b, x, y, c), d)
         == Count(b, d) - (if b[x][y] == d then 1 else 0) + (if c == d then 1 else 0)
  {
    UpdateCountLine(b[x], y, c, d);
    UpdateCountColumns(b, x, b[x][y := c], d);
  }

  /** Setting one square changes the piece total only by its own occupancy. */
  lemma UpdatePieces(b: Board, x: int, y: int, c: Cell)
    requires WellFormed(b) && OnBoard(x, y)
    ensures Pieces(Update(b, x, y, c)) == Pieces(b) - Occupies(b[x][y]) + Occupies(c)
  {
    UpdateCount(b, x, y, c, Red);
    UpdateCount(b, x, y, c, Yellow);
  }

  lemma {:induction false} CountLineZero(line: seq<Cell>, c: Cell)
    ensures CountLine(line, c) == 0 <==> forall y | 0 <= y < |line| :: line[y] != c
  {
    if line != [] {
      var n := |line| - 1;
      CountLineZero(line[..n], c);
      assert forall y | 0 <= y < n :: line[..n][y] == line[y];
    }
  }

  lemma {:induction false} CountColumnsZero(b: Board, c: Cell)
    ensures Count(b, c) == 0
        <==> forall x, y | 0 <= x < |b| && 0 <= y < |b[x]| :: b[x][y] != c
  {
    if b != [] {
      var n := |b| - 1;
      CountColumnsZero(b[..n], c);
      CountLineZero(b[n], c);
      assert forall x | 0 <= x < n :: b[..n][x] == b[x];
    }
  }

  /** A colour with no pieces occupies no square. */
  lemma CountZero(b: Board, c: Cell)
    requires WellFormed(b)
    ensures Count(b, c) == 0 <==> forall x, y | OnBoard(x, y) :: b[x][y] != c
  {
    CountColumnsZero(b, c);
  }

  /** The starting layout: four red, four yellow, eight pieces in all. */
  lemma InitialCounts()
    ensures WellFormed(InitialBoard)
    ensures Count(InitialBoard, Red) == 4 && Count(InitialBoard, Yellow) == 4
    ensures Pieces(InitialBoard) == 8
  {
    var col := [Red, Empty, Empty, Yellow];
    assert col[..3] == [Red, Empty, Empty] && col[..3][..2] == [Red, Empty];
    assert col[..3][..2][..1] == [Red] && col[..3][..2][..1][..0] == [];
    assert CountLine([Red], Red) == 1 && CountLine([Red], Yellow) == 0;
    assert CountLine(col, Red) == 1 && CountLine(col, Yellow) == 1;
    var b := InitialBoard;
    assert b[..3] == [col, col, col] && b[..3][..2] == [col, col];
    assert b[..3][..2][..1] == [col] && b[..3][..2][..1][..0] == [];
    assert Count([col], Red) == 1 && Count([col], Yellow) == 1;
    assert Count([col, col], Red) == 2 && Count([col, col], Yellow) == 2;
    assert Count([col, col, col], Red) == 3 && Count([col, col, col], Yellow) == 3;
  }
}
