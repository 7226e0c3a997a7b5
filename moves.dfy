/** Move validation (`_check_move`) and move application (`_record_move`) as
    functions of the board value. */
module Moves {
  import opened Grid

  function Abs(d: int): nat {
    if d < 0 then -d else d
  }

  /** The direction of a displacement, -1, 0 or 1 (the source's `int(d / abs(d))`). */
  function Sign(d: int): int {
    if d > 0 then 1 else if d < 0 then -1 else 0
  }

  /** v is produced by Python's range(start, stop, step) for a step of 1 or -1. */
  predicate InRange(v: int, start: int, stop: int, step: int) {
    if step > 0 then start <= v < stop else stop < v <= start
  }

  /** Every value of range(start, stop, step) is a board coordinate. */
  predicate RangeOnBoard(start: int, stop: int, step: int) {
    if step > 0 then start >= stop || (0 <= start && stop <= 4)
    else start <= stop || (start <= 3 && -1 <= stop)
  }

  /** v lies strictly past a, up to and including c, on the way from a to c. */
  predicate Past(a: int, v: int, c: int) {
    a < v <= c || c <= v < a
  }

  /** The loop over x in range(start, stop, step) at a fixed y: true when it
      finds no occupied square. */
  function ClearAlongX(b: Board, y: int, start: int, stop: int, step: int): (r: bool)
    requires WellFormed(b) && 0 <= y <= 3
    requires step == 1 || step == -1
    requires RangeOnBoard(start, stop, step)
    ensures r <==> forall x | InRange(x, start, stop, step) :: b[x][y] == Empty
    decreases if step > 0 then stop - start else start - stop
  {
    if (step > 0 && start >= stop) || (step < 0 && start <= stop) then true
    else b[start][y] == Empty && ClearAlongX(b, y, start + step, stop, step)
  }

  /** The loop over y in range(start, stop, step) at a fixed x: true when it
      finds no occupied square. */
  function ClearAlongY(b: Board, x: int, start: int, stop: int, step: int): (r: bool)
    requires WellFormed(b) && 0 <= x <= 3
    requires step == 1 || step == -1
    requires RangeOnBoard(start, stop, step)
    ensures r <==> forall y | InRange(y, start, stop, step) :: b[x][y] == Empty
    decreases if step > 0 then stop - start else start - stop
  {
    if (step > 0 && start >= stop) || (step < 0 && start <= stop) then true
    else b[x][start] == Empty && ClearAlongY(b, x, start + step, stop, step)
  }

  /** The nested diagonal loops: x over range(xStart, xStop, xStep) outside,
      y over range(yStart, yStop, yStep) inside; true when no visited square is
      occupied. They visit a whole rectangle, not only the diagonal. */
  function ClearRectangle(b: Board, xStart: int, xStop: int, xStep: int,
                          yStart: int, yStop: int, yStep: int): (r: bool)
    requires WellFormed(b)
    requires xStep == 1 || xStep == -1
    requires yStep == 1 || yStep == -1
    requires RangeOnBoard(xStart, xStop, xStep) && RangeOnBoard(yStart, yStop, yStep)
    ensures r <==> forall x, y | InRange(x, xStart, xStop, xStep) && InRange(y, yStart, yStop, yStep)
                     :: b[x][y] == Empty
    decreases if xStep > 0 then xStop - xStart else xStart - xStop
  {
    if (xStep > 0 && xStart >= xStop) || (xStep < 0 && xStart <= xStop) then true
    else
      ClearAlongY(b, xStart, yStart, yStop, yStep) &&
      ClearRectangle(b, xStart + xStep, xStop, xStep, yStart, yStop, yStep)
  }

  /** The displacement is horizontal, vertical or has |dx| == |dy|. */
  predicate IsLine(dx: int, dy: int) {
    dx == 0 || dy == 0 || Abs(dx) == Abs(dy)
  }

  /** `_check_move`: may the piece at (x1, y1) move to (x2, y2)? The path loops
      run up to and including the destination, so an accepted destination is
      always empty; there is no rule that a slide must stop at an obstacle. */
  function CheckMove(b: Board, x1: int, y1: int, x2: int, y2: int): (r: bool)
    requires WellFormed(b) && OnBoard(x1, y1)
    ensures r ==> b[x1][y1] != Empty
    ensures r ==> OnBoard(x2, y2) && (x1 != x2 || y1 != y2)
    ensures r ==> IsLine(x2 - x1, y2 - y1)
    ensures r ==> b[x2][y2] == Empty
  {
    if b[x1][y1] == Empty then false
    else if x2 > 3 || x2 < 0 || y2 > 3 || y2 < 0 then false
    else if x1 == x2 && y1 == y2 then false
    else
      var dx, dy := x2 - x1, y2 - y1;
      var sx, sy := Sign(dx), Sign(dy);
      if dy == 0 then
        ClearAlongX(b, y1, x1 + sx, x2 + sx, sx)
      else if dx == 0 then
        ClearAlongY(b, x1, y1 + sy, y2 + sy, sy)
      else if Abs(dx) == Abs(dy) then
        assert InRange(x2, x1 + sx, x2 + sx, sx) && InRange(y2, y1 + sy, y2 + sy, sy);
        ClearRectangle(b, x1 + sx, x2 + sx, sx, y1 + sy, y2 + sy, sy)
      else
        false
  }

  /** The legality rule stated without loops: an occupied source, an on-board
      destination different from it, and a straight or |dx| == |dy| displacement
      whose squares past the source up to the destination are empty (for a
      diagonal, the whole rectangle of them). */
  ghost predicate Legal(b: Board, x1: int, y1: int, x2: int, y2: int)
    requires WellFormed(b) && OnBoard(x1, y1)
  {
    b[x1][y1] != Empty && OnBoard(x2, y2) && (x1 != x2 || y1 != y2) &&
    if y1 == y2 then
      forall x | Past(x1, x, x2) :: b[x][y1] == Empty
    else if x1 == x2 then
      forall y | Past(y1, y, y2) :: b[x1][y] == Empty
    else if Abs(x2 - x1) == Abs(y2 - y1) then
      forall x, y | Past(x1, x, x2) && Past(y1, y, y2) :: b[x][y] == Empty
    else
      false
  }

  lemma PastIsRange(a: int, c: int)
    requires a != c
    ensures forall v :: InRange(v, a + Sign(c - a), c + Sign(c - a), Sign(c - a)) <==> Past(a, v, c)
  {
  }

  /** `_check_move` accepts exactly the legal moves. */
  lemma CheckMoveIsLegal(b: Board, x1: int, y1: int, x2: int, y2: int)
    requires WellFormed(b) && OnBoard(x1, y1)
    ensures CheckMove(b, x1, y1, x2, y2) <==> Legal(b, x1, y1, x2, y2)
  {
    if b[x1][y1] != Empty && OnBoard(x2, y2) && (x1 != x2 || y1 != y2) {
      var sx, sy := Sign(x2 - x1), Sign(y2 - y1);
      if y1 == y2 {
        PastIsRange(x1, x2);
        assert ClearAlongX(b, y1, x1 + sx, x2 + sx, sx) <==> forall x | Past(x1, x, x2) :: b[x][y1] == Empty;
      } else if x1 == x2 {
        PastIsRange(y1, y2);
        assert ClearAlongY(b, x1, y1 + sy, y2 + sy, sy) <==> forall y | Past(y1, y, y2) :: b[x1][y] == Empty;
      } else if Abs(x2 - x1) == Abs(y2 - y1) {
        PastIsRange(x1, x2);
        PastIsRange(y1, y2);
        if forall x, y | Past(x1, x, x2) && Past(y1, y, y2) :: b[x][y] == Empty {
          forall x, y | InRange(x, x1 + sx, x2 + sx, sx) && InRange(y, y1 + sy, y2 + sy, sy)
            ensures b[x][y] == Empty
          {
            assert Past(x1, x, x2) && Past(y1, y, y2);
          }
        }
        assert ClearRectangle(b, x1 + sx, x2 + sx, sx, y1 + sy, y2 + sy, sy)
           <==> forall x, y | Past(x1, x, x2) && Past(y1, y, y2) :: b[x][y] == Empty;
      }
    }
  }

  /** Two squares are orthogonal neighbours. */
  predicate Adjacent(x: int, y: int, x2: int, y2: int) {
    (x == x2 && (y == y2 - 1 || y == y2 + 1)) || (y == y2 && (x == x2 - 1 || x == x2 + 1))
  }

  /** One infection step: an on-board square that is not empty takes colour
      piece; an empty or off-board square leaves the board as it was. */
  function Infect(b: Board, x: int, y: int, piece: Cell): (r: Board)
    requires WellFormed(b)
    ensures WellFormed(r)
  {
    if OnBoard(x, y) && b[x][y] != Empty then Update(b, x, y, piece) else b
  }

  /** After one infection step, only square (x, y), if it was occupied, has
      changed, and it holds piece. */
  lemma InfectSquare(b: Board, x: int, y: int, piece: Cell, i: int, j: int)
    requires WellFormed(b) && OnBoard(i, j)
    ensures Infect(b, x, y, piece)[i][j] == if i == x && j == y && b[i][j] != Empty then piece else b[i][j]
  {
  }

  lemma InfectPieces(b: Board, x: int, y: int, piece: Cell)
    requires WellFormed(b) && piece != Empty
    ensures Pieces(Infect(b, x, y, piece)) == Pieces(b)
  {
    if OnBoard(x, y) && b[x][y] != Empty {
      UpdatePieces(b, x, y, piece);
    }
  }

  /** The board after placing the piece and clearing the source, before any
      infection. */
  function Relocated(b: Board, x1: int, y1: int, x2: int, y2: int): (r: Board)
    requires WellFormed(b) && OnBoard(x1, y1) && OnBoard(x2, y2)
    ensures WellFormed(r)
  {
    Update(Update(b, x2, y2, b[x1][y1]), x1, y1, Empty)
  }

  /** `_record_move` on the board value: the piece is placed at the destination,
      the source is cleared, then each on-board orthogonal neighbour of the
      destination (left, right, below, above, in that order) that is not empty
      takes the moving piece's colour. */
  function AfterMove(b: Board, x1: int, y1: int, x2: int, y2: int): (r: Board)
    requires WellFormed(b) && OnBoard(x1, y1) && OnBoard(x2, y2)
    ensures WellFormed(r)
    ensures (x1 != x2 || y1 != y2) ==> r[x2][y2] == b[x1][y1] && r[x1][y1] == Empty
  {
    var piece := b[x1][y1];
    var b1 := Relocated(b, x1, y1, x2, y2);
    var b2 := Infect(b1, x2 - 1, y2, piece);
    var b3 := Infect(b2, x2 + 1, y2, piece);
    var b4 := Infect(b3, x2, y2 - 1, piece);
    InfectSquare(b1, x2 - 1, y2, piece, x2, y2); InfectSquare(b1, x2 - 1, y2, piece, x1, y1);
    InfectSquare(b2, x2 + 1, y2, piece, x2, y2); InfectSquare(b2, x2 + 1, y2, piece, x1, y1);
    InfectSquare(b3, x2, y2 - 1, piece, x2, y2); InfectSquare(b3, x2, y2 - 1, piece, x1, y1);
    InfectSquare(b4, x2, y2 + 1, piece, x2, y2); InfectSquare(b4, x2, y2 + 1, piece, x1, y1);
    Infect(b4, x2, y2 + 1, piece)
  }

  /** Square by square after a move: the destination holds the mover's colour,
      the source is empty, every other orthogonal neighbour of the destination
      that was occupied now holds the mover's colour, and every other square,
      diagonal neighbours included, is unchanged. */
  lemma AfterMoveSquares(b: Board, x1: int, y1: int, x2: int, y2: int, x: int, y: int)
    requires WellFormed(b) && OnBoard(x1, y1) && OnBoard(x2, y2) && OnBoard(x, y)
    requires x1 != x2 || y1 != y2
    ensures AfterMove(b, x1, y1, x2, y2)[x][y]
         == if x == x2 && y == y2 then b[x1][y1]
            else if x == x1 && y == y1 then Empty
            else if Adjacent(x, y, x2, y2) && b[x][y] != Empty then b[x1][y1]
            else b[x][y]
  {
    var piece := b[x1][y1];
    var b1 := Relocated(b, x1, y1, x2, y2);
    assert b1[x][y] == if x == x1 && y == y1 then Empty else if x == x2 && y == y2 then piece else b[x][y];
    var b2 := Infect(b1, x2 - 1, y2, piece);
    InfectSquare(b1, x2 - 1, y2, piece, x, y);
    var b3 := Infect(b2, x2 + 1, y2, piece);
    InfectSquare(b2, x2 + 1, y2, piece, x, y);
    var b4 := Infect(b3, x2, y2 - 1, piece);
    InfectSquare(b3, x2, y2 - 1, piece, x, y);
    InfectSquare(b4, x2, y2 + 1, piece, x, y);
  }

  /** A legal move neither creates nor destroys pieces: the destination was
      empty and the infection only recolours occupied squares. */
  lemma MovePreservesPieces(b: Board, x1: int, y1: int, x2: int, y2: int)
    requires WellFormed(b) && OnBoard(x1, y1)
    requires CheckMove(b, x1, y1, x2, y2)
    ensures Pieces(AfterMove(b, x1, y1, x2, y2)) == Pieces(b)
  {
    var piece := b[x1][y1];
    var b0 := Update(b, x2, y2, piece);
    UpdatePieces(b, x2, y2, piece);
    UpdatePieces(b0, x1, y1, Empty);
    var b1 := Relocated(b, x1, y1, x2, y2);
    assert Pieces(b1) == Pieces(b);
    var b2 := Infect(b1, x2 - 1, y2, piece);
    InfectPieces(b1, x2 - 1, y2, piece);
    var b3 := Infect(b2, x2 + 1, y2, piece);
    InfectPieces(b2, x2 + 1, y2, piece);
    var b4 := Infect(b3, x2, y2 - 1, piece);
    InfectPieces(b3, x2, y2 - 1, piece);
    InfectPieces(b4, x2, y2 + 1, piece);
  }
}
