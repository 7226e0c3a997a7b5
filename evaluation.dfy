/** The status evaluator (`_update_current_state` and `_moves_possible`) as
    functions of the board value. */
module Evaluation {
  import opened Grid
  import opened Moves

  /** The probes `_moves_possible` makes from (x, y), in its order: every one a
      distance-1 destination. (x + 1, y + 1) is probed twice and (x + 1, y) never. */
  predicate CanMoveFrom(b: Board, x: int, y: int)
    requires WellFormed(b) && OnBoard(x, y)
    ensures CanMoveFrom(b, x, y) ==> b[x][y] != Empty
  {
    CheckMove(b, x, y, x, y + 1) || CheckMove(b, x, y, x + 1, y + 1) ||
    CheckMove(b, x, y, x + 1, y + 1) || CheckMove(b, x, y, x + 1, y - 1) ||
    CheckMove(b, x, y, x, y - 1) || CheckMove(b, x, y, x - 1, y - 1) ||
    CheckMove(b, x, y, x - 1, y) || CheckMove(b, x, y, x - 1, y + 1)
  }

  /** The seven distinct offsets that `_moves_possible` probes. */
  const ProbedOffsets: set<(int, int)> := {(0, 1), (1, 1), (1, -1), (0, -1), (-1, -1), (-1, 0), (-1, 1)}

  /** Seven distinct offsets; the step to the right, (1, 0), is not among them. */
  lemma ProbedOffsetsAreSeven()
    ensures |ProbedOffsets| == 7 && (1, 0) !in ProbedOffsets
  {
  }

  /** The probes of `_moves_possible` try exactly the destinations
      (x + dx, y + dy) for (dx, dy) in ProbedOffsets. */
  lemma ProbesAreOffsets(b: Board, x: int, y: int)
    requires WellFormed(b) && OnBoard(x, y)
    ensures CanMoveFrom(b, x, y)
        <==> exists d | d in ProbedOffsets :: CheckMove(b, x, y, x + d.0, y + d.1)
  {
  }

  /** The probes miss exactly the horizontal moves towards larger x: a piece
      with any other legal move passes a probe. */
  lemma OtherMovesAreFound(b: Board, x1: int, y1: int, x2: int, y2: int)
    requires WellFormed(b) && OnBoard(x1, y1)
    requires CheckMove(b, x1, y1, x2, y2) && !(y2 == y1 && x2 > x1)
    ensures CanMoveFrom(b, x1, y1)
  {
  }

  /** The inner loop of `_moves_possible` over y in 0 .. m - 1 at column x: does
      a piece of colour p there pass one of its probes? */
  function MovableInColumn(b: Board, p: Cell, x: int, m: int): (r: bool)
    requires WellFormed(b) && 0 <= x <= 3 && 0 <= m <= 4
    ensures r <==> exists y | 0 <= y < m :: b[x][y] == p && CanMoveFrom(b, x, y)
  {
    if m == 0 then false
    else MovableInColumn(b, p, x, m - 1) || (b[x][m - 1] == p && CanMoveFrom(b, x, m - 1))
  }

  /** The outer loop of `_moves_possible` over x in 0 .. n - 1. */
  function MovableInColumns(b: Board, p: Cell, n: int): (r: bool)
    requires WellFormed(b) && 0 <= n <= 4
    ensures r <==> exists x, y | 0 <= x < n && 0 <= y <= 3 :: b[x][y] == p && CanMoveFrom(b, x, y)
  {
    if n == 0 then false
    else MovableInColumns(b, p, n - 1) || MovableInColumn(b, p, n - 1, 4)
  }

  /** Colour p has a piece that passes one of the probes of `_moves_possible`. */
  function HasMove(b: Board, p: Cell): (r: bool)
    requires WellFormed(b)
    ensures r <==> exists x, y | OnBoard(x, y) :: b[x][y] == p && CanMoveFrom(b, x, y)
  {
    MovableInColumns(b, p, 4)
  }

  /** A colour with no pieces on the board cannot move. */
  lemma NoPiecesNoMove(b: Board, p: Cell)
    requires WellFormed(b)
    ensures Count(b, p) == 0 ==> !HasMove(b, p)
  {
    CountZero(b, p);
  }

  /** The status `_update_current_state` leaves, from the board and the status
      before it: the piece-count wins first, then red's and yellow's move checks,
      each able to overwrite what came before. */
  function Evaluate(b: Board, s: Status): (r: Status)
    requires WellFormed(b)
    ensures r == Unfinished ==> s == Unfinished && HasMove(b, Red) && HasMove(b, Yellow)
    ensures r == RedWon ==> s == RedWon || !HasMove(b, Yellow)
  {
    NoPiecesNoMove(b, Yellow);
    var red, yellow := Count(b, Red), Count(b, Yellow);
    var s1 := if red == 8 && yellow == 0 then RedWon else s;
    var s2 := if yellow == 8 && red == 0 then YellowWon else s1;
    var s3 := if !HasMove(b, Red) then YellowWon else s2;
    if !HasMove(b, Yellow) then RedWon else s3
  }

  /** The outcome of an evaluation: yellow unable to move means red won (also
      when red cannot move either); otherwise red unable to move means yellow
      won; when both can move the status is left as it was, so an earlier win
      is never reset to unfinished. */
  lemma EvaluateOutcome(b: Board, s: Status)
    requires WellFormed(b)
    ensures !HasMove(b, Yellow) ==> Evaluate(b, s) == RedWon
    ensures HasMove(b, Yellow) && !HasMove(b, Red) ==> Evaluate(b, s) == YellowWon
    ensures HasMove(b, Yellow) && HasMove(b, Red) ==> Evaluate(b, s) == s
    ensures s != Unfinished ==> Evaluate(b, s) != Unfinished
  {
    if HasMove(b, Yellow) && HasMove(b, Red) {
      if Count(b, Yellow) == 0 { NoPiecesNoMove(b, Yellow); }
      if Count(b, Red) == 0 { NoPiecesNoMove(b, Red); }
    }
  }

  /** All eight pieces red and none yellow: red has won. */
  lemma RedEliminationWins(b: Board, s: Status)
    requires WellFormed(b) && Count(b, Red) == 8 && Count(b, Yellow) == 0
    ensures Evaluate(b, s) == RedWon
  {
    NoPiecesNoMove(b, Yellow);
  }

  /** All eight pieces yellow and none red: yellow has won, unless no yellow
      piece can move, in which case the later yellow check makes it red's win. */
  lemma YellowEliminationWins(b: Board, s: Status)
    requires WellFormed(b) && Count(b, Yellow) == 8 && Count(b, Red) == 0
    ensures Evaluate(b, s) == if HasMove(b, Yellow) then YellowWon else RedWon
  {
  }

  /** Both directions: red has won exactly when yellow cannot move, or both can
      and red had won before; yellow has won exactly when yellow can move and
      red cannot, or both can and yellow had won before. */
  lemma EvaluateWon(b: Board, s: Status)
    requires WellFormed(b)
    ensures Evaluate(b, s) == RedWon
        <==> !HasMove(b, Yellow) || (HasMove(b, Red) && s == RedWon)
    ensures Evaluate(b, s) == YellowWon
        <==> HasMove(b, Yellow) && (!HasMove(b, Red) || s == YellowWon)
  {
    EvaluateOutcome(b, s);
  }
}
