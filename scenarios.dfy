/** Concrete boards that show how the rules behave as written. */
module Scenarios {
  import opened Grid
  import opened Moves
  import opened Evaluation

  /** A piece may stop in open space: from the starting layout the red piece at
      (0, 0) may step to (0, 1) although (0, 2) beyond it is empty too. */
  lemma SlideMayStopInOpenSpace()
    ensures CheckMove(InitialBoard, 0, 0, 0, 1) && InitialBoard[0][2] == Empty
  {
  }

  /** A piece cannot land on an enemy piece: the yellow square ahead blocks the
      move, because the path loop includes the destination. */
  lemma OccupiedDestinationRefused()
    ensures InitialBoard[0][3] == Yellow && !CheckMove(InitialBoard, 0, 0, 0, 3)
  {
  }

  /** The diagonal check covers a rectangle: with a piece at (1, 2), the move
      (0, 0) to (2, 2) is refused although the diagonal squares (1, 1) and
      (2, 2) are empty. */
  lemma DiagonalBlockedOffTheDiagonal()
    ensures WellFormed(Update(InitialBoard, 1, 2, Red))
    ensures Update(InitialBoard, 1, 2, Red)[1][1] == Empty
    ensures Update(InitialBoard, 1, 2, Red)[2][2] == Empty
    ensures !CheckMove(Update(InitialBoard, 1, 2, Red), 0, 0, 2, 2)
  {
  }

  /** A board where red's only piece, at (0, 0), can move only horizontally
      towards larger x: to (1, 0), (2, 0) or (3, 0). */
  const RightOnly: Board :=
    [[Red, Yellow, Empty, Empty], [Empty, Yellow, Empty, Empty],
     [Empty, Empty, Empty, Empty], [Empty, Empty, Empty, Empty]]

  /** The step to (x + 1, y) is never probed: red has legal moves on RightOnly,
      all of them horizontal towards larger x, yet the evaluator finds none and
      declares yellow the winner. */
  lemma UnprobedRightStep()
    ensures WellFormed(RightOnly) && RightOnly[0][0] == Red
    ensures CheckMove(RightOnly, 0, 0, 1, 0)
    ensures forall x2, y2 :: CheckMove(RightOnly, 0, 0, x2, y2) ==> y2 == 0 && x2 > 0
    ensures !HasMove(RightOnly, Red) && HasMove(RightOnly, Yellow)
    ensures Evaluate(RightOnly, Unfinished) == YellowWon
  {
  }

  /** The starting layout is a game in progress: both sides can move. */
  lemma InitialInProgress()
    ensures HasMove(InitialBoard, Red) && HasMove(InitialBoard, Yellow)
    ensures Evaluate(InitialBoard, Unfinished) == Unfinished
  {
    InitialCounts();
    assert CanMoveFrom(InitialBoard, 0, 0) by {
      assert CheckMove(InitialBoard, 0, 0, 0, 1);
    }
    assert CanMoveFrom(InitialBoard, 0, 3) by {
      assert CheckMove(InitialBoard, 0, 3, 0, 2);
    }
    EvaluateOutcome(InitialBoard, Unfinished);
  }
}
