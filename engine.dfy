/** The `OrthokonBoard` class: the board and the status as fields that its
    methods update in place. */
module Engine {
  import opened Grid
  import opened Moves
  import opened Evaluation

  class OrthokonBoard {
    /** board[x][y], a nested list in the source. */
    var board: Board
    var state: Status

    ghost predicate Valid()
      reads this
    {
      WellFormed(board)
    }

    /** A new game: red along y = 0, yellow along y = 3, status unfinished. */
    constructor ()
      ensures Valid() && state == Unfinished
      ensures forall x | 0 <= x <= 3 :: board[x] == [Red, Empty, Empty, Yellow]
      ensures Pieces(board) == 8
    {
      board := InitialBoard;
      state := Unfinished;
      InitialCounts();
    }

    /** `get_current_state`. */
    function CurrentState(): Status
      reads this
    {
      state
    }

    /** `_set_current_state`. */
    method SetCurrentState(s: Status)
      modifies this
      ensures state == s && board == old(board)
    {
      state := s;
    }

    /** `get_board`. */
    function GetBoard(x: int, y: int): Cell
      reads this
      requires Valid() && OnBoard(x, y)
    {
      board[x][y]
    }

    /** `_set_board`: square (x, y) takes c, nothing else changes. */
    method SetBoard(x: int, y: int, c: Cell)
      requires Valid() && OnBoard(x, y)
      modifies this
      ensures Valid() && state == old(state)
      ensures board == Update(old(board), x, y, c)
    {
      board := Update(board, x, y, c);
    }

    /** `make_move`: an illegal move returns false and changes nothing; a legal
        one is recorded, the status re-evaluated, and true returned (the source
        returns None). There is no check that the game is already over. */
    method MakeMove(x1: int, y1: int, x2: int, y2: int) returns (ok: bool)
      requires Valid() && OnBoard(x1, y1)
      modifies this
      ensures Valid()
      ensures ok <==> CheckMove(old(board), x1, y1, x2, y2)
      ensures !ok ==> board == old(board) && state == old(state)
      ensures ok ==> OnBoard(x2, y2) && board == AfterMove(old(board), x1, y1, x2, y2)
      ensures ok ==> state == Evaluate(board, old(state))
      ensures Pieces(board) == old(Pieces(board))
    {
      if !CheckMove(board, x1, y1, x2, y2) {
        return false;
      }
      MovePreservesPieces(board, x1, y1, x2, y2);
      RecordMove(x1, y1, x2, y2);
      UpdateCurrentState();
      ok := true;
    }

    /** `_record_move`. */
    method RecordMove(x1: int, y1: int, x2: int, y2: int)
      requires Valid() && OnBoard(x1, y1) && OnBoard(x2, y2)
      modifies this
      ensures Valid() && state == old(state)
      ensures board == AfterMove(old(board), x1, y1, x2, y2)
    {
      var pieceMoving := GetBoard(x1, y1);
      SetBoard(x2, y2, pieceMoving);
      SetBoard(x1, y1, Empty);
      assert board == Relocated(old(board), x1, y1, x2, y2);
      ghost var b1 := board;
      if x2 - 1 >= 0 {
        if GetBoard(x2 - 1, y2) != Empty {
          SetBoard(x2 - 1, y2, pieceMoving);
        }
      }
      assert board == Infect(b1, x2 - 1, y2, pieceMoving);
      ghost var b2 := board;
      if x2 + 1 <= 3 {
        if GetBoard(x2 + 1, y2) != Empty {
          SetBoard(x2 + 1, y2, pieceMoving);
        }
      }
      assert board == Infect(b2, x2 + 1, y2, pieceMoving);
      ghost var b3 := board;
      if y2 - 1 >= 0 {
        if GetBoard(x2, y2 - 1) != Empty {
          SetBoard(x2, y2 - 1, pieceMoving);
        }
      }
      assert board == Infect(b3, x2, y2 - 1, pieceMoving);
      ghost var b4 := board;
      if y2 + 1 <= 3 {
        if GetBoard(x2, y2 + 1) != Empty {
          SetBoard(x2, y2 + 1, pieceMoving);
        }
      }
      assert board == Infect(b4, x2, y2 + 1, pieceMoving);
    }

    /** `_update_current_state`: count the pieces of each colour, declare an
        eight-to-none win, then let `_moves_possible` have the last word. */
    method UpdateCurrentState()
      requires Valid()
      modifies this
      ensures Valid() && board == old(board)
      ensures state == Evaluate(board, old(state))
    {
      var red := 0;
      var yellow := 0;
      for x := 0 to 4
        invariant red == Count(board[..x], Red)
        invariant yellow == Count(board[..x], Yellow)
      {
        for y := 0 to 4
          invariant red == Count(board[..x], Red) + CountLine(board[x][..y], Red)
          invariant yellow == Count(board[..x], Yellow) + CountLine(board[x][..y], Yellow)
        {
          assert board[x][..y + 1][..y] == board[x][..y];
          if GetBoard(x, y) == Red {
            red := red + 1;
          } else if GetBoard(x, y) == Yellow {
            yellow := yellow + 1;
          }
        }
        assert board[..x + 1][..x] == board[..x];
        assert board[x][..4] == board[x];
      }
      assert board[..4] == board;
      if red == 8 && yellow == 0 {
        SetCurrentState(RedWon);
      }
      if yellow == 8 && red == 0 {
        SetCurrentState(YellowWon);
      }
      MovesPossible();
    }

    /** `_moves_possible`: scan every occupied square, try its seven probes,
        and declare a win for the other side when a colour passed none of them
        (the yellow check last). */
    method MovesPossible()
      requires Valid()
      modifies this
      ensures Valid() && board == old(board)
      ensures state == if !HasMove(board, Yellow) then RedWon
                       else if !HasMove(board, Red) then YellowWon
                       else old(state)
    {
      var redHasMoves := false;
      var yellowHasMoves := false;
      for x := 0 to 4
        invariant redHasMoves == MovableInColumns(board, Red, x)
        invariant yellowHasMoves == MovableInColumns(board, Yellow, x)
      {
        for y := 0 to 4
          invariant redHasMoves == (MovableInColumns(board, Red, x) || MovableInColumn(board, Red, x, y))
          invariant yellowHasMoves == (MovableInColumns(board, Yellow, x) || MovableInColumn(board, Yellow, x, y))
        {
          if GetBoard(x, y) != Empty {
            var player := GetBoard(x, y);
            if CheckMove(board, x, y, x, y + 1) {
              if player == Red { redHasMoves := true; }
              if player == Yellow { yellowHasMoves := true; }
            }
            if CheckMove(board, x, y, x + 1, y + 1) {
              if player == Red { redHasMoves := true; }
              if player == Yellow { yellowHasMoves := true; }
            }
            if CheckMove(board, x, y, x + 1, y + 1) {
              if player == Red { redHasMoves := true; }
              if player == Yellow { yellowHasMoves := true; }
            }
            if CheckMove(board, x, y, x + 1, y - 1) {
              if player == Red { redHasMoves := true; }
              if player == Yellow { yellowHasMoves := true; }
            }
            if CheckMove(board, x, y, x, y - 1) {
              if player == Red { redHasMoves := true; }
              if player == Yellow { yellowHasMoves := true; }
            }
            if CheckMove(board, x, y, x - 1, y - 1) {
              if player == Red { redHasMoves := true; }
              if player == Yellow { yellowHasMoves := true; }
            }
            if CheckMove(board, x, y, x - 1, y) {
              if player == Red { redHasMoves := true; }
              if player == Yellow { yellowHasMoves := true; }
            }
            if CheckMove(board, x, y, x - 1, y + 1) {
              if player == Red { redHasMoves := true; }
              if player == Yellow { yellowHasMoves := true; }
            }
          }
        }
      }
      if !redHasMoves {
        SetCurrentState(YellowWon);
      }
      if !yellowHasMoves {
        SetCurrentState(RedWon);
      }
    }
  }

  /** The script at the end of the source file: on a new game, moving from the
      empty square (1, 1) is refused and the game stays unfinished. */
  method ScriptScenario() returns (ok: bool, s: Status)
    ensures !ok && s == Unfinished
  {
    var game := new OrthokonBoard();
    ok := game.MakeMove(1, 1, 1, 2);
    s := game.CurrentState();
  }

  /** `make_move` does not look at the status: after a win has been recorded,
      a legal move is still accepted. */
  method MoveAfterGameOver() returns (ok: bool)
    ensures ok
  {
    var game := new OrthokonBoard();
    game.SetCurrentState(RedWon);
    ok := game.MakeMove(0, 0, 0, 1);
  }
}
