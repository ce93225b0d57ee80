// The Tic-Tac-Toe window's game logic: moves on the nine buttons, the win and
// draw handling, the winning-line highlight, and the two reset buttons.

module TicTacToeGame {
  import opened TicTacToeBoard

  /** What a click leads to: nothing (the cell is taken), the next turn, a
      win announced for `winner`, or a draw announced. */
  datatype Outcome = Occupied | NextTurn | Win(winner: Cell) | Draw

  class TicTacToe {
    /** The texts of the nine buttons. */
    const board: array<Cell>
    /** Which buttons have the winning-line background. */
    const highlighted: array<bool>
    var xTurn: bool
    var moves: int
    var xWins: nat
    var oWins: nat

    /** Between clicks: `moves` counts the marks, X has moved as often as O or
        once more depending on whose turn it is, no line is complete (a win or a
        full board resets at once) and nothing is highlighted. */
    ghost predicate Valid()
      reads this, board, highlighted
    {
      && board.Length == 9 && highlighted.Length == 9
      && moves == CountOf(board[..], X) + CountOf(board[..], O)
      && TurnBalance(board[..], xTurn)
      && moves < 9
      && !CheckWin(board[..])
      && forall j :: 0 <= j < 9 ==> !highlighted[j]
    }

    /** A cleared board, X to move, no marks counted. */
    ghost predicate Cleared()
      reads this, board
    {
      board[..] == EmptyBoard && moves == 0 && xTurn
    }

    constructor ()
      ensures Valid() && Cleared()
      ensures xWins == 0 && oWins == 0
      ensures fresh(board) && fresh(highlighted)
    {
      board := new Cell[9](_ => Empty);
      highlighted := new bool[9](_ => false);
      xTurn := true;
      moves := 0;
      xWins, oWins := 0, 0;
      new;
      assert board[..] == EmptyBoard;
      EmptyBoardFacts();
    }

    /** `resetGame`: clears every button, X moves next; the tallies stay. */
    method ResetGame()
      requires board.Length == 9 && highlighted.Length == 9
      modifies this, board, highlighted
      ensures Valid() && Cleared()
      ensures xWins == old(xWins) && oWins == old(oWins)
    {
      moves := 0;
      xTurn := true;
      var i := 0;
      while i < 9
        invariant 0 <= i <= 9
        invariant forall j :: 0 <= j < i ==> board[j] == Empty && !highlighted[j]
        invariant xWins == old(xWins) && oWins == old(oWins) && moves == 0 && xTurn
      {
        board[i] := Empty;
        highlighted[i] := false;
        i := i + 1;
      }
      assert board[..] == EmptyBoard;
      EmptyBoardFacts();
    }

    /** The "New Game" button: both tallies back to zero, then a reset. */
    method NewGame()
      requires board.Length == 9 && highlighted.Length == 9
      modifies this, board, highlighted
      ensures Valid() && Cleared()
      ensures xWins == 0 && oWins == 0
    {
      xWins, oWins := 0, 0;
      ResetGame();
    }

    /** `highlightWinningLine`: gives the three cells of the first complete
        line, in scan order, the winning background. */
    method HighlightWinningLine()
      requires board.Length == 9 && highlighted.Length == 9
      modifies highlighted
      ensures var k := FirstWinningLine(board[..], 0);
        forall j :: 0 <= j < 9 ==>
          highlighted[j] == (old(highlighted[j]) ||
            (k < |Lines| && (j == Lines[k].a || j == Lines[k].b || j == Lines[k].c)))
    {
      var i := 0;
      while i < |Lines|
        invariant 0 <= i <= |Lines|
        invariant forall j :: 0 <= j < i ==> !Holds(board[..], Lines[j])
        invariant highlighted[..] == old(highlighted[..])
      {
        var line := Lines[i];
        var a, b, c := board[line.a], board[line.b], board[line.c];
        if a != Empty && a == b && a == c {
          assert Holds(board[..], line);
          assert FirstWinningLine(board[..], 0) == i;
          highlighted[line.a] := true;
          highlighted[line.b] := true;
          highlighted[line.c] := true;
          return;
        }
        i := i + 1;
      }
    }

    /** Writes the mover's mark into an empty cell and counts the move. */
    method Place(cell: Index)
      requires board.Length == 9 && board[cell] == Empty
      modifies board, this`moves
      ensures board[..] == old(board[..])[cell := if xTurn then X else O]
      ensures moves == old(moves) + 1
    {
      if xTurn {
        board[cell] := X;
      } else {
        board[cell] := O;
      }
      moves := moves + 1;
    }

    /** The click handler (`actionPerformed`) for the button `cell`. */
    method Move(cell: Index) returns (outcome: Outcome)
      requires Valid()
      modifies this, board, highlighted
      ensures old(board[cell]) != Empty ==>
        && outcome == Occupied
        && board[..] == old(board[..]) && xTurn == old(xTurn) && moves == old(moves)
        && xWins == old(xWins) && oWins == old(oWins)
      ensures old(board[cell]) == Empty ==>
        var mark := if old(xTurn) then X else O;
        var placed := old(board[..])[cell := mark];
        if CheckWin(placed) then
          && outcome == Win(mark) && Cleared()
          && xWins == old(xWins) + (if old(xTurn) then 1 else 0)
          && oWins == old(oWins) + (if old(xTurn) then 0 else 1)
        else if old(moves) + 1 == 9 then
          && outcome == Draw && Cleared()
          && xWins == old(xWins) && oWins == old(oWins)
        else
          && outcome == NextTurn
          && board[..] == placed && moves == old(moves) + 1 && xTurn == !old(xTurn)
          && xWins == old(xWins) && oWins == old(oWins)
      ensures Valid()
    {
      if board[cell] != Empty {
        return Occupied;
      }
      var mark := if xTurn then X else O;
      ghost var before := board[..];
      Place(cell);
      if CheckWin(board[..]) {
        if xTurn {
          xWins := xWins + 1;
        } else {
          oWins := oWins + 1;
        }
        HighlightWinningLine();
        outcome := Win(mark);
        ResetGame();
      } else if moves == 9 {
        outcome := Draw;
        ResetGame();
      } else {
        PlaceMark(before, cell, xTurn);
        xTurn := !xTurn;
        outcome := NextTurn;
      }
    }
  }
}
