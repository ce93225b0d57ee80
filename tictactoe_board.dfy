// The Tic-Tac-Toe board as the nine button texts hold it: cells, the eight
// winning lines, the win check and mark counting.

module TicTacToeBoard {

  /** The text of one button: "", "X" or "O". */
  datatype Cell = Empty | X | O

  /** Cells are numbered 0..8 in row-major order. */
  type Index = i: int | 0 <= i < 9

  datatype Line = Line(a: Index, b: Index, c: Index)

  /** The eight lines in the order the program scans them: rows, columns,
      then the two diagonals. */
  const Lines: seq<Line> := [
    Line(0, 1, 2), Line(3, 4, 5), Line(6, 7, 8),
    Line(0, 3, 6), Line(1, 4, 7), Line(2, 5, 8),
    Line(0, 4, 8), Line(2, 4, 6)]

  const EmptyBoard: seq<Cell> := seq(9, _ => Empty)

  /** A cleared board holds no mark and no line. */
  lemma EmptyBoardFacts()
    ensures CountOf(EmptyBoard, X) == 0 && CountOf(EmptyBoard, O) == 0
    ensures !CheckWin(EmptyBoard)
  {
    CountOfZero(EmptyBoard, X);
    CountOfZero(EmptyBoard, O);
  }

  /** The three cells of `l` hold the same non-empty mark. */
  predicate Holds(b: seq<Cell>, l: Line)
    requires |b| == 9
  {
    b[l.a] != Empty && b[l.a] == b[l.b] && b[l.a] == b[l.c]
  }

  /** Index of the first line, at or after `from`, that holds; |Lines| if none. */
  function FirstWinningLine(b: seq<Cell>, from: nat): (k: nat)
    requires |b| == 9 && from <= |Lines|
    ensures from <= k <= |Lines|
    ensures k < |Lines| ==> Holds(b, Lines[k])
    ensures forall j :: from <= j < k ==> !Holds(b, Lines[j])
    decreases |Lines| - from
  {
    if from == |Lines| then |Lines|
    else if Holds(b, Lines[from]) then from
    else FirstWinningLine(b, from + 1)
  }

  /** `checkWin`: scans the lines and reports whether one holds. */
  function CheckWin(b: seq<Cell>): (won: bool)
    requires |b| == 9
    ensures won <==> exists j :: 0 <= j < |Lines| && Holds(b, Lines[j])
  {
    FirstWinningLine(b, 0) < |Lines|
  }

  /** Cells i, j and k hold the same non-empty mark. */
  predicate Three(b: seq<Cell>, i: Index, j: Index, k: Index)
    requires |b| == 9
  {
    b[i] != Empty && b[i] == b[j] && b[j] == b[k]
  }

  /** The win check against the eight lines written out cell by cell. */
  lemma CheckWinByCells(b: seq<Cell>)
    requires |b| == 9
    ensures CheckWin(b) <==>
      Three(b, 0, 1, 2) || Three(b, 3, 4, 5) || Three(b, 6, 7, 8) ||
      Three(b, 0, 3, 6) || Three(b, 1, 4, 7) || Three(b, 2, 5, 8) ||
      Three(b, 0, 4, 8) || Three(b, 2, 4, 6)
  {
    if CheckWin(b) {
      var j :| 0 <= j < |Lines| && Holds(b, Lines[j]);
      assert j in {0, 1, 2, 3, 4, 5, 6, 7};
    } else {
      assert !Holds(b, Lines[0]) && !Holds(b, Lines[1]) && !Holds(b, Lines[2]) && !Holds(b, Lines[3]);
      assert !Holds(b, Lines[4]) && !Holds(b, Lines[5]) && !Holds(b, Lines[6]) && !Holds(b, Lines[7]);
    }
  }

  /** Putting `m` into an empty cell of a board without a winning line can
      only complete lines through that cell, all of them marked `m`. */
  lemma NewLineIsMovers(b: seq<Cell>, i: Index, m: Cell)
    requires |b| == 9 && b[i] == Empty && m != Empty && !CheckWin(b)
    ensures forall j :: 0 <= j < |Lines| && Holds(b[i := m], Lines[j]) ==>
      (i == Lines[j].a || i == Lines[j].b || i == Lines[j].c) && b[i := m][Lines[j].a] == m
  {
    forall j | 0 <= j < |Lines| && Holds(b[i := m], Lines[j])
      ensures (i == Lines[j].a || i == Lines[j].b || i == Lines[j].c) && b[i := m][Lines[j].a] == m
    {
      var l := Lines[j];
      if i != l.a && i != l.b && i != l.c {
        assert false;
      }
    }
  }

  // ---------------------------------------------------------------------------
  // Counting marks

  function CountOf(b: seq<Cell>, c: Cell): (n: nat)
    ensures n <= |b|
  {
    if b == [] then 0 else (if b[0] == c then 1 else 0) + CountOf(b[1..], c)
  }

  /** Writing `v` over cell i moves one count from the old mark to `v`. */
  lemma {:induction false} CountOfUpdate(b: seq<Cell>, i: nat, v: Cell, c: Cell)
    requires i < |b|
    ensures CountOf(b[i := v], c) ==
      CountOf(b, c) - (if b[i] == c then 1 else 0) + (if v == c then 1 else 0)
    decreases |b|
  {
    if i == 0 {
      assert b[i := v][1..] == b[1..];
    } else {
      CountOfUpdate(b[1..], i - 1, v, c);
      assert b[i := v][1..] == b[1..][i - 1 := v];
    }
  }

  /** Every cell is Empty, X or O. */
  lemma {:induction false} CountsPartition(b: seq<Cell>)
    ensures CountOf(b, Empty) + CountOf(b, X) + CountOf(b, O) == |b|
  {
    if b != [] {
      CountsPartition(b[1..]);
    }
  }

  /** No cell holds `c` exactly when `c` is counted zero times. */
  lemma {:induction false} CountOfZero(b: seq<Cell>, c: Cell)
    ensures CountOf(b, c) == 0 <==> forall j :: 0 <= j < |b| ==> b[j] != c
  {
    if b != [] {
      CountOfZero(b[1..], c);
      if CountOf(b, c) == 0 {
        forall j | 0 <= j < |b|
          ensures b[j] != c
        {
          if j > 0 {
            assert b[j] == b[1..][j - 1];
          }
        }
      } else if b[0] != c {
        var j :| 0 <= j < |b[1..]| && b[1..][j] == c;
        assert b[j + 1] == c;
      }
    }
  }

  /** X has moved as often as O when it is X's turn, once more otherwise. */
  predicate TurnBalance(b: seq<Cell>, xTurn: bool) {
    if xTurn then CountOf(b, X) == CountOf(b, O) else CountOf(b, X) == CountOf(b, O) + 1
  }

  /** The mover's mark in an empty cell adds one mark and hands the turn over
      with the balance kept. */
  lemma PlaceMark(b: seq<Cell>, i: Index, xTurn: bool)
    requires |b| == 9 && b[i] == Empty && TurnBalance(b, xTurn)
    ensures var after := b[i := if xTurn then X else O];
      && CountOf(after, X) + CountOf(after, O) == CountOf(b, X) + CountOf(b, O) + 1
      && TurnBalance(after, !xTurn)
  {
    var m := if xTurn then X else O;
    CountOfUpdate(b, i, m, X);
    CountOfUpdate(b, i, m, O);
  }

  /** Nine marks on the board exactly when no cell is empty. */
  lemma NineMarksFillBoard(b: seq<Cell>)
    requires |b| == 9
    ensures CountOf(b, X) + CountOf(b, O) == 9 <==> forall j :: 0 <= j < 9 ==> b[j] != Empty
  {
    CountsPartition(b);
    CountOfZero(b, Empty);
  }

  /** X to 0, O to 1, X to 4, O to 2: no line is complete after any of these
      moves; X to 8 then completes the diagonal 0-4-8, the first line found. */
  lemma DiagonalWinScenario()
    ensures !CheckWin([X, Empty, Empty, Empty, Empty, Empty, Empty, Empty, Empty])
    ensures !CheckWin([X, O, Empty, Empty, Empty, Empty, Empty, Empty, Empty])
    ensures !CheckWin([X, O, Empty, Empty, X, Empty, Empty, Empty, Empty])
    ensures !CheckWin([X, O, O, Empty, X, Empty, Empty, Empty, Empty])
    ensures FirstWinningLine([X, O, O, Empty, X, Empty, Empty, Empty, X], 0) == 6
    ensures Lines[6] == Line(0, 4, 8)
  {
    var b1 := [X, Empty, Empty, Empty, Empty, Empty, Empty, Empty, Empty];
    var b2 := [X, O, Empty, Empty, Empty, Empty, Empty, Empty, Empty];
    var b3 := [X, O, Empty, Empty, X, Empty, Empty, Empty, Empty];
    var b4 := [X, O, O, Empty, X, Empty, Empty, Empty, Empty];
    assert !CheckWin(b1) by { CheckWinByCells(b1); }
    assert !CheckWin(b2) by { CheckWinByCells(b2); }
    assert !CheckWin(b3) by { CheckWinByCells(b3); }
    assert !CheckWin(b4) by { CheckWinByCells(b4); }
  }
}
