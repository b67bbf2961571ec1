/**
 * The tic-tac-toe board and its primitives.
 *
 * The board is a list of ten strings. Slot 0 is never used; slots 1..9 are
 * the cells of the 3x3 grid in row-major order:
 *
 *     1 2 3
 *     4 5 6
 *     7 8 9
 *
 * A cell holding `Blank` is empty; otherwise it holds a player's marker.
 * The pure parts (space check, win check) are functions on `seq<string>`;
 * the operations that update the list in place or loop over it are methods
 * on `array<string>`.
 */
module Board {

  /** The contents of an empty cell. */
  const Blank: string := " "

  /** The number of slots in a board list (slot 0 plus the nine cells). */
  const Slots: nat := 10

  /** A cell number, 1..9. */
  type Pos = p: int | 1 <= p <= 9 witness 1

  /** A fresh board: ten blank slots. */
  function NewBoard(): seq<string>
  {
    seq(Slots, _ => Blank)
  }

  /** Python list indexing on a list of length n: a negative index counts from the end. */
  function Slot(n: nat, index: int): (k: nat)
    requires -(n as int) <= index < n
    ensures k < n
    ensures k == index % n
  {
    if index < 0 then n + index else index
  }

  /** The test whether a slot of the board is empty. */
  predicate SpaceCheck(b: seq<string>, position: int)
    requires -|b| <= position < |b|
  {
    b[Slot(|b|, position)] == Blank
  }

  /** Writing one marker into the board list, in place. */
  method PlaceMarker(board: array<string>, marker: string, position: int)
    requires -board.Length <= position < board.Length
    modifies board
    ensures board[..] == old(board[..])[Slot(board.Length, position) := marker]
  {
    board[Slot(board.Length, position)] := marker;
  }

  /** The win test: the three rows, the three columns and the two diagonals, in that order. */
  predicate GameWinCheck(b: seq<string>, mark: string)
    requires |b| >= 10
  {
    (b[1] == mark && b[2] == mark && b[3] == mark)
    || (b[4] == mark && b[5] == mark && b[6] == mark)
    || (b[7] == mark && b[8] == mark && b[9] == mark)
    || (b[1] == mark && b[4] == mark && b[7] == mark)
    || (b[2] == mark && b[5] == mark && b[8] == mark)
    || (b[3] == mark && b[6] == mark && b[9] == mark)
    || (b[1] == mark && b[5] == mark && b[9] == mark)
    || (b[3] == mark && b[5] == mark && b[7] == mark)
  }

  /** The board is full when no cell 1..9 is blank; slot 0 does not matter. */
  predicate IsFull(b: seq<string>)
    requires |b| >= 10
  {
    forall p :: 1 <= p <= 9 ==> b[p] != Blank
  }

  /** The cells 1..9 that are still empty. */
  function EmptyCells(b: seq<string>): set<Pos>
    requires |b| >= 10
  {
    set p: Pos | b[p] == Blank
  }

  /** The scan of cells 1..9 for an empty one, returning at the first it finds. */
  method FullBoardCheck(board: array<string>) returns (full: bool)
    requires board.Length >= 10
    ensures full == IsFull(board[..])
    ensures full <==> EmptyCells(board[..]) == {}
  {
    for i := 1 to 10
      invariant forall p :: 1 <= p < i ==> board[p] != Blank
    {
      if SpaceCheck(board[..], i) {
        assert i in EmptyCells(board[..]);
        return false;
      }
    }
    full := true;
  }

  // ---------------------------------------------------------------------
  // The winning lines, two ways: the explicit list of eight triples, and
  // straight runs of three cells on the 3x3 grid.

  /** The eight winning triples: three rows, three columns, two diagonals. */
  const WinningLines: seq<(Pos, Pos, Pos)> :=
    [(1, 2, 3), (4, 5, 6), (7, 8, 9),
     (1, 4, 7), (2, 5, 8), (3, 6, 9),
     (1, 5, 9), (3, 5, 7)]

  /** All three cells of `line` hold `mark`. */
  predicate Holds(b: seq<string>, line: (Pos, Pos, Pos), mark: string)
    requires |b| >= 10
  {
    b[line.0] == mark && b[line.1] == mark && b[line.2] == mark
  }

  /** The cell in row `row` and column `col` (both counted from 0) of the grid. */
  function Cell(row: int, col: int): (p: Pos)
    requires 0 <= row < 3 && 0 <= col < 3
  {
    3 * row + col + 1
  }

  /** A direction of a straight line: across, down, down-right, down-left. */
  predicate Direction(dr: int, dc: int)
  {
    (dr == 0 && dc == 1) || (dr == 1 && dc == 0) || (dr == 1 && dc == 1) || (dr == 1 && dc == -1)
  }

  /** A run of three cells starting at (row, col) in direction (dr, dc) stays on the grid. */
  predicate OnGrid(row: int, col: int, dr: int, dc: int)
  {
    && 0 <= row < 3 && 0 <= col < 3
    && 0 <= row + dr < 3 && 0 <= col + dc < 3
    && 0 <= row + 2 * dr < 3 && 0 <= col + 2 * dc < 3
  }

  /** The three cells of that run all hold `mark`. */
  predicate Run(b: seq<string>, row: int, col: int, dr: int, dc: int, mark: string)
    requires |b| >= 10 && OnGrid(row, col, dr, dc)
  {
    && b[Cell(row, col)] == mark
    && b[Cell(row + dr, col + dc)] == mark
    && b[Cell(row + 2 * dr, col + 2 * dc)] == mark
  }

  /** Some straight line of three cells on the grid holds `mark` throughout. */
  ghost predicate ThreeInARow(b: seq<string>, mark: string)
    requires |b| >= 10
  {
    exists row, col, dr, dc ::
      Direction(dr, dc) && OnGrid(row, col, dr, dc) && Run(b, row, col, dr, dc, mark)
  }

  /** The win test is exactly "some straight line of three cells holds the mark". */
  lemma GameWinCheckIsThreeInARow(b: seq<string>, mark: string)
    requires |b| >= 10
    ensures GameWinCheck(b, mark) <==> ThreeInARow(b, mark)
  {
    if GameWinCheck(b, mark) {
      if b[1] == mark && b[2] == mark && b[3] == mark {
        assert Run(b, 0, 0, 0, 1, mark);
      } else if b[4] == mark && b[5] == mark && b[6] == mark {
        assert Run(b, 1, 0, 0, 1, mark);
      } else if b[7] == mark && b[8] == mark && b[9] == mark {
        assert Run(b, 2, 0, 0, 1, mark);
      } else if b[1] == mark && b[4] == mark && b[7] == mark {
        assert Run(b, 0, 0, 1, 0, mark);
      } else if b[2] == mark && b[5] == mark && b[8] == mark {
        assert Run(b, 0, 1, 1, 0, mark);
      } else if b[3] == mark && b[6] == mark && b[9] == mark {
        assert Run(b, 0, 2, 1, 0, mark);
      } else if b[1] == mark && b[5] == mark && b[9] == mark {
        assert Run(b, 0, 0, 1, 1, mark);
      } else {
        assert Run(b, 0, 2, 1, -1, mark);
      }
    }
    if ThreeInARow(b, mark) {
      var row, col, dr, dc :|
        Direction(dr, dc) && OnGrid(row, col, dr, dc) && Run(b, row, col, dr, dc, mark);
      if dr == 0 {
        assert col == 0;
        assert row == 0 || row == 1 || row == 2;
      } else if dc == 0 {
        assert row == 0;
        assert col == 0 || col == 1 || col == 2;
      } else {
        assert row == 0;
      }
    }
  }

  /** `mark` holds one of the eight winning lines. */
  ghost predicate Wins(b: seq<string>, mark: string)
    requires |b| >= 10
  {
    exists line :: line in WinningLines && Holds(b, line, mark)
  }

  /** The win test is exactly "one of the eight listed triples holds the mark". */
  lemma GameWinCheckIsWinningLine(b: seq<string>, mark: string)
    requires |b| >= 10
    ensures GameWinCheck(b, mark) <==> Wins(b, mark)
  {
    if GameWinCheck(b, mark) {
      var k: nat :|
        k < 8 && Holds(b, WinningLines[k], mark) by {
        if Holds(b, WinningLines[0], mark) {
        } else if Holds(b, WinningLines[1], mark) {
        } else if Holds(b, WinningLines[2], mark) {
        } else if Holds(b, WinningLines[3], mark) {
        } else if Holds(b, WinningLines[4], mark) {
        } else if Holds(b, WinningLines[5], mark) {
        } else if Holds(b, WinningLines[6], mark) {
        } else {
          assert Holds(b, WinningLines[7], mark);
        }
      }
      assert WinningLines[k] in WinningLines;
    }
  }

  /**
   * A board whose only cells holding `mark` are the three cells of one winning
   * line: the win test holds, that line is the only one `mark` holds, and when
   * every other cell is empty no other non-blank marker wins.
   */
  lemma OnlyHolderWins(b: seq<string>, line: (Pos, Pos, Pos), mark: string)
    requires |b| >= 10 && line in WinningLines && mark != Blank
    requires Holds(b, line, mark)
    requires forall p: Pos :: p != line.0 && p != line.1 && p != line.2 ==> b[p] != mark
    ensures GameWinCheck(b, mark)
    ensures forall l :: l in WinningLines && Holds(b, l, mark) ==> l == line
    ensures (forall p: Pos :: p != line.0 && p != line.1 && p != line.2 ==> b[p] == Blank) ==>
              forall other :: other != mark && other != Blank ==> !GameWinCheck(b, other)
  {
    GameWinCheckIsWinningLine(b, mark);
    forall l | l in WinningLines && Holds(b, l, mark)
      ensures l == line
    {
      assert l.0 in Cells(line) && l.1 in Cells(line) && l.2 in Cells(line);
      LineDeterminedByCells(l, line);
    }
    if forall p: Pos :: p != line.0 && p != line.1 && p != line.2 ==> b[p] == Blank {
      forall other | other != mark && other != Blank
        ensures !GameWinCheck(b, other)
      {
        assert forall p: Pos :: b[p] != other;
      }
    }
  }

  /** The three cells of a line, as a set. */
  function Cells(line: (Pos, Pos, Pos)): set<Pos>
  {
    {line.0, line.1, line.2}
  }

  /** Two winning lines that share all three cells are the same line. */
  lemma LineDeterminedByCells(l: (Pos, Pos, Pos), m: (Pos, Pos, Pos))
    requires l in WinningLines && m in WinningLines
    requires l.0 in Cells(m) && l.1 in Cells(m) && l.2 in Cells(m)
    ensures l == m
  {
  }

  // ---------------------------------------------------------------------
  // Placement, emptiness and the fresh board.

  /**
   * After a non-blank marker is written at a slot, the space check is false
   * there and unchanged at every other slot.
   */
  lemma SpaceCheckAfterPlace(b: seq<string>, marker: string, position: int, other: int)
    requires -|b| <= position < |b| && -|b| <= other < |b|
    requires marker != Blank
    ensures !SpaceCheck(b[Slot(|b|, position) := marker], position)
    ensures Slot(|b|, other) != Slot(|b|, position) ==>
              SpaceCheck(b[Slot(|b|, position) := marker], other) == SpaceCheck(b, other)
  {
  }

  /**
   * Writing a non-blank marker into an empty cell removes exactly that cell
   * from the empty cells, so their number drops by one.
   */
  lemma PlaceFillsOneCell(b: seq<string>, p: Pos, marker: string)
    requires |b| >= 10 && b[p] == Blank && marker != Blank
    ensures p in EmptyCells(b)
    ensures EmptyCells(b[p := marker]) == EmptyCells(b) - {p}
    ensures |EmptyCells(b[p := marker])| == |EmptyCells(b)| - 1
  {
    assert p in EmptyCells(b);
  }

  /** There are at most nine empty cells, and the board is full exactly when none is left. */
  lemma EmptyCellsBound(b: seq<string>)
    requires |b| >= 10
    ensures |EmptyCells(b)| <= 9
    ensures IsFull(b) <==> EmptyCells(b) == {}
  {
    var all: set<Pos> := {1, 2, 3, 4, 5, 6, 7, 8, 9};
    forall p: Pos ensures p in all {
      assert p == 1 || p == 2 || p == 3 || p == 4 || p == 5 || p == 6 || p == 7 || p == 8 || p == 9;
    }
    SubsetSize(EmptyCells(b), all);
    assert |all| == 9;
    if !IsFull(b) {
      var p :| 1 <= p <= 9 && b[p] == Blank;
      assert p in EmptyCells(b);
    }
  }

  /**
   * A fresh board has all nine cells empty, so it is not full, and the win
   * test on it holds for exactly one mark: the blank itself.
   */
  lemma FreshBoard()
    ensures |NewBoard()| == 10
    ensures |EmptyCells(NewBoard())| == 9
    ensures !IsFull(NewBoard())
    ensures forall mark :: GameWinCheck(NewBoard(), mark) <==> mark == Blank
  {
    var b := NewBoard();
    var all: set<Pos> := {1, 2, 3, 4, 5, 6, 7, 8, 9};
    forall p: Pos ensures p in EmptyCells(b) && p in all {
      assert p == 1 || p == 2 || p == 3 || p == 4 || p == 5 || p == 6 || p == 7 || p == 8 || p == 9;
    }
    assert EmptyCells(b) == all;
    assert b[1] == Blank;
  }

  /** Slot 0 is ignored by the win test, the full test and the set of empty cells. */
  lemma SlotZeroIgnored(b: seq<string>, x: string, mark: string)
    requires |b| >= 10
    ensures GameWinCheck(b[0 := x], mark) == GameWinCheck(b, mark)
    ensures IsFull(b[0 := x]) == IsFull(b)
    ensures EmptyCells(b[0 := x]) == EmptyCells(b)
  {
    assert forall p :: 1 <= p <= 9 ==> b[0 := x][p] == b[p];
  }

  /** A subset is no larger than the set that holds it. */
  lemma SubsetSize<T>(small: set<T>, large: set<T>)
    requires small <= large
    ensures |small| <= |large|
    decreases large
  {
    if small != {} {
      var x :| x in small;
      SubsetSize(small - {x}, large - {x});
    }
  }
}
