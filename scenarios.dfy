/**
 * Whole rounds on concrete boards: a line completed on the last empty cell,
 * a round won along the top row, and a round that fills the board with no
 * line for either player. Final boards are written out slot by slot, slot 0
 * first, and X (Player 1) always moves first.
 */
module Scenarios {
  import opened Board
  import opened Prompts
  import opened Game

  /** Player 1 plays X and Player 2 plays O. */
  const XO: Markers := ("X", "O")

  /**
   * A move `moves[k]` that neither completes a line nor fills the board hands
   * the rest of the round to the other player, one placement later.
   */
  lemma Continues(b: seq<string>, markers: Markers, turn: Player, moves: seq<int>, k: nat,
                  after: seq<string>, open: Pos, r: Round)
    requires k < |moves| && |b| >= 10 && PositionAccepted(b, moves[k])
    requires after == b[moves[k] := Mark(markers, turn)]
    requires !GameWinCheck(after, Mark(markers, turn)) && after[open] == Blank
    requires Play(after, markers, Other(turn), moves[k + 1..]) == Some(r)
    ensures Play(b, markers, turn, moves[k..]) == Some(r.(placed := r.placed + 1))
  {
    assert moves[k..] == [moves[k]] + moves[k + 1..];
    PlayFirstMove(b, markers, turn, moves[k], moves[k + 1..]);
  }

  /** A last move that completes a line wins; one that fills the board without a line draws. */
  lemma Ends(b: seq<string>, markers: Markers, turn: Player, moves: seq<int>, k: nat,
             after: seq<string>, status: Status)
    requires k == |moves| - 1 && |b| >= 10 && PositionAccepted(b, moves[k])
    requires after == b[moves[k] := Mark(markers, turn)]
    requires if GameWinCheck(after, Mark(markers, turn)) then status == Won(turn) else IsFull(after) && status == Drawn
    ensures Play(b, markers, turn, moves[k..]) == Some(Round(after, status, 1))
  {
    assert moves[k..] == [moves[k]] + [];
    PlayFirstMove(b, markers, turn, moves[k], []);
  }

  /**
   * Eight cells filled with no line yet,
   *
   *     X O X
   *     O X O
   *     O X .
   *
   * and X to move on the last empty cell 9, which both completes the
   * diagonal 1-5-9 and fills the board: the round is a win for X, not a draw.
   */
  lemma LastCellWinIsWin()
    ensures var b := [" ", "X", "O", "X", "O", "X", "O", "O", "X", " "];
      && !GameWinCheck(b, "X") && !GameWinCheck(b, "O") && EmptyCells(b) == {9}
      && IsFull(b[9 := "X"])
      && Play(b, XO, Player1, [9]) == Some(Round(b[9 := "X"], Won(Player1), 1))
  {
    var b := [" ", "X", "O", "X", "O", "X", "O", "O", "X", " "];
    forall p: Pos ensures p in EmptyCells(b) <==> p == 9 {
      assert p == 1 || p == 2 || p == 3 || p == 4 || p == 5 || p == 6 || p == 7 || p == 8 || p == 9;
    }
    PlayFirstMove(b, XO, Player1, 9, []);
  }

  /**
   * X takes 1, 2 and 3 while O takes 4 and 5: the round ends after five
   * placements as a win for Player 1, who holds the top row.
   */
  lemma TopRowWin(moves: seq<int>)
    requires moves == [1, 4, 2, 5, 3]
    ensures Play(NewBoard(), XO, Player1, moves)
            == Some(Round([" ", "X", "X", "X", "O", "O", " ", " ", " ", " "], Won(Player1), 5))
  {
    var b0 := NewBoard();
    var b1 := b0[1 := "X"];
    var b2 := b1[4 := "O"];
    var b5 := [" ", "X", "X", "X", "O", "O", " ", " ", " ", " "];
    assert moves[0..] == moves;
    TopRowWinLastThree(b2, moves);
    Continues(b1, XO, Player2, moves, 1, b2, 2, Round(b5, Won(Player1), 3));
    Continues(b0, XO, Player1, moves, 0, b1, 2, Round(b5, Won(Player1), 4));
  }

  /** The last three placements of `TopRowWin`, from X . . / O . . / . . . with X to move. */
  lemma TopRowWinLastThree(b2: seq<string>, moves: seq<int>)
    requires b2 == NewBoard()[1 := "X"][4 := "O"]
    requires moves == [1, 4, 2, 5, 3]
    ensures Play(b2, XO, Player1, moves[2..])
            == Some(Round([" ", "X", "X", "X", "O", "O", " ", " ", " ", " "], Won(Player1), 3))
  {
    var b3 := b2[2 := "X"];
    var b4 := b3[5 := "O"];
    var b5 := b4[3 := "X"];
    assert b5 == [" ", "X", "X", "X", "O", "O", " ", " ", " ", " "];
    Ends(b4, XO, Player1, moves, 4, b5, Won(Player1));
    Continues(b3, XO, Player2, moves, 3, b4, 3, Round(b5, Won(Player1), 1));
    Continues(b2, XO, Player1, moves, 2, b3, 3, Round(b5, Won(Player1), 2));
  }

  /**
   * X and O alternately fill the board as
   *
   *     X O X
   *     X O O
   *     O X X
   *
   * with no line for either at any point: the round is a draw after nine
   * placements.
   */
  lemma FullBoardDraw(moves: seq<int>)
    requires moves == [1, 2, 3, 5, 4, 6, 8, 7, 9]
    ensures Play(NewBoard(), XO, Player1, moves)
            == Some(Round([" ", "X", "O", "X", "X", "O", "O", "O", "X", "X"], Drawn, 9))
  {
    var b0 := NewBoard();
    var b1 := b0[1 := "X"];
    var b2 := b1[2 := "O"];
    var b9 := [" ", "X", "O", "X", "X", "O", "O", "O", "X", "X"];
    assert moves[0..] == moves;
    FullBoardDrawLastSeven(b2, moves);
    Continues(b1, XO, Player2, moves, 1, b2, 3, Round(b9, Drawn, 7));
    Continues(b0, XO, Player1, moves, 0, b1, 2, Round(b9, Drawn, 8));
  }

  /** The last seven placements of `FullBoardDraw`, from X O . / . . . / . . . with X to move. */
  lemma FullBoardDrawLastSeven(b2: seq<string>, moves: seq<int>)
    requires b2 == NewBoard()[1 := "X"][2 := "O"]
    requires moves == [1, 2, 3, 5, 4, 6, 8, 7, 9]
    ensures Play(b2, XO, Player1, moves[2..])
            == Some(Round([" ", "X", "O", "X", "X", "O", "O", "O", "X", "X"], Drawn, 7))
  {
    var b3 := b2[3 := "X"];
    var b4 := b3[5 := "O"];
    var b9 := [" ", "X", "O", "X", "X", "O", "O", "O", "X", "X"];
    FullBoardDrawLastFive(b4, moves);
    Continues(b3, XO, Player2, moves, 3, b4, 4, Round(b9, Drawn, 5));
    Continues(b2, XO, Player1, moves, 2, b3, 4, Round(b9, Drawn, 6));
  }

  /** The last five placements of `FullBoardDraw`, from X O X / . O . / . . . with X to move. */
  lemma FullBoardDrawLastFive(b4: seq<string>, moves: seq<int>)
    requires b4 == NewBoard()[1 := "X"][2 := "O"][3 := "X"][5 := "O"]
    requires moves == [1, 2, 3, 5, 4, 6, 8, 7, 9]
    ensures Play(b4, XO, Player1, moves[4..])
            == Some(Round([" ", "X", "O", "X", "X", "O", "O", "O", "X", "X"], Drawn, 5))
  {
    var b5 := b4[4 := "X"];
    var b6 := b5[6 := "O"];
    var b7 := b6[8 := "X"];
    var b8 := b7[7 := "O"];
    var b9 := b8[9 := "X"];
    assert b9 == [" ", "X", "O", "X", "X", "O", "O", "O", "X", "X"];
    Ends(b8, XO, Player1, moves, 8, b9, Drawn);
    Continues(b7, XO, Player2, moves, 7, b8, 9, Round(b9, Drawn, 1));
    Continues(b6, XO, Player1, moves, 6, b7, 7, Round(b9, Drawn, 2));
    Continues(b5, XO, Player2, moves, 5, b6, 7, Round(b9, Drawn, 3));
    Continues(b4, XO, Player1, moves, 4, b5, 6, Round(b9, Drawn, 4));
  }
}
