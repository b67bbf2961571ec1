/**
 * The decisions taken inside the console prompts: which answers each prompt
 * accepts, what an accepted answer becomes, and who moves first.
 *
 * The prompts themselves (reading a line, re-asking until the answer is
 * accepted) are console input; what is modelled is the condition on which
 * each re-prompt loop exits and the value it then returns.
 */
module Prompts {
  import opened Board

  /** The two players; the driver's turn variable names one of them. */
  datatype Player = Player1 | Player2

  /** The player whose turn comes next. */
  function Other(p: Player): (q: Player)
    ensures q != p
  {
    if p == Player1 then Player2 else Player1
  }

  /** Who moves first, with the random draw `randint(0, 1)` taken as a parameter. */
  function PlayerChoice(draw: int): Player
  {
    if draw == 0 then Player2 else Player1
  }

  /**
   * The two values the random draw can take give the two players, one each:
   * a fair draw gives each player the first move with probability one half.
   */
  lemma PlayerChoiceSplitsEvenly(p: Player)
    ensures exists draw :: (draw == 0 || draw == 1) && PlayerChoice(draw) == p
    ensures PlayerChoice(0) != PlayerChoice(1)
  {
    if p == Player2 {
      assert PlayerChoice(0) == p;
    } else {
      assert PlayerChoice(1) == p;
    }
  }

  /** Upper-casing of one character (ASCII letters only). */
  function UpperChar(c: char): char
  {
    if 'a' <= c <= 'z' then (c as int - 32) as char else c
  }

  /** Upper-casing of an answer. */
  function Upper(s: string): string
  {
    seq(|s|, i requires 0 <= i < |s| => UpperChar(s[i]))
  }

  /** The one-letter answers an upper-cased answer equals exactly when the answer is that letter in either case. */
  lemma UpperIsLetter(s: string, lower: char, upper: char)
    requires 'a' <= lower <= 'z' && upper as int == lower as int - 32
    ensures Upper(s) == [upper] <==> s == [lower] || s == [upper]
  {
    if Upper(s) == [upper] {
      assert |s| == |Upper(s)| == 1;
      assert UpperChar(s[0]) == Upper(s)[0] == upper;
      assert s == [s[0]];
    }
  }

  // ---------------------------------------------------------------------
  // Marker selection.

  /** The marker prompt exits once the upper-cased answer is X or O. */
  predicate MarkerAccepted(answer: string)
  {
    Upper(answer) == "X" || Upper(answer) == "O"
  }

  /** The marker prompt accepts exactly the answers x, X, o and O. */
  lemma MarkerAcceptedIff(answer: string)
    ensures MarkerAccepted(answer) <==> answer in {"x", "X", "o", "O"}
  {
    UpperIsLetter(answer, 'x', 'X');
    UpperIsLetter(answer, 'o', 'O');
  }

  /**
   * The pairing of markers: Player 1 takes the chosen marker and Player 2 the
   * other one, so the two are X and O in some order.
   */
  function PlayerInput(answer: string): (markers: (string, string))
    requires MarkerAccepted(answer)
    ensures markers.0 == Upper(answer)
    ensures markers.0 != markers.1
    ensures {markers.0, markers.1} == {"X", "O"}
  {
    var marker := Upper(answer);
    if marker == "X" then ("X", "O") else ("O", "X")
  }

  // ---------------------------------------------------------------------
  // Position selection.

  /**
   * The position prompt exits once the number is in 1..9 and that cell is
   * empty; the range test guards the space check.
   */
  predicate PositionAccepted(b: seq<string>, position: int)
    requires |b| >= 10
  {
    1 <= position <= 9 && SpaceCheck(b, position)
  }

  /** The position prompt accepts exactly the empty cells. */
  lemma PositionAcceptedIff(b: seq<string>, position: int)
    requires |b| >= 10
    ensures PositionAccepted(b, position) <==> 1 <= position <= 9 && position in EmptyCells(b)
  {
    if PositionAccepted(b, position) {
      var p: Pos := position;
      assert p in EmptyCells(b);
    }
  }

  // ---------------------------------------------------------------------
  // Yes/no answers ("ready to play?" and "play again?").

  /** A yes/no prompt exits once the upper-cased answer is Y or N. */
  predicate YesNoAccepted(answer: string)
  {
    Upper(answer) == "Y" || Upper(answer) == "N"
  }

  /** A yes/no prompt accepts exactly the answers y, Y, n and N. */
  lemma YesNoAcceptedIff(answer: string)
    ensures YesNoAccepted(answer) <==> answer in {"y", "Y", "n", "N"}
  {
    UpperIsLetter(answer, 'y', 'Y');
    UpperIsLetter(answer, 'n', 'N');
  }

  /** The "play again?" answer as a boolean: yes in either case means play again. */
  function GameContinue(answer: string): (again: bool)
    requires YesNoAccepted(answer)
    ensures again <==> answer == "y" || answer == "Y"
    ensures !again <==> answer == "n" || answer == "N"
  {
    UpperIsLetter(answer, 'y', 'Y');
    UpperIsLetter(answer, 'n', 'N');
    Upper(answer) == "Y"
  }
}
