/**
 * One round of the game: the driver loop that alternates the players'
 * placements on a fresh board until a win or a draw.
 *
 * `Step` is one pass of the loop body and `Play` the whole round as a
 * function of the positions the players enter; `PlayRound` is the driver
 * loop itself, updating the board in place, proved to compute what `Play`
 * describes. The lemmas say what a round does to the board (which cells
 * change, who placed what), when it ends and how it is scored.
 */
module Game {
  import opened Board
  import opened Prompts

  datatype Option<T> = None | Some(value: T)

  /** The state of a round: the player to move, or how it ended. */
  datatype Status = InProgress(turn: Player) | Won(winner: Player) | Drawn

  /** How a round ended: the final board, the final status and how many placements were made. */
  datatype Round = Round(board: seq<string>, status: Status, placed: nat)

  /** The markers of Player 1 and Player 2. */
  type Markers = (string, string)

  /** Two distinct markers, neither of them blank. */
  predicate Paired(markers: Markers)
  {
    markers.0 != markers.1 && markers.0 != Blank && markers.1 != Blank
  }

  /** The marker a player places. */
  function Mark(markers: Markers, p: Player): string
  {
    if p == Player1 then markers.0 else markers.1
  }

  /** The player who makes placement number k (from 0) when `first` moves first. */
  function Mover(first: Player, k: nat): Player
  {
    if k % 2 == 0 then first else Other(first)
  }

  /** Handing the first move to the other player shifts the placements by one. */
  lemma MoverShift(first: Player, k: nat)
    ensures Mover(Other(first), k) == Mover(first, k + 1)
  {
  }

  /**
   * One pass of the driver loop for the player to move, after the position
   * prompt returned `position`: place the marker, then test for a win, and
   * only when there is none test for a full board; only when neither holds
   * does the turn pass.
   */
  ghost function Step(b: seq<string>, markers: Markers, turn: Player, position: int): (seq<string>, Status)
    requires |b| >= 10 && PositionAccepted(b, position)
  {
    var mark := Mark(markers, turn);
    var b' := b[position := mark];
    if Wins(b', mark) then (b', Won(turn))
    else if IsFull(b') then (b', Drawn)
    else (b', InProgress(Other(turn)))
  }

  /**
   * The round played from board `b` with `turn` to move, when the position
   * prompt returns `moves` in order. None when a move is one the prompt would
   * not return (out of 1..9 or on a filled cell) or the moves run out before
   * the round ends. Moves after the end of the round are never read.
   */
  ghost function Play(b: seq<string>, markers: Markers, turn: Player, moves: seq<int>): Option<Round>
    requires |b| >= 10
    decreases |moves|
  {
    if |moves| == 0 || !PositionAccepted(b, moves[0]) then None
    else
      var (b', status) := Step(b, markers, turn, moves[0]);
      if status.InProgress? then
        match Play(b', markers, status.turn, moves[1..])
        case None => None
        case Some(r) => Some(r.(placed := r.placed + 1))
      else
        Some(Round(b', status, 1))
  }

  // ---------------------------------------------------------------------
  // The state machine, one step at a time.

  /**
   * A placement that completes a line for the mover is scored as a win even
   * when it also fills the board: the win test comes before the draw test.
   */
  lemma WinBeforeDraw(b: seq<string>, markers: Markers, turn: Player, position: int)
    requires |b| >= 10 && PositionAccepted(b, position)
    requires GameWinCheck(b[position := Mark(markers, turn)], Mark(markers, turn))
    ensures Step(b, markers, turn, position).1 == Won(turn)
  {
    GameWinCheckIsWinningLine(b[position := Mark(markers, turn)], Mark(markers, turn));
  }

  /**
   * A step changes exactly the chosen cell, from empty to the mover's marker;
   * it ends the round as a win for the mover exactly when the mover now holds
   * a line, as a draw exactly when it does not and the board is full, and
   * otherwise hands the turn to the other player with one empty cell fewer.
   */
  lemma StepEffect(b: seq<string>, markers: Markers, turn: Player, position: int)
    requires |b| >= 10 && PositionAccepted(b, position) && Paired(markers)
    ensures var (b', status) := Step(b, markers, turn, position);
      && |b'| == |b|
      && b[position] == Blank && b'[position] == Mark(markers, turn) != Blank
      && (forall i :: 0 <= i < |b| && i != position ==> b'[i] == b[i])
      && EmptyCells(b') == EmptyCells(b) - {position as Pos}
      && (status == Won(turn) <==> Wins(b', Mark(markers, turn)))
      && (status == Drawn <==> !Wins(b', Mark(markers, turn)) && IsFull(b'))
      && (status == InProgress(Other(turn)) <==> !Wins(b', Mark(markers, turn)) && !IsFull(b'))
      && (status.Won? || status.Drawn? || status == InProgress(Other(turn)))
  {
    PlaceFillsOneCell(b, position, Mark(markers, turn));
  }

  /**
   * The first pass of a round, told with the win test as the driver writes
   * it: a win for the mover ends the round, else a full board ends it as a
   * draw, else the round goes on from the other player's turn.
   */
  lemma PlayFirstMove(b: seq<string>, markers: Markers, turn: Player, position: int, rest: seq<int>)
    requires |b| >= 10 && PositionAccepted(b, position)
    ensures var mark := Mark(markers, turn);
      var b' := b[position := mark];
      Play(b, markers, turn, [position] + rest)
      == if GameWinCheck(b', mark) then Some(Round(b', Won(turn), 1))
         else if IsFull(b') then Some(Round(b', Drawn, 1))
         else match Play(b', markers, Other(turn), rest)
              case None => None
              case Some(r) => Some(r.(placed := r.placed + 1))
  {
    assert ([position] + rest)[1..] == rest;
    GameWinCheckIsWinningLine(b[position := Mark(markers, turn)], Mark(markers, turn));
  }

  // ---------------------------------------------------------------------
  // Whole rounds.

  /**
   * A round that ends is won or drawn, takes at least one placement, no more
   * than there were empty cells, and no more moves than were entered; every
   * placement fills one empty cell.
   */
  lemma {:induction false} PlayBounds(b: seq<string>, markers: Markers, turn: Player, moves: seq<int>)
    requires |b| >= 10 && Paired(markers)
    requires Play(b, markers, turn, moves).Some?
    ensures var r := Play(b, markers, turn, moves).value;
      && (r.status.Won? || r.status.Drawn?)
      && 1 <= r.placed <= |EmptyCells(b)|
      && r.placed <= |moves|
      && |r.board| == |b|
      && |EmptyCells(r.board)| == |EmptyCells(b)| - r.placed
    decreases |moves|
  {
    var (b', status) := Step(b, markers, turn, moves[0]);
    StepEffect(b, markers, turn, moves[0]);
    if status.InProgress? {
      PlayBounds(b', markers, status.turn, moves[1..]);
    }
  }

  /** `moves` names every empty cell of `b` exactly once, in some order. */
  predicate CoversEmpty(b: seq<string>, moves: seq<int>)
    requires |b| >= 10
  {
    && |moves| == |EmptyCells(b)|
    && (forall k :: 0 <= k < |moves| ==> 1 <= moves[k] <= 9 && b[moves[k]] == Blank)
    && (forall j, k :: 0 <= j < k < |moves| ==> moves[j] != moves[k])
  }

  /**
   * A round ends: when the players enter the empty cells one by one, each
   * entry is accepted when it comes, and the round is won or drawn before
   * the entries run out.
   */
  lemma {:induction false} PlayEnds(b: seq<string>, markers: Markers, turn: Player, moves: seq<int>)
    requires |b| >= 10 && Paired(markers)
    requires EmptyCells(b) != {} && CoversEmpty(b, moves)
    ensures Play(b, markers, turn, moves).Some?
    decreases |moves|
  {
    var p := moves[0];
    assert PositionAccepted(b, p);
    StepEffect(b, markers, turn, p);
    PlaceFillsOneCell(b, p, Mark(markers, turn));
    var (b', status) := Step(b, markers, turn, p);
    if status.InProgress? {
      EmptyCellsBound(b');
      var rest := moves[1..];
      forall k | 0 <= k < |rest|
        ensures 1 <= rest[k] <= 9 && b'[rest[k]] == Blank
      {
        assert rest[k] == moves[k + 1] != p;
      }
      PlayEnds(b', markers, status.turn, rest);
    }
  }

  /** Nine distinct cell numbers: an order in which a whole board can be filled. */
  predicate NineCells(moves: seq<int>)
  {
    && |moves| == 9
    && (forall k :: 0 <= k < |moves| ==> 1 <= moves[k] <= 9)
    && (forall j, k :: 0 <= j < k < |moves| ==> moves[j] != moves[k])
  }

  /**
   * The moves a round reads are distinct cells that were empty at the start.
   */
  lemma {:induction false} PlayMovesFresh(b: seq<string>, markers: Markers, turn: Player, moves: seq<int>)
    requires |b| >= 10 && Paired(markers)
    requires Play(b, markers, turn, moves).Some?
    ensures var r := Play(b, markers, turn, moves).value;
      && r.placed <= |moves|
      && (forall k :: 0 <= k < r.placed ==> 1 <= moves[k] <= 9 && b[moves[k]] == Blank)
      && (forall j, k :: 0 <= j < k < r.placed ==> moves[j] != moves[k])
    decreases |moves|
  {
    var r := Play(b, markers, turn, moves).value;
    var p := moves[0];
    var b' := b[p := Mark(markers, turn)];
    var status := Step(b, markers, turn, p).1;
    assert Step(b, markers, turn, p).0 == b';
    if status.InProgress? {
      var rest := moves[1..];
      PlayMovesFresh(b', markers, status.turn, rest);
      var r' := Play(b', markers, status.turn, rest).value;
      assert r.placed == r'.placed + 1;
      forall k | 1 <= k < r.placed
        ensures moves[k] == rest[k - 1] && moves[k] != p && b[moves[k]] == Blank
      {
      }
    }
  }

  /**
   * Who placed what: placement k holds the marker of the player whose turn
   * it was, the players alternating strictly from `turn`.
   */
  lemma {:induction false} PlayMarks(b: seq<string>, markers: Markers, turn: Player, moves: seq<int>)
    requires |b| >= 10 && Paired(markers)
    requires Play(b, markers, turn, moves).Some?
    ensures var r := Play(b, markers, turn, moves).value;
      && r.placed <= |moves| && |r.board| == |b|
      && (forall k :: 0 <= k < r.placed ==> 1 <= moves[k] <= 9)
      && (forall k :: 0 <= k < r.placed ==> r.board[moves[k]] == Mark(markers, Mover(turn, k)))
    decreases |moves|
  {
    var r := Play(b, markers, turn, moves).value;
    var p := moves[0];
    var b' := b[p := Mark(markers, turn)];
    var status := Step(b, markers, turn, p).1;
    assert Step(b, markers, turn, p).0 == b';
    if status.InProgress? {
      var rest := moves[1..];
      PlayMarks(b', markers, status.turn, rest);
      PlayMovesFresh(b', markers, status.turn, rest);
      PlayLeavesOthers(b', markers, status.turn, rest);
      var r' := Play(b', markers, status.turn, rest).value;
      assert r == r'.(placed := r'.placed + 1);
      assert p !in rest[..r'.placed];
      forall k | 1 <= k < r.placed
        ensures r.board[moves[k]] == Mark(markers, Mover(turn, k))
      {
        assert moves[k] == rest[k - 1];
        MoverShift(turn, k - 1);
      }
    }
  }

  /** A round changes no slot except the cells its moves name; slot 0 in particular is untouched. */
  lemma {:induction false} PlayLeavesOthers(b: seq<string>, markers: Markers, turn: Player, moves: seq<int>)
    requires |b| >= 10
    requires Play(b, markers, turn, moves).Some?
    ensures var r := Play(b, markers, turn, moves).value;
      && r.placed <= |moves| && |r.board| == |b|
      && (forall i :: 0 <= i < |b| && i !in moves[..r.placed] ==> r.board[i] == b[i])
    decreases |moves|
  {
    var r := Play(b, markers, turn, moves).value;
    var p := moves[0];
    var b' := b[p := Mark(markers, turn)];
    var status := Step(b, markers, turn, p).1;
    assert Step(b, markers, turn, p).0 == b';
    if status.InProgress? {
      var rest := moves[1..];
      PlayLeavesOthers(b', markers, status.turn, rest);
      var r' := Play(b', markers, status.turn, rest).value;
      assert r == r'.(placed := r'.placed + 1);
      forall i | 0 <= i < |b| && i !in moves[..r.placed]
        ensures r.board[i] == b[i]
      {
        assert moves[..r.placed][0] == p;
      }
    }
  }

  /**
   * How a round is scored: a win goes to the player who made the last
   * placement and who then holds a line; a draw leaves the board full with
   * no line for the last mover.
   */
  lemma {:induction false} PlayScore(b: seq<string>, markers: Markers, turn: Player, moves: seq<int>)
    requires |b| >= 10 && Paired(markers)
    requires Play(b, markers, turn, moves).Some?
    ensures var r := Play(b, markers, turn, moves).value;
      && r.placed >= 1 && |r.board| == |b|
      && (r.status.Won? ==>
            r.status.winner == Mover(turn, r.placed - 1)
            && Wins(r.board, Mark(markers, r.status.winner)))
      && (r.status.Drawn? ==>
            IsFull(r.board) && !Wins(r.board, Mark(markers, Mover(turn, r.placed - 1))))
    decreases |moves|
  {
    var (b', status) := Step(b, markers, turn, moves[0]);
    if status.InProgress? {
      PlayScore(b', markers, status.turn, moves[1..]);
      var r' := Play(b', markers, status.turn, moves[1..]).value;
      MoverShift(turn, r'.placed - 1);
    }
  }

  /**
   * A round reads exactly as many moves as it has placements: it has not
   * ended after fewer of them, and what comes after them is never read.
   */
  lemma {:induction false} PlayReadsExactly(b: seq<string>, markers: Markers, turn: Player, moves: seq<int>, n: nat)
    requires |b| >= 10
    requires Play(b, markers, turn, moves).Some?
    requires n <= |moves|
    ensures var r := Play(b, markers, turn, moves).value;
      && (n < r.placed ==> Play(b, markers, turn, moves[..n]) == None)
      && (r.placed <= n ==> Play(b, markers, turn, moves[..n]) == Some(r))
    decreases |moves|
  {
    if n > 0 {
      assert moves[..n][0] == moves[0];
      var (b', status) := Step(b, markers, turn, moves[0]);
      if status.InProgress? {
        PlayReadsExactly(b', markers, status.turn, moves[1..], n - 1);
        assert moves[..n][1..] == moves[1..][..n - 1];
      }
    }
  }

  /**
   * On a fresh board, with the positions entered naming nine distinct cells,
   * the round ends, and within nine placements; a drawn round lasts exactly
   * nine: it ends only when all cells are filled. A won round leaves a line
   * for the winner that the win test sees, and a drawn one a board the
   * full-board test sees as full.
   */
  /** On a fresh board, a round whose positions name nine distinct cells ends. */
  lemma FreshRoundEnds(markers: Markers, first: Player, moves: seq<int>)
    requires Paired(markers) && NineCells(moves)
    ensures Play(NewBoard(), markers, first, moves).Some?
  {
    FreshBoard();
    assert CoversEmpty(NewBoard(), moves);
    PlayEnds(NewBoard(), markers, first, moves);
  }

  lemma FreshRoundLength(markers: Markers, first: Player, moves: seq<int>)
    requires Paired(markers) && NineCells(moves)
    ensures Play(NewBoard(), markers, first, moves).Some?
    ensures var r := Play(NewBoard(), markers, first, moves).value;
      && |r.board| == Slots
      && (r.status.Won? || r.status.Drawn?)
      && 1 <= r.placed <= 9
      && (r.status.Drawn? ==> r.placed == 9 && IsFull(r.board))
      && (r.status.Won? ==> GameWinCheck(r.board, Mark(markers, r.status.winner)))
  {
    FreshBoard();
    FreshRoundEnds(markers, first, moves);
    PlayBounds(NewBoard(), markers, first, moves);
    PlayScore(NewBoard(), markers, first, moves);
    var r := Play(NewBoard(), markers, first, moves).value;
    EmptyCellsBound(r.board);
    if r.status.Won? {
      GameWinCheckIsWinningLine(r.board, Mark(markers, r.status.winner));
    }
  }

  // ---------------------------------------------------------------------
  // The driver.

  /** One pass of the round: a round that ends reads an accepted first move, then ends or goes on. */
  lemma PlayUnfold(b: seq<string>, markers: Markers, turn: Player, moves: seq<int>)
    requires |b| >= 10
    requires Play(b, markers, turn, moves).Some?
    ensures |moves| > 0 && PositionAccepted(b, moves[0])
    ensures var r := Play(b, markers, turn, moves).value;
      var mark := Mark(markers, turn);
      var b' := b[moves[0] := mark];
      if !Wins(b', mark) && !IsFull(b') then
        r.placed > 1 && Play(b', markers, Other(turn), moves[1..]) == Some(r.(placed := r.placed - 1))
      else
        r == Round(b', if Wins(b', mark) then Won(turn) else Drawn, 1)
  {
  }

  /**
   * One round of the driver: reset the board, pair the markers, pick who
   * moves first, ask whether the players are ready, and then, while the
   * game is on, place the mover's marker at the position the prompt
   * returned, test for a win and, if there is none, for a draw, and pass
   * the turn. `moves` are the positions the prompt returns, in order:
   * nine distinct cells, of which the round reads as many as it needs.
   */
  method PlayRound(markerAnswer: string, draw: int, readyAnswer: string, moves: seq<int>)
      returns (board: seq<string>, outcome: Status, placed: nat)
    requires MarkerAccepted(markerAnswer) && YesNoAccepted(readyAnswer)
    requires Upper(readyAnswer) == "Y" ==> NineCells(moves)
    ensures |board| == Slots
    ensures Upper(readyAnswer) == "Y" ==>
              Play(NewBoard(), PlayerInput(markerAnswer), PlayerChoice(draw), moves)
              == Some(Round(board, outcome, placed))
    ensures Upper(readyAnswer) == "Y" ==> (outcome.Won? || outcome.Drawn?) && 1 <= placed <= 9
    ensures Upper(readyAnswer) == "N" ==>
              board == NewBoard() && outcome == InProgress(PlayerChoice(draw)) && placed == 0
    ensures outcome.Won? ==> GameWinCheck(board, Mark(PlayerInput(markerAnswer), outcome.winner))
    ensures outcome.Drawn? ==> IsFull(board)
  {
    var gameBoard := new string[Slots](_ => Blank);
    var markers := PlayerInput(markerAnswer);
    var turn := PlayerChoice(draw);
    var gameOn := Upper(readyAnswer) == "Y";
    assert gameBoard[..] == NewBoard();

    ghost var ready := gameOn;
    if ready {
      FreshRoundEnds(markers, turn, moves);
    }
    ghost var spec: Round :=
      if gameOn then Play(NewBoard(), markers, turn, moves).value
      else Round(NewBoard(), InProgress(turn), 0);
    outcome, placed := InProgress(turn), 0;

    while gameOn
      invariant gameBoard.Length == Slots
      invariant gameOn ==>
                  && outcome == InProgress(turn) && placed < spec.placed && placed <= |moves|
                  && Play(gameBoard[..], markers, turn, moves[placed..])
                     == Some(Round(spec.board, spec.status, spec.placed - placed))
      invariant !gameOn ==>
                  gameBoard[..] == spec.board && outcome == spec.status && placed == spec.placed
      decreases if gameOn then spec.placed - placed else 0
    {
      ghost var before := gameBoard[..];
      PlayUnfold(before, markers, turn, moves[placed..]);
      var mark := Mark(markers, turn);
      var position := moves[placed];
      PlaceMarker(gameBoard, mark, position);
      assert gameBoard[..] == before[position := mark];
      assert moves[placed..][1..] == moves[placed + 1..];
      placed := placed + 1;
      var won := GameWinCheck(gameBoard[..], mark);
      GameWinCheckIsWinningLine(gameBoard[..], mark);
      if won {
        outcome := Won(turn);
        gameOn := false;
      } else {
        var full := FullBoardCheck(gameBoard);
        if full {
          outcome := Drawn;
          break;
        } else {
          turn := Other(turn);
          outcome := InProgress(turn);
        }
      }
    }
    board := gameBoard[..];
    if ready {
      FreshRoundLength(markers, PlayerChoice(draw), moves);
    }
  }
}
