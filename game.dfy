/** The game-state controller of the CyberChess component: the board, the
    side to move, White's selected square, the two capture lists, the
    game-over flag and the winner (the component's useState cells), and the
    operations that change them: executeMove, makeComputerMove,
    handleSquareClick and resetGame (src/CyberChess.jsx). */
module Game {
  import opened Pieces
  import opened Rules
  import opened MoveGen
  import opened Scoring
  import opened Computer

  /** The whole state at one instant. `lastCaptured` stands for capturedInfo,
      the vulnerability card of the last captured kind. */
  datatype Snapshot = Snapshot(
    board: Board,
    selected: Option<Pos>,
    turn: Colour,
    lastCaptured: Option<Kind>,
    whiteCaptures: seq<Kind>,
    blackCaptures: seq<Kind>,
    gameOver: bool,
    winner: Option<Colour>)

  /** The state after resetGame, and at mount. */
  function Initial(): Snapshot
  {
    Snapshot(InitialBoard, None, White, None, [], [], false, None)
  }

  /** The invariant of the click/turn state machine: a winner is recorded
      exactly when the game is over, and a selection exists only on White's
      turn in a running game and always marks a White piece. */
  predicate Consistent(s: Snapshot)
  {
    && (s.gameOver <==> s.winner.Some?)
    && (s.selected.Some? ==>
          s.turn == White && !s.gameOver && IsColourAt(s.board, s.selected.value, White))
  }

  /** The board after the piece on `from` is moved to `to`: `to` is set first,
      then `from` is emptied. */
  function Moved(b: Board, from: Pos, to: Pos): Board
  {
    Put(Put(b, to, At(b, from)), from, None)
  }

  /** executeMove as a function of the state before it. */
  function AfterMove(s: Snapshot, from: Pos, to: Pos): Snapshot
    requires At(s.board, from).Some?
  {
    var mover := At(s.board, from).value;
    var target := At(s.board, to);
    var s' :=
      if target.None? then s
      else
        var kind := target.value.kind;
        s.(lastCaptured := Some(kind),
           whiteCaptures := if mover.colour == White then s.whiteCaptures + [kind] else s.whiteCaptures,
           blackCaptures := if mover.colour == White then s.blackCaptures else s.blackCaptures + [kind],
           gameOver := if kind == King then true else s.gameOver,
           winner := if kind == King then Some(mover.colour) else s.winner);
    s'.(board := Moved(s.board, from, to), turn := Opponent(s.turn))
  }

  /** handleSquareClick as a function of the state before it. */
  function AfterClick(s: Snapshot, row: Coord, col: Coord): Snapshot
    requires Consistent(s)
  {
    var p := Pos(row, col);
    if s.gameOver || s.turn != White then s
    else match s.selected
      case Some(sel) =>
        if sel == p then s.(selected := None)
        else if ValidMove(s.board, sel, p, At(s.board, sel).value) then
          AfterMove(s, sel, p).(selected := None)
        else if IsColourAt(s.board, p, White) then s.(selected := Some(p))
        else s
      case None =>
        if IsColourAt(s.board, p, White) then s.(selected := Some(p)) else s
  }

  /** makeComputerMove when Black has no legal move: White wins, nothing else changes. */
  function AfterNoMove(s: Snapshot): Snapshot
  {
    s.(gameOver := true, winner := Some(White))
  }

  // ---------------------------------------------------------------------------
  // Properties of a move

  /** Exactly two squares change: `to` receives the mover, `from` is emptied. */
  lemma MoveFrame(s: Snapshot, from: Pos, to: Pos)
    requires At(s.board, from).Some? && from != to
    ensures var s' := AfterMove(s, from, to);
      && At(s'.board, to) == At(s.board, from)
      && At(s'.board, from).None?
      && forall p :: p != from && p != to ==> At(s'.board, p) == At(s.board, p)
  {
  }

  /** A capture is recorded in the mover's list only, and the lists only grow. */
  lemma MoveRecordsCapture(s: Snapshot, from: Pos, to: Pos)
    requires At(s.board, from).Some?
    ensures var s' := AfterMove(s, from, to);
      var mover := At(s.board, from).value.colour;
      && s.whiteCaptures <= s'.whiteCaptures
      && s.blackCaptures <= s'.blackCaptures
      && (At(s.board, to).None? ==>
            s'.whiteCaptures == s.whiteCaptures && s'.blackCaptures == s.blackCaptures
            && s'.lastCaptured == s.lastCaptured)
      && (At(s.board, to).Some? ==>
            var kind := At(s.board, to).value.kind;
            && s'.lastCaptured == Some(kind)
            && (mover == White ==> s'.whiteCaptures == s.whiteCaptures + [kind] && s'.blackCaptures == s.blackCaptures)
            && (mover == Black ==> s'.blackCaptures == s.blackCaptures + [kind] && s'.whiteCaptures == s.whiteCaptures))
  {
  }

  /** Capturing a King ends the game in the mover's favour; any other move
      leaves the game-over flag and the winner as they were. */
  lemma KingCaptureEndsGame(s: Snapshot, from: Pos, to: Pos)
    requires At(s.board, from).Some?
    ensures var s' := AfterMove(s, from, to);
      if At(s.board, to).Some? && At(s.board, to).value.kind == King
      then s'.gameOver && s'.winner == Some(At(s.board, from).value.colour)
      else s'.gameOver == s.gameOver && s'.winner == s.winner
  {
  }

  /** The side to move always flips, the winning move included. */
  lemma MoveFlipsTurn(s: Snapshot, from: Pos, to: Pos)
    requires At(s.board, from).Some?
    ensures AfterMove(s, from, to).turn == Opponent(s.turn)
  {
  }

  /** A move with no selection pending keeps the state machine's invariant. */
  lemma MoveKeepsConsistent(s: Snapshot, from: Pos, to: Pos)
    requires Consistent(s) && s.selected.None? && At(s.board, from).Some?
    ensures Consistent(AfterMove(s, from, to))
  {
  }

  // ---------------------------------------------------------------------------
  // Properties of a click

  /** Every click keeps the invariant. */
  lemma ClickKeepsConsistent(s: Snapshot, row: Coord, col: Coord)
    requires Consistent(s)
    ensures Consistent(AfterClick(s, row, col))
  {
    var p := Pos(row, col);
    if !s.gameOver && s.turn == White && s.selected.Some? && s.selected.value != p
       && ValidMove(s.board, s.selected.value, p, At(s.board, s.selected.value).value) {
      MoveKeepsConsistent(s.(selected := None), s.selected.value, p);
    }
  }

  /** Clicks are ignored once the game is over and while Black is to move. */
  lemma ClickIgnoredOutOfTurn(s: Snapshot, row: Coord, col: Coord)
    requires Consistent(s) && (s.gameOver || s.turn == Black)
    ensures AfterClick(s, row, col) == s
  {
  }

  /** Clicking the selected square again deselects it and changes nothing else. */
  lemma ClickSelectedDeselects(s: Snapshot, row: Coord, col: Coord)
    requires Consistent(s) && s.selected == Some(Pos(row, col))
    ensures AfterClick(s, row, col) == s.(selected := None)
  {
  }

  /** A click changes the board only by playing a legal move of the selected
      White piece to the clicked square, and then hands the turn to Black. */
  lemma ClickMovesOnlyLegally(s: Snapshot, row: Coord, col: Coord)
    requires Consistent(s)
    ensures var s' := AfterClick(s, row, col);
      s'.board != s.board ==>
        && s.selected.Some?
        && s.turn == White && !s.gameOver
        && ValidMove(s.board, s.selected.value, Pos(row, col), At(s.board, s.selected.value).value)
        && s'.board == Moved(s.board, s.selected.value, Pos(row, col))
        && s'.selected.None? && s'.turn == Black
  {
  }

  /** A click that plays no move leaves everything but the selection alone,
      and selects only White pieces. */
  lemma ClickOtherwiseSelects(s: Snapshot, row: Coord, col: Coord)
    requires Consistent(s)
    ensures var s' := AfterClick(s, row, col);
      s'.turn == s.turn ==>
        && s' == s.(selected := s'.selected)
        && (s'.selected.Some? ==> IsColourAt(s.board, s'.selected.value, White))
        && (s'.selected.Some? && s'.selected != s.selected ==> s'.selected == Some(Pos(row, col)))
  {
  }

  /** With a piece selected, clicking a legal target plays the move and
      clears the selection. */
  lemma ClickLegalTargetMoves(s: Snapshot, row: Coord, col: Coord)
    requires Consistent(s) && !s.gameOver && s.turn == White
    requires s.selected.Some? && s.selected.value != Pos(row, col)
    requires ValidMove(s.board, s.selected.value, Pos(row, col), At(s.board, s.selected.value).value)
    ensures AfterClick(s, row, col) == AfterMove(s, s.selected.value, Pos(row, col)).(selected := None)
  {
  }

  /** On White's turn, clicking a White piece other than the selected one
      selects it, whether or not a piece was selected before. */
  lemma ClickWhitePieceSelects(s: Snapshot, row: Coord, col: Coord)
    requires Consistent(s) && !s.gameOver && s.turn == White
    requires s.selected != Some(Pos(row, col)) && IsColourAt(s.board, Pos(row, col), White)
    ensures AfterClick(s, row, col) == s.(selected := Some(Pos(row, col)))
  {
  }

  /** Any other click (not the selected square, not a White piece, not a legal
      target of the selected piece) changes nothing: the selection is kept. */
  lemma ClickElsewhereKeepsState(s: Snapshot, row: Coord, col: Coord)
    requires Consistent(s)
    requires s.selected != Some(Pos(row, col)) && !IsColourAt(s.board, Pos(row, col), White)
    requires s.selected.Some? ==>
      !ValidMove(s.board, s.selected.value, Pos(row, col), At(s.board, s.selected.value).value)
    ensures AfterClick(s, row, col) == s
  {
  }

  /** From the starting position White clicks its King's pawn and then the
      square two ahead: the pawn advances, the turn passes to Black, and
      Black has a reply. */
  lemma OpeningDoubleStep()
    ensures var s1 := AfterClick(Initial(), 6, 4);
      && Consistent(s1) && s1.selected == Some(Pos(6, 4))
      && var s2 := AfterClick(s1, 4, 4);
      && s2.turn == Black && s2.selected.None? && !s2.gameOver
      && At(s2.board, Pos(4, 4)) == Some(Piece(Pawn, White)) && At(s2.board, Pos(6, 4)).None?
      && HasMove(s2.board, Black)
  {
    var s1 := AfterClick(Initial(), 6, 4);
    assert At(InitialBoard, Pos(6, 4)) == Some(Piece(Pawn, White));
    assert s1.selected == Some(Pos(6, 4));
    assert ValidMove(InitialBoard, Pos(6, 4), Pos(4, 4), Piece(Pawn, White)) by {
      assert At(InitialBoard, Pos(5, 4)).None? && At(InitialBoard, Pos(4, 4)).None?;
    }
    var s2 := AfterClick(s1, 4, 4);
    var reply := Move(Pos(1, 4), Pos(2, 4), Piece(Pawn, Black));
    assert At(s2.board, Pos(1, 4)) == Some(Piece(Pawn, Black)) && At(s2.board, Pos(2, 4)).None?;
    assert LegalFor(s2.board, Black, reply);
  }

  // ---------------------------------------------------------------------------
  // The component's state, updated in place

  class GameState {
    var board: Board
    var selected: Option<Pos>
    var turn: Colour
    var lastCaptured: Option<Kind>
    var whiteCaptures: seq<Kind>
    var blackCaptures: seq<Kind>
    var gameOver: bool
    var winner: Option<Colour>

    function View(): Snapshot
      reads this
    {
      Snapshot(board, selected, turn, lastCaptured, whiteCaptures, blackCaptures, gameOver, winner)
    }

    predicate Valid()
      reads this
    {
      Consistent(View())
    }

    /** The component at mount: the standard position, White to move. */
    constructor ()
      ensures Valid() && View() == Initial()
    {
      board := InitialBoard;
      selected := None;
      turn := White;
      lastCaptured := None;
      whiteCaptures := [];
      blackCaptures := [];
      gameOver := false;
      winner := None;
    }

    /** resetGame: back to the starting position from any state. */
    method ResetGame()
      modifies this
      ensures Valid() && View() == Initial()
    {
      board := InitialBoard;
      selected := None;
      turn := White;
      lastCaptured := None;
      whiteCaptures := [];
      blackCaptures := [];
      gameOver := false;
      winner := None;
    }

    /** executeMove: move the piece on `from` to `to` on a copy of the board,
        record a capture, end the game on a King capture, flip the turn. */
    method ExecuteMove(from: Pos, to: Pos)
      requires At(board, from).Some?
      modifies this
      ensures View() == AfterMove(old(View()), from, to)
    {
      var piece := At(board, from);
      var newBoard := board;
      var capturedPiece := At(newBoard, to);
      if capturedPiece.Some? {
        var vulnType := capturedPiece.value.kind;
        lastCaptured := Some(vulnType);
        if piece.value.colour == White {
          whiteCaptures := whiteCaptures + [vulnType];
        } else {
          blackCaptures := blackCaptures + [vulnType];
        }
        if vulnType == King {
          gameOver := true;
          winner := Some(piece.value.colour);
        }
      }
      newBoard := Put(newBoard, to, piece);
      newBoard := Put(newBoard, from, None);
      board := newBoard;
      turn := Opponent(turn);
    }

    /** makeComputerMove: Black loses when it has no legal move; otherwise the
        first best-scoring generated move is played. `jitter` is the random
        source; `played` reports the move chosen, if any. */
    method MakeComputerMove(jitter: Move -> real) returns (ghost played: Option<Move>)
      requires Valid() && turn == Black && !gameOver
      requires JitterInRange(jitter)
      modifies this
      ensures Valid()
      ensures played.None? <==> !HasMove(old(board), Black)
      ensures played.None? ==> View() == AfterNoMove(old(View()))
      ensures played.Some? ==>
        && LegalFor(old(board), Black, played.value)
        && BestFor(old(board), Black, played.value, jitter)
        && View() == AfterMove(old(View()), played.value.from, played.value.to)
    {
      var validMoves := GetAllValidMoves(board, Black);
      if |validMoves| == 0 {
        gameOver := true;
        winner := Some(White);
        played := None;
        return;
      }
      var best := SelectBestMove(board, validMoves, jitter);
      var bestMove := validMoves[best];
      ListBestIsBest(board, Black, validMoves, jitter, best);
      played := Some(bestMove);
      MoveKeepsConsistent(View(), bestMove.from, bestMove.to);
      ExecuteMove(bestMove.from, bestMove.to);
    }

    /** handleSquareClick for White's clicks on square (row, col). */
    method HandleSquareClick(row: Coord, col: Coord)
      requires Valid()
      modifies this
      ensures Valid()
      ensures View() == AfterClick(old(View()), row, col)
    {
      ClickKeepsConsistent(View(), row, col);
      if gameOver || turn != White {
        return;
      }
      var p := Pos(row, col);
      match selected {
        case Some(sel) =>
          var piece := At(board, sel).value;
          if sel == p {
            selected := None;
            return;
          }
          var legal := IsValidMove(board, sel, p, piece);
          if legal {
            ExecuteMove(sel, p);
            selected := None;
            return;
          }
          var clickedPiece := At(board, p);
          if clickedPiece.Some? && clickedPiece.value.colour == White {
            selected := Some(p);
            return;
          }
        case None =>
          var clicked := At(board, p);
          if clicked.Some? && clicked.value.colour == White {
            selected := Some(p);
          }
      }
    }
  }

  /** The opening driven through the component's operations: White plays the
      King's pawn two squares by two clicks, then the computer replies with
      one legal move and the turn is White's again. */
  method OpeningScenario(jitter: Move -> real) returns (g: GameState, ghost reply: Move)
    requires JitterInRange(jitter)
    ensures g.Valid() && g.turn == White
    ensures LegalFor(AfterClick(AfterClick(Initial(), 6, 4), 4, 4).board, Black, reply)
    ensures g.board == Moved(AfterClick(AfterClick(Initial(), 6, 4), 4, 4).board, reply.from, reply.to)
  {
    OpeningDoubleStep();
    g := new GameState();
    g.HandleSquareClick(6, 4);
    g.HandleSquareClick(4, 4);
    var played := g.MakeComputerMove(jitter);
    reply := played.value;
  }
}
