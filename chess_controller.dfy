/**
 * The game logic of js/chessController.js: how a click or a drop selects a piece or plays
 * it, how the game ends after a move (checkmate, stalemate, draw by insufficient material),
 * and when a move may be taken back. Every call into the view is left out.
 *
 * A handler that would stop on a JavaScript TypeError (reading a move out of an undefined
 * entry of the legal moves) returns `failed` and changes nothing, as the thrown error does.
 */
module ChessController {
  import opened Wrappers
  import opened ChessData
  import opened Board
  import opened Attacks
  import opened MoveRules
  import opened Material
  import opened ChessModel

  /** The move from `from` to `to` that the legal moves give in the latest position captures no king, so it can be played. */
  ghost predicate Playing(boards: seq<Pieces>, moveNumber: int, legalMoves: map<Square, MoveMap>, from: Square, to: Square)
  {
    && 0 <= moveNumber < |boards| && from in legalMoves && to in legalMoves[from]
    && KeepsKings(boards[moveNumber], from, to, legalMoves[from][to])
  }

  /** The position after the selected piece on `from` moves to `to` in the latest position, by the kind of move the legal moves give. */
  ghost function Played(boards: seq<Pieces>, moveNumber: int, legalMoves: map<Square, MoveMap>, from: Square, to: Square): Pieces
    requires Playing(boards, moveNumber, legalMoves, from, to)
  {
    Apply(boards[moveNumber], from, to, legalMoves[from][to], moveNumber)
  }

  class Controller {
    const model: Model

    constructor (model: Model)
      ensures this.model == model
    {
      this.model := model;
    }

    /** The selection is empty or names a piece that has legal moves. */
    ghost predicate SelectionOk()
      reads model
    {
      model.currentSquare.None? || model.currentSquare.value in model.legalMoves
    }

    /**
     * How saveMove leaves the game, given the position reached: with no legal move the game
     * is over, won by the side that just moved when the side to move is in check (checkmate)
     * and with no winner otherwise (stalemate); with a legal move left, the game is over, with
     * no winner, exactly when the material is insufficient.
     */
    ghost predicate Outcome()
      reads model
      requires 0 <= model.moveNumber < |model.chessboards|
    {
      var b := model.chessboards[model.moveNumber];
      var p := model.currentPlayer;
      && (model.legalMoves == map[] && InCheck(b, p) ==> model.gameOver && model.winner == Some(1 - p))
      && (model.legalMoves == map[] && !InCheck(b, p) ==> model.gameOver && model.winner.None?)
      && (model.legalMoves != map[] ==> (model.gameOver <==> InsufficientMaterial(b)) && model.winner.None?)
    }

    /** Nothing but the selection differs from the state before. */
    twostate predicate OnlySelectionChanged()
      reads model
    {
      && model.chessboards == old(model.chessboards) && model.moveNumber == old(model.moveNumber)
      && model.currentMoveNumber == old(model.currentMoveNumber) && model.currentPlayer == old(model.currentPlayer)
      && model.legalMoves == old(model.legalMoves) && model.whiteAdvantages == old(model.whiteAdvantages)
      && model.hasStarted == old(model.hasStarted) && model.gameOver == old(model.gameOver) && model.winner == old(model.winner)
    }

    /**
     * The piece on `from` was moved to `to` as saveMove does: the position it reaches is
     * appended, the view follows to it, the game has started, and the game is classified.
     */
    twostate predicate MovePlayed(from: Square, to: Square)
      reads model
    {
      && Playing(old(model.chessboards), old(model.moveNumber), old(model.legalMoves), from, to)
      && model.chessboards == old(model.chessboards) + [Played(old(model.chessboards), old(model.moveNumber), old(model.legalMoves), from, to)]
      && model.moveNumber == old(model.moveNumber) + 1 && model.currentMoveNumber == model.moveNumber
      && model.hasStarted && Outcome()
    }

    /** startGame: the legal moves of the starting position are computed. */
    method StartGame()
      requires model.Valid() && AllWellformed(model.chessboards)
      modifies model
      ensures model.Playable()
      ensures model.chessboards == old(model.chessboards) && model.moveNumber == old(model.moveNumber)
      ensures model.currentSquare == old(model.currentSquare) && model.gameOver == old(model.gameOver)
      ensures model.winner == old(model.winner) && model.currentMoveNumber == old(model.currentMoveNumber)
      ensures model.currentPlayer == old(model.currentPlayer) && model.whiteAdvantages == old(model.whiteAdvantages)
      ensures model.hasStarted == old(model.hasStarted)
    {
      model.CalculateAllMoves();
    }

    /**
     * The end of saveMove, once the move is played: when the side to move has no legal move,
     * the game ends in checkmate (won by the side that just moved) if it is in check and in
     * stalemate (no winner) otherwise; when it has a legal move, the game ends with no winner
     * exactly when the material left is insufficient.
     */
    method CloseIfOver()
      requires model.Playable() && !model.gameOver && model.winner.None?
      modifies model
      ensures model.Playable()
      ensures model.chessboards == old(model.chessboards) && model.moveNumber == old(model.moveNumber)
      ensures model.currentSquare == old(model.currentSquare) && model.legalMoves == old(model.legalMoves)
      ensures model.currentMoveNumber == old(model.currentMoveNumber) && model.currentPlayer == old(model.currentPlayer)
      ensures model.hasStarted == old(model.hasStarted) && model.whiteAdvantages == old(model.whiteAdvantages)
      ensures Outcome()
    {
      ghost var b, p := model.chessboards[model.moveNumber], model.currentPlayer;
      var noLegalMove := model.NoLegalMove();
      if noLegalMove {
        var isChecked := model.CurrentPlayerIsChecked();
        if isChecked {
          var opponent: Player := 1 - model.currentPlayer;
          model.CloseGame(Some(opponent));
        } else {
          model.CloseGame(None);
        }
      } else {
        var isDraw := model.DrawByInsufficientMaterial();
        if isDraw {
          model.CloseGame(None);
        }
      }
      assert model.chessboards[model.moveNumber] == b && model.currentPlayer == p;
    }

    /** saveMove: the selected piece moves to the square, then the game ends if the position calls for it. */
    method SaveMove(square: Square)
      requires model.Playable() && !model.gameOver
      requires model.currentSquare.Some? && model.currentSquare.value in model.legalMoves
      requires square in model.legalMoves[model.currentSquare.value]
      modifies model
      ensures model.Playable()
      ensures MovePlayed(old(model.currentSquare).value, square)
      ensures model.currentSquare == old(model.currentSquare)
    {
      model.SaveMove(square);
      CloseIfOver();
    }

    /** The selected piece moves to the square as saveMove plays it, then the selection is cleared. */
    method PlayAndDeselect(square: Square)
      requires model.Playable() && !model.gameOver
      requires model.currentSquare.Some? && model.currentSquare.value in model.legalMoves
      requires square in model.legalMoves[model.currentSquare.value]
      modifies model
      ensures model.Playable() && model.currentSquare.None?
      ensures MovePlayed(old(model.currentSquare).value, square)
    {
      SaveMove(square);
      model.SetCurrentSquare(None);
    }

    /**
     * clickOnBoard: a square whose piece has legal moves becomes the selection; otherwise,
     * with a piece selected, the move to the square is played when it is legal, and the
     * selection is cleared either way. Nothing happens once the game is over. The handler
     * fails when the selection has no legal moves.
     */
    method ClickOnBoard(square: Square) returns (failed: bool)
      requires model.Playable()
      modifies model
      ensures model.Playable()
      ensures failed <==> !old(model.gameOver) && square !in old(model.legalMoves)
                          && old(model.currentSquare).Some? && old(model.currentSquare).value !in old(model.legalMoves)
      ensures old(model.gameOver) || failed ==> unchanged(model)
      ensures !old(model.gameOver) && square in old(model.legalMoves) ==>
                model.currentSquare == Some(square) && OnlySelectionChanged()
      ensures !old(model.gameOver) && square !in old(model.legalMoves) && old(model.currentSquare).None? ==> unchanged(model)
      ensures !old(model.gameOver) && square !in old(model.legalMoves) && old(model.currentSquare).Some? && !failed ==>
                && model.currentSquare.None?
                && (square in old(model.legalMoves)[old(model.currentSquare).value] ==>
                      MovePlayed(old(model.currentSquare).value, square))
                && (square !in old(model.legalMoves)[old(model.currentSquare).value] ==>
                      OnlySelectionChanged())
      ensures old(SelectionOk()) ==> !failed && SelectionOk()
    {
      failed := false;
      if !model.gameOver {
        var currentSquare := model.currentSquare;
        if square in model.legalMoves {
          model.SetCurrentSquare(Some(square));
        } else if currentSquare.Some? {
          if currentSquare.value !in model.legalMoves {
            failed := true;
            return;
          }
          if square in model.legalMoves[currentSquare.value] {
            PlayAndDeselect(square);
          } else {
            model.SetCurrentSquare(None);
          }
        }
      }
    }

    /**
     * dropPiece: with a piece selected, the move to the square it is dropped on is played
     * when it is legal, and the selection is cleared either way. Nothing happens once the game
     * is over or with nothing selected. A drop outside the board has no square. The handler
     * fails when the selection has no legal moves.
     */
    method DropPiece(square: Option<Square>) returns (failed: bool)
      requires model.Playable()
      modifies model
      ensures model.Playable()
      ensures failed <==> !old(model.gameOver) && old(model.currentSquare).Some? && old(model.currentSquare).value !in old(model.legalMoves)
      ensures old(model.gameOver) || old(model.currentSquare).None? || failed ==> unchanged(model)
      ensures !old(model.gameOver) && old(model.currentSquare).Some? && !failed ==>
                && model.currentSquare.None?
                && (square.Some? && square.value in old(model.legalMoves)[old(model.currentSquare).value] ==>
                      MovePlayed(old(model.currentSquare).value, square.value))
                && (!(square.Some? && square.value in old(model.legalMoves)[old(model.currentSquare).value]) ==>
                      OnlySelectionChanged())
      ensures old(SelectionOk()) ==> !failed && SelectionOk()
    {
      failed := false;
      if !model.gameOver {
        var currentSquare := model.currentSquare;
        if currentSquare.Some? {
          if currentSquare.value !in model.legalMoves {
            failed := true;
            return;
          }
          if square.Some? && square.value in model.legalMoves[currentSquare.value] {
            PlayAndDeselect(square.value);
          } else {
            model.SetCurrentSquare(None);
          }
        }
      }
    }

    /** cancelMove as written: the move is taken back only while the game is on and a move has been played; the selection is kept. */
    method CancelMoveAsWritten()
      requires model.Playable()
      modifies model
      ensures model.Playable()
      ensures !old(model.gameOver) && old(model.moveNumber) > 0 ==>
                && model.chessboards == old(model.chessboards)[..old(model.moveNumber)]
                && model.moveNumber == old(model.moveNumber) - 1 && model.currentMoveNumber == model.moveNumber
                && model.currentPlayer == 1 - old(model.currentPlayer)
                && model.currentSquare == old(model.currentSquare)
                && !model.gameOver && model.winner == old(model.winner)
                && model.whiteAdvantages == old(model.whiteAdvantages) && model.hasStarted == old(model.hasStarted)
      ensures old(model.gameOver) || old(model.moveNumber) == 0 ==> unchanged(model)
    {
      if !model.gameOver {
        if model.moveNumber > 0 {
          model.CancelMove();
        }
      }
    }

    /** cancelMove with the selection cleared when the move is taken back, so that no stale selection survives. */
    method CancelMove()
      requires model.Playable()
      modifies model
      ensures model.Playable()
      ensures !old(model.gameOver) && old(model.moveNumber) > 0 ==>
                && model.chessboards == old(model.chessboards)[..old(model.moveNumber)]
                && model.moveNumber == old(model.moveNumber) - 1 && model.currentMoveNumber == model.moveNumber
                && model.currentPlayer == 1 - old(model.currentPlayer)
                && model.currentSquare.None?
                && !model.gameOver && model.winner == old(model.winner)
                && model.whiteAdvantages == old(model.whiteAdvantages) && model.hasStarted == old(model.hasStarted)
      ensures old(model.gameOver) || old(model.moveNumber) == 0 ==> unchanged(model)
      ensures old(SelectionOk()) ==> SelectionOk()
    {
      if !model.gameOver {
        if model.moveNumber > 0 {
          model.CancelMove();
          model.SetCurrentSquare(None);
        }
      }
    }
  }

  /** Only a square holding a piece of the player can start one of the player's moves. */
  lemma NotOwnedNotMovable(b: Pieces, player: Player, moveNumber: int, variant: string, s: Square)
    requires s in b ==> b[s].player != player
    ensures s !in AllMovesSpec(b, player, moveNumber, variant)
  {
  }

  /**
   * With cancelMove as written, a selection made by the side to move outlives the take-back:
   * the side that now moves has no legal moves from that square (it was empty or held a piece
   * of the other side before the cancelled move), so clicking it again fails.
   */
  method StaleSelectionAfterCancel(c: Controller) returns (failed: bool)
    requires c.model.Playable() && !c.model.gameOver && c.model.moveNumber > 0
    requires c.model.currentSquare.Some?
    requires var selected := c.model.currentSquare.value;
      var previous := c.model.chessboards[c.model.moveNumber - 1];
      selected in previous ==> previous[selected].player == c.model.currentPlayer
    modifies c.model
    ensures failed
  {
    var selected := c.model.currentSquare.value;
    ghost var previous := c.model.chessboards[c.model.moveNumber - 1];
    ghost var player := c.model.currentPlayer;
    c.CancelMoveAsWritten();
    assert c.model.chessboards[c.model.moveNumber] == previous;
    assert c.model.currentPlayer == 1 - player;
    NotOwnedNotMovable(previous, 1 - player, c.model.moveNumber, c.model.variant, selected);
    assert selected !in c.model.legalMoves;
    failed := c.ClickOnBoard(selected);
  }

  /** With the corrected cancelMove, the click that follows a take-back never fails. */
  method ClickAfterCancel(c: Controller, square: Square) returns (failed: bool)
    requires c.model.Playable() && c.SelectionOk()
    modifies c.model
    ensures !failed && c.SelectionOk()
  {
    c.CancelMove();
    failed := c.ClickOnBoard(square);
  }
}
