/**
 * The game state of js/chessModel.js: the append-only history of positions, the move
 * counters, the side to move, the current selection and legal moves, the material
 * history and the end of the game. The clocks the model owns are left to the Clock class.
 */
module ChessModel {
  import opened Wrappers
  import opened ChessData
  import opened ChessPiece
  import opened Board
  import opened Attacks
  import opened MoveRules
  import opened Material
  import opened Chessboards
  import opened Setup

  /** One position per ply up to `moveNumber`, with the material balance of each recorded. */
  ghost predicate History(boards: seq<Pieces>, moveNumber: int, advantages: seq<int>)
  {
    && |boards| == moveNumber + 1 && 0 <= moveNumber < |advantages|
    && forall i :: 0 <= i <= moveNumber ==> advantages[i] == WhiteAdvantage(boards[i])
  }

  /** Every position of the history has one king per colour. */
  ghost predicate AllWellformed(boards: seq<Pieces>)
  {
    forall i :: 0 <= i < |boards| ==> Wellformed(boards[i])
  }

  /** Dropping the latest position keeps the history of the earlier ones. */
  lemma HistoryPrefix(boards: seq<Pieces>, moveNumber: int, advantages: seq<int>)
    requires History(boards, moveNumber, advantages) && AllWellformed(boards) && moveNumber > 0
    ensures History(boards[..moveNumber], moveNumber - 1, advantages) && AllWellformed(boards[..moveNumber])
  {
  }

  /** Appending a well-formed position and recording its balance extends the history. */
  lemma HistoryAppend(boards: seq<Pieces>, moveNumber: int, advantages: seq<int>, board: Pieces, newAdvantages: seq<int>)
    requires History(boards, moveNumber, advantages) && AllWellformed(boards) && Wellformed(board)
    requires moveNumber + 1 < |newAdvantages| && newAdvantages[..moveNumber + 1] == advantages[..moveNumber + 1]
    requires newAdvantages[moveNumber + 1] == WhiteAdvantage(board)
    ensures History(boards + [board], moveNumber + 1, newAdvantages) && AllWellformed(boards + [board])
  {
    forall i | 0 <= i <= moveNumber
      ensures newAdvantages[i] == WhiteAdvantage((boards + [board])[i])
    {
      assert newAdvantages[i] == newAdvantages[..moveNumber + 1][i];
    }
  }

  /** A generated move can be played, keeps one king per colour and leaves its player out of check. */
  lemma LegalMoveFacts(b: Pieces, player: Player, moveNumber: int, variant: string, square: Square, newSquare: Square, kind: MoveKind)
    requires Wellformed(b)
    requires square in AllMovesSpec(b, player, moveNumber, variant) && newSquare in AllMovesSpec(b, player, moveNumber, variant)[square]
    requires kind == AllMovesSpec(b, player, moveNumber, variant)[square][newSquare]
    ensures KeepsKings(b, square, newSquare, kind)
    ensures Wellformed(Apply(b, square, newSquare, kind, moveNumber)) && !InCheck(Apply(b, square, newSquare, kind, moveNumber), player)
  {
    AllMovesSound(b, player, moveNumber, variant, square, newSquare);
  }

  /** The side to move alternates with the ply. */
  lemma ParityStep(n: int)
    ensures (n + 1) % 2 == 1 - n % 2
  {
  }

  class Model {
    const variant: string
    /** One position per ply, the starting position first. */
    var chessboards: seq<Pieces>
    var moveNumber: int
    /** The ply on display, which may be an earlier one. */
    var currentMoveNumber: int
    var currentPlayer: Player
    var currentSquare: Option<Square>
    var legalMoves: map<Square, MoveMap>
    var whiteAdvantages: seq<int>
    var hasStarted: bool
    var gameOver: bool
    var winner: Option<Player>

    /**
     * The bookkeeping every state keeps: one position per ply, the displayed ply among them,
     * White moving on even plies, and the material balance recorded for every ply.
     */
    ghost predicate Valid()
      reads this
    {
      && 0 <= currentMoveNumber <= moveNumber
      && History(chessboards, moveNumber, whiteAdvantages)
      && currentPlayer == moveNumber % 2
      && (winner.Some? ==> gameOver)
    }

    /** A game in progress: every position has one king per colour and the legal moves are those of the latest position. */
    ghost predicate Playable()
      reads this
    {
      && Valid()
      && AllWellformed(chessboards)
      && legalMoves == AllMovesSpec(chessboards[moveNumber], currentPlayer, moveNumber, variant)
    }

    /** A new game: the starting position of the page-wide variant, White to move, nothing selected. */
    constructor (variant: string, globalVariant: string, draws: seq<int>)
      requires RandomDraws(draws)
      ensures Valid()
      ensures this.variant == variant && |chessboards| == 1 && moveNumber == 0 && currentMoveNumber == 0
      ensures currentPlayer == WHITE && currentSquare.None? && legalMoves == map[] && whiteAdvantages == [0]
      ensures !hasStarted && !gameOver && winner.None?
      ensures globalVariant == "std" ==> chessboards[0] == Position(NAMES)
      ensures globalVariant == "960" ==> exists names :: Chess960Rank(names) && chessboards[0] == Position(names)
      ensures globalVariant == "std" || globalVariant == "960" ==> Wellformed(chessboards[0])
      ensures globalVariant != "std" && globalVariant != "960" ==> chessboards[0] == map[]
    {
      var pieces := SetupChessboard(globalVariant, draws);
      if globalVariant == "std" {
        StandardRankIs960();
        SetupFacts(NAMES);
        assert WhiteAdvantage(pieces) == 0;
      } else if globalVariant == "960" {
        ghost var names :| Chess960Rank(names) && pieces == Position(names);
        SetupFacts(names);
        assert WhiteAdvantage(pieces) == 0;
      } else {
        CountInEmpty(pieces, WHITE, Some(Pawn));
        CountInEmpty(pieces, BLACK, Some(Pawn));
        CountInEmpty(pieces, WHITE, Some(Knight));
        CountInEmpty(pieces, BLACK, Some(Knight));
        CountInEmpty(pieces, WHITE, Some(Bishop));
        CountInEmpty(pieces, BLACK, Some(Bishop));
        CountInEmpty(pieces, WHITE, Some(Rook));
        CountInEmpty(pieces, BLACK, Some(Rook));
        CountInEmpty(pieces, WHITE, Some(Queen));
        CountInEmpty(pieces, BLACK, Some(Queen));
        assert WhiteAdvantage(pieces) == 0;
      }
      this.variant := variant;
      chessboards := [pieces];
      moveNumber := 0;
      currentMoveNumber := 0;
      currentPlayer := WHITE;
      currentSquare := None;
      legalMoves := map[];
      whiteAdvantages := [0];
      hasStarted := false;
      gameOver := false;
      winner := None;
    }

    /** setCurrentSquare: only the selection changes. */
    method SetCurrentSquare(square: Option<Square>)
      modifies this
      ensures currentSquare == square
      ensures chessboards == old(chessboards) && moveNumber == old(moveNumber) && currentMoveNumber == old(currentMoveNumber)
      ensures currentPlayer == old(currentPlayer) && legalMoves == old(legalMoves) && whiteAdvantages == old(whiteAdvantages)
      ensures hasStarted == old(hasStarted) && gameOver == old(gameOver) && winner == old(winner)
      ensures old(Playable()) ==> Playable()
    {
      currentSquare := square;
    }

    /** calculateAllMoves: the legal moves of the side to move in the latest position. */
    method CalculateAllMoves()
      requires 0 <= moveNumber < |chessboards| && Wellformed(chessboards[moveNumber])
      modifies this
      ensures chessboards == old(chessboards) && moveNumber == old(moveNumber) && currentMoveNumber == old(currentMoveNumber)
      ensures currentPlayer == old(currentPlayer) && currentSquare == old(currentSquare) && whiteAdvantages == old(whiteAdvantages)
      ensures hasStarted == old(hasStarted) && gameOver == old(gameOver) && winner == old(winner)
      ensures legalMoves == AllMovesSpec(chessboards[moveNumber], currentPlayer, moveNumber, variant)
    {
      var chessboard := new Chessboard(chessboards[moveNumber]);
      legalMoves := chessboard.AllMoves(currentPlayer, moveNumber, variant);
    }

    /**
     * calculateAdvantage: records the material balance of the latest position at its ply,
     * overwriting an entry left by a cancelled move or appending a new one.
     */
    method CalculateAdvantage()
      requires 0 <= moveNumber < |chessboards| && moveNumber <= |whiteAdvantages|
      modifies this
      ensures chessboards == old(chessboards) && moveNumber == old(moveNumber) && currentMoveNumber == old(currentMoveNumber)
      ensures currentPlayer == old(currentPlayer) && currentSquare == old(currentSquare) && legalMoves == old(legalMoves)
      ensures hasStarted == old(hasStarted) && gameOver == old(gameOver) && winner == old(winner)
      ensures |whiteAdvantages| == if moveNumber < |old(whiteAdvantages)| then |old(whiteAdvantages)| else moveNumber + 1
      ensures whiteAdvantages[moveNumber] == WhiteAdvantage(chessboards[moveNumber])
      ensures whiteAdvantages[..moveNumber] == old(whiteAdvantages)[..moveNumber]
      ensures moveNumber < |old(whiteAdvantages)| ==> whiteAdvantages[moveNumber + 1..] == old(whiteAdvantages)[moveNumber + 1..]
    {
      var chessboard := new Chessboard(chessboards[moveNumber]);
      var advantage := chessboard.CalculateWhiteAdvantage();
      if moveNumber < |whiteAdvantages| {
        whiteAdvantages := whiteAdvantages[moveNumber := advantage];
      } else {
        whiteAdvantages := whiteAdvantages + [advantage];
      }
    }

    /**
     * saveMove: plays the selected piece to `newSquare` on a copy of the latest position and
     * appends it; the counters advance, the other side is to move, and its legal moves and
     * the new material balance are computed. Earlier positions are untouched.
     */
    method SaveMove(newSquare: Square)
      requires Playable()
      requires currentSquare.Some? && currentSquare.value in legalMoves && newSquare in legalMoves[currentSquare.value]
      modifies this
      ensures Playable()
      ensures var square := old(currentSquare).value;
        var kind := old(legalMoves)[square][newSquare];
        && KeepsKings(old(chessboards)[old(moveNumber)], square, newSquare, kind)
        && chessboards == old(chessboards) + [Apply(old(chessboards)[old(moveNumber)], square, newSquare, kind, old(moveNumber))]
      ensures moveNumber == old(moveNumber) + 1 && currentMoveNumber == moveNumber
      ensures currentPlayer == 1 - old(currentPlayer)
      ensures !InCheck(chessboards[moveNumber], old(currentPlayer))
      ensures hasStarted && currentSquare == old(currentSquare) && gameOver == old(gameOver) && winner == old(winner)
      ensures |whiteAdvantages| >= |old(whiteAdvantages)|
    {
      var square := currentSquare.value;
      var kind := legalMoves[square][newSquare];
      LegalMoveFacts(chessboards[moveNumber], currentPlayer, moveNumber, variant, square, newSquare, kind);
      hasStarted := true;
      var newChessboard := new Chessboard(chessboards[moveNumber]);
      newChessboard.Move(square, newSquare, kind, moveNumber);
      PushPosition(newChessboard.pieces);
    }

    /**
     * The bookkeeping of saveMove once the new position is computed: it is appended, the
     * counters advance, the other side is to move, and its legal moves and the material
     * balance of the new position are computed.
     */
    method PushPosition(moved: Pieces)
      requires Valid() && AllWellformed(chessboards) && Wellformed(moved)
      modifies this
      ensures Playable()
      ensures chessboards == old(chessboards) + [moved]
      ensures moveNumber == old(moveNumber) + 1 && currentMoveNumber == moveNumber
      ensures currentPlayer == 1 - old(currentPlayer)
      ensures hasStarted == old(hasStarted) && currentSquare == old(currentSquare) && gameOver == old(gameOver) && winner == old(winner)
      ensures |whiteAdvantages| >= |old(whiteAdvantages)|
    {
      ghost var boards, advantages := chessboards, whiteAdvantages;
      ParityStep(moveNumber);
      assert Wellformed(moved);
      chessboards := chessboards + [moved];
      moveNumber := moveNumber + 1;
      currentMoveNumber := moveNumber;
      currentPlayer := 1 - currentPlayer;
      CalculateAllMoves();
      CalculateAdvantage();
      HistoryAppend(boards, moveNumber - 1, advantages, moved, whiteAdvantages);
    }

    /**
     * goToAnotherMove: moves the displayed ply to the first, previous, next or last one,
     * staying within the game; any other option changes nothing.
     */
    method GoToAnotherMove(option: string)
      requires Valid()
      modifies this
      ensures Valid()
      ensures currentMoveNumber == (
        if option == "first" then 0
        else if option == "previous" then (if old(currentMoveNumber) > 0 then old(currentMoveNumber) - 1 else old(currentMoveNumber))
        else if option == "next" then (if old(currentMoveNumber) < moveNumber then old(currentMoveNumber) + 1 else old(currentMoveNumber))
        else if option == "last" then moveNumber
        else old(currentMoveNumber))
      ensures chessboards == old(chessboards) && moveNumber == old(moveNumber) && currentPlayer == old(currentPlayer)
      ensures currentSquare == old(currentSquare) && legalMoves == old(legalMoves) && whiteAdvantages == old(whiteAdvantages)
      ensures hasStarted == old(hasStarted) && gameOver == old(gameOver) && winner == old(winner)
    {
      if option == "first" {
        currentMoveNumber := 0;
      } else if option == "previous" {
        if currentMoveNumber > 0 {
          currentMoveNumber := currentMoveNumber - 1;
        }
      } else if option == "next" {
        if currentMoveNumber < moveNumber {
          currentMoveNumber := currentMoveNumber + 1;
        }
      } else if option == "last" {
        currentMoveNumber := moveNumber;
      }
    }

    /**
     * cancelMove: drops the latest position, gives the move back and recomputes the legal
     * moves. The recorded balances are not truncated and the selection is kept.
     */
    method CancelMove()
      requires Playable() && moveNumber > 0
      modifies this
      ensures Playable()
      ensures chessboards == old(chessboards)[..old(moveNumber)]
      ensures moveNumber == old(moveNumber) - 1 && currentMoveNumber == moveNumber
      ensures currentPlayer == 1 - old(currentPlayer)
      ensures currentSquare == old(currentSquare) && whiteAdvantages == old(whiteAdvantages)
      ensures hasStarted == old(hasStarted) && gameOver == old(gameOver) && winner == old(winner)
    {
      HistoryPrefix(chessboards, moveNumber, whiteAdvantages);
      ParityStep(moveNumber - 1);
      var previous := chessboards[..moveNumber];
      chessboards := previous;
      moveNumber := moveNumber - 1;
      currentMoveNumber := moveNumber;
      currentPlayer := 1 - currentPlayer;
      CalculateAllMoves();
    }

    /** currentPlayerIsChecked: whether the side to move is in check in the latest position. */
    method CurrentPlayerIsChecked() returns (isChecked: bool)
      requires Playable()
      ensures isChecked == InCheck(chessboards[moveNumber], currentPlayer)
    {
      var chessboard := new Chessboard(chessboards[moveNumber]);
      isChecked := chessboard.IsChecked(currentPlayer);
    }

    /** noLegalMove: true exactly when no piece of the side to move has a generated move. */
    method NoLegalMove() returns (none: bool)
      requires Playable()
      ensures none <==> legalMoves == map[]
      ensures none <==> NoPieceMoves(chessboards[moveNumber], currentPlayer, moveNumber, variant)
    {
      none := |legalMoves.Keys| == 0;
      var board := chessboards[moveNumber];
      if !none {
        var s :| s in legalMoves;
        assert PieceMoves(board, s, moveNumber, variant) != map[];
      } else {
        assert legalMoves == map[];
        forall s | s in board && board[s].player == currentPlayer
          ensures PieceMoves(board, s, moveNumber, variant) == map[]
        {
          assert s !in legalMoves;
        }
      }
    }

    /** drawByInsufficientMaterial: the insufficient-material rule on the latest position. */
    method DrawByInsufficientMaterial() returns (isDraw: bool)
      requires Valid()
      ensures isDraw == InsufficientMaterial(chessboards[moveNumber])
    {
      var chessboard := new Chessboard(chessboards[moveNumber]);
      isDraw := chessboard.DrawByInsufficientMaterial();
    }

    /** closeGame: the game is over; the winner is recorded only for a player number 0 or 1. */
    method CloseGame(player: Option<int>)
      requires Valid()
      modifies this
      ensures Valid() && gameOver
      ensures winner == if player.Some? && (player.value == 0 || player.value == 1) then Some(player.value) else old(winner)
      ensures chessboards == old(chessboards) && moveNumber == old(moveNumber) && currentMoveNumber == old(currentMoveNumber)
      ensures currentPlayer == old(currentPlayer) && currentSquare == old(currentSquare) && legalMoves == old(legalMoves)
      ensures whiteAdvantages == old(whiteAdvantages) && hasStarted == old(hasStarted)
      ensures old(Playable()) ==> Playable()
    {
      gameOver := true;
      if player.Some? && (player.value == 0 || player.value == 1) {
        winner := Some(player.value);
      }
    }
  }

  /**
   * Taking a move back right after playing it restores the history, the counters, the side
   * to move and its legal moves; the balance recorded for the cancelled ply stays behind.
   */
  method SaveThenCancel(model: Model, newSquare: Square)
    requires model.Playable()
    requires model.currentSquare.Some? && model.currentSquare.value in model.legalMoves
    requires newSquare in model.legalMoves[model.currentSquare.value]
    modifies model
    ensures model.Playable()
    ensures model.chessboards == old(model.chessboards) && model.moveNumber == old(model.moveNumber)
    ensures model.currentMoveNumber == model.moveNumber && model.currentPlayer == old(model.currentPlayer)
    ensures model.legalMoves == old(model.legalMoves)
    ensures model.whiteAdvantages[..model.moveNumber + 1] == old(model.whiteAdvantages)[..model.moveNumber + 1]
    ensures |model.whiteAdvantages| >= model.moveNumber + 2
  {
    model.SaveMove(newSquare);
    model.CancelMove();
  }
}
