/** The `Piece` record of js/chessPiece.js. */
module ChessPiece {
  import opened Wrappers
  import opened ChessData

  /**
   * The fields of a piece, as a value.  Boards hold these values: the source
   * deep-clones a board before every change, so no piece object is ever
   * shared between two boards.
   */
  datatype PieceState = PieceState(player: Player, name: Name, wasMoved: bool, pawnBoostMoveNumber: Option<int>)
  {
    /** The effect of `setName`. */
    function WithName(newName: Name): PieceState
    {
      this.(name := newName)
    }

    /** The effect of `setWasMoved`. */
    function WithWasMoved(): PieceState
    {
      this.(wasMoved := true)
    }

    /** The effect of `setPawnBoostMoveNumber`. */
    function WithPawnBoostMoveNumber(moveNumber: int): PieceState
    {
      this.(pawnBoostMoveNumber := Some(moveNumber))
    }
  }

  /** The fields of a newly constructed piece. */
  function NewPiece(player: Player, name: Name): PieceState
  {
    PieceState(player, name, false, None)
  }

  /** 'white' for player 0, 'black' otherwise. */
  function PlayerColor(player: Player): (color: string)
    ensures color == "white" <==> player == WHITE
    ensures color == "black" <==> player == BLACK
  {
    if player == 0 then "white" else "black"
  }

  /** Each setter changes its own field and nothing else; none of them resets `wasMoved`. */
  lemma SettersFrame(p: PieceState, n: Name, m: int)
    ensures p.WithName(n).player == p.player && p.WithName(n).wasMoved == p.wasMoved
    ensures p.WithName(n).pawnBoostMoveNumber == p.pawnBoostMoveNumber && p.WithName(n).name == n
    ensures p.WithWasMoved().wasMoved && p.WithWasMoved().WithWasMoved() == p.WithWasMoved()
    ensures p.WithWasMoved() == PieceState(p.player, p.name, true, p.pawnBoostMoveNumber)
    ensures p.WithPawnBoostMoveNumber(m) == PieceState(p.player, p.name, p.wasMoved, Some(m))
  {
  }

  /** A chess piece whose name, moved flag and boost stamp its setters update in place. */
  class Piece {
    const player: Player
    var name: Name
    var wasMoved: bool
    var pawnBoostMoveNumber: Option<int>

    /** The current fields, as a value. */
    function State(): PieceState
      reads this
    {
      PieceState(player, name, wasMoved, pawnBoostMoveNumber)
    }

    constructor (player: Player, name: Name)
      ensures State() == NewPiece(player, name)
      ensures !wasMoved && pawnBoostMoveNumber == None
    {
      this.player := player;
      this.name := name;
      this.wasMoved := false;
      this.pawnBoostMoveNumber := None;
    }

    function GetPlayer(): Player
      reads this
    {
      player
    }

    function GetName(): Name
      reads this
    {
      name
    }

    method SetName(newName: Name)
      modifies this
      ensures State() == old(State()).WithName(newName)
    {
      name := newName;
    }

    function GetWasMoved(): bool
      reads this
    {
      wasMoved
    }

    method SetWasMoved()
      modifies this
      ensures State() == old(State()).WithWasMoved()
    {
      wasMoved := true;
    }

    function GetPawnBoostMoveNumber(): Option<int>
      reads this
    {
      pawnBoostMoveNumber
    }

    method SetPawnBoostMoveNumber(moveNumber: int)
      modifies this
      ensures State() == old(State()).WithPawnBoostMoveNumber(moveNumber)
    {
      pawnBoostMoveNumber := Some(moveNumber);
    }

    function GetPlayerColor(): string
      reads this
    {
      PlayerColor(player)
    }
  }

  /** A call to one of the setters of a piece. */
  datatype Setter = Rename(newName: Name) | MarkMoved | StampBoost(moveNumber: int)

  /** The fields of a piece after the setter calls `calls`, in order. */
  function Run(p: PieceState, calls: seq<Setter>): PieceState
    decreases |calls|
  {
    if calls == [] then p
    else
      var next := match calls[0]
        case Rename(n) => p.WithName(n)
        case MarkMoved => p.WithWasMoved()
        case StampBoost(m) => p.WithPawnBoostMoveNumber(m);
      Run(next, calls[1..])
  }

  /**
   * No setter resets `wasMoved` or changes the player: after any sequence of setter calls a
   * piece is marked as moved exactly when it already was or one of the calls was setWasMoved.
   */
  lemma {:induction false} SettersNeverResetWasMoved(p: PieceState, calls: seq<Setter>)
    ensures Run(p, calls).player == p.player
    ensures Run(p, calls).wasMoved <==> p.wasMoved || MarkMoved in calls
    decreases |calls|
  {
    if calls != [] {
      var next := match calls[0]
        case Rename(n) => p.WithName(n)
        case MarkMoved => p.WithWasMoved()
        case StampBoost(m) => p.WithPawnBoostMoveNumber(m);
      SettersNeverResetWasMoved(next, calls[1..]);
      assert calls == [calls[0]] + calls[1..];
    }
  }
}
