# Chess rules engine — a verified model

This project models the rules engine of a browser chess game for two players at one screen, in
standard chess and Chess960. The modelled parts are:

- the `Chessboard` class: applying a move, generating every legal move of a side, and detecting check;
- the insufficient-material draw and the white material advantage;
- the square conversions and the `Piece` record;
- the starting positions (standard and Chess960);
- the game history kept by the `Model`: saving, taking back and browsing moves;
- the controller's end-of-game classification and its click/drop selection rule;
- the game clock.

A position is a map from squares to piece values (`Board.Pieces`). A square is a pair (column,
line) with both values in 1..8. The source's two-character square names ("e4") are linked to those
pairs by round-trip lemmas. The classes that mutate state in the source are Dafny classes here:
`Chessboards.Chessboard` (its `pieces` map), `ChessPiece.Piece`, `ChessModel.Model`,
`ChessController.Controller` and `ChessClock.Clock`. Each loop of the source is a `method` with
loop invariants. It is proved equal to a ghost specification in `MoveRules`, `Attacks`,
`Material` or `Setup`, which states the rule as a declarative set or map. Lemmas then prove what
the rules promise:

- every generated move lands on an empty or capturable square;
- it keeps exactly one king per side;
- it leaves the mover out of check;
- the standard and Chess960 set-ups are symmetric, hold 32 pieces and have a material balance of zero;
- taking back a move restores the history.

The modelled code is the program, not the FIDE Laws of Chess. En passant is never generated, because
the lookup of the neighbouring pawn uses a numeric key that never names a square
(js/chessboard.js:282 against js/chessboard.js:13-16). Castling does not test whether the king is
in check, nor what the corner piece is. `isChecked` ignores the enemy king. Promotion is always to
a queen. Each of these is stated by the corresponding member.

## Model

| member | source | states |
|---|---|---|
| ChessData.GetSquare | js/chessData.js:51-59 | no square exactly when the column or the line lies outside 1..8; otherwise the square at that column and line |
| ChessData.SquareName | js/chessData.js:4 | a square's name is two characters, a letter a–h followed by a digit 1–8 |
| ChessData.NameRoundTrip | js/chessData.js:51-79 | getColumn and getLine read back the column and the line of a square's name |
| ChessData.SquareNameInjective | js/chessData.js:58 | two squares with the same name are the same square |
| ChessData.SquareNameOnto | js/chessData.js:58 | every letter a–h followed by a digit 1–8 names some square |
| ChessData.SquareOfKey | js/chessboard.js:13-16 | looking up a key finds the square with that name, or none when no square has it |
| ChessData.NumberKey | js/chessboard.js:282 | a one-digit numeric key names no square, so the en-passant lookup always finds nothing |
| ChessData.ConvertAdvantageToHeight | js/chessData.js:81-95 | the height is 2 below an advantage of -9 and 98 above 9; in between it is a multiple of 5 from which the advantage is read back as (height - 50) / 5 |
| ChessData.AdvantageHeightMonotone | js/chessData.js:81-95 | the height never decreases as the advantage grows, and an advantage of 0 gives 50 |
| ChessData.PawnDataMirror | js/chessData.js:29-36 | Black's pawn direction, starting line and finishing line mirror White's; the finishing line is six steps from the starting line |
| ChessPiece.PlayerColor | js/chessPiece.js:46-49 | "white" exactly for player 0, "black" exactly for player 1 |
| ChessPiece.SettersFrame | js/chessPiece.js:21-44 | each setter changes only its own field; setting wasMoved twice is the same as once |
| ChessPiece.Piece.constructor | js/chessPiece.js:3-9 | a new piece has not moved and has no pawn-boost move number |
| ChessPiece.Piece.SetName | js/chessPiece.js:21-24 | only the name changes |
| ChessPiece.Piece.SetWasMoved | js/chessPiece.js:31-34 | wasMoved becomes true and nothing else changes |
| ChessPiece.Piece.SetPawnBoostMoveNumber | js/chessPiece.js:41-44 | only the pawn-boost move number changes |
| ChessPiece.SettersNeverResetWasMoved | js/chessPiece.js:21-44 | after any sequence of setter calls the player is unchanged, and the piece is marked as moved exactly when it already was or one of the calls was setWasMoved |
| Board.EmptyAndCapturableExclusive | js/chessboard.js:23-43 | an off-board square is neither empty nor capturable, and no square is both |
| Board.CloseMeansDistanceOne | js/chessboard.js:45-50 | two squares are close exactly when their Chebyshev distance is 1, and closeness is symmetric |
| Board.ApplyPlainMove | js/chessboard.js:92-112 | the moved piece lands, marked as moved, stamped on a boost and made a queen on a promotion; the origin is emptied; no other square changes except the en-passant victim |
| Board.ApplyCastling | js/chessboard.js:85-90 | castling moves the king to the destination and the rook to its square, both marked as moved, and changes no other square |
| Board.CastlingRookSquares | js/chessboard.js:113-118 | kingside castling moves the rook from h to f, queenside from a to d |
| Board.SetSquareKeepsOneKing | js/chessboard.js:85-90 | moving a piece onto a square without a king keeps one king per side |
| Board.RemovePieceKeepsOneKing | js/chessboard.js:75-78 | removing a non-king piece keeps one king per side |
| Board.ApplyKeepsOneKing | js/chessboard.js:92-120 | a move that captures no king keeps exactly one king of each side |
| Board.ApplyKeepsWellformed | js/chessboard.js:92-120 | such a move keeps both sides with exactly one king |
| Attacks.BishopWalkEnd | js/chessboard.js:667-691 | the walk of checkByBishop ends with its answer equal to "the bishop sees the king along a clear diagonal" |
| Attacks.RookWalkEnd | js/chessboard.js:693-731 | the walk of checkByRook ends with its answer equal to "the rook sees the king along a clear line" |
| Attacks.InCheckAtKing | js/chessboard.js:616-651 | with one king, the side is in check exactly when its king's square is attacked |
| Attacks.PawnThreatSquares | js/chessboard.js:653-659 | a pawn attacks the two squares diagonally forward in its own direction |
| Attacks.KnightThreatSymmetric | js/chessboard.js:661-665 | the knight attack is symmetric and only reaches squares at Chebyshev distance 2 |
| Attacks.SlidingThreatGeometry | js/chessboard.js:667-731 | a bishop attacks only along a diagonal and a rook only along a line, never both at once |
| Chessboards.Chessboard.FindSquare | js/chessboard.js:58-69 | the square found holds that piece, and none is found exactly when no square holds it |
| Chessboards.Chessboard.FindKing | js/chessboard.js:618 | with one king of the side, that king's square |
| Chessboards.Chessboard.RemovePiece | js/chessboard.js:75-78 | the square is emptied and nothing else changes |
| Chessboards.Chessboard.SetSquare | js/chessboard.js:85-90 | the piece moves, marked as moved, and the origin is emptied |
| Chessboards.Chessboard.Move | js/chessboard.js:92-120 | the new position is the move applied to the old one, for every kind of move |
| Chessboards.Chessboard.CloneDeepChessboard | js/chessboard.js:122-128 | a fresh board with the same pieces |
| Chessboards.Chessboard.CheckByBishop | js/chessboard.js:667-691 | true exactly when the bishop attacks the king along a clear diagonal |
| Chessboards.Chessboard.CheckByRook | js/chessboard.js:693-731 | true exactly when the rook attacks the king along a clear line |
| Chessboards.Chessboard.CheckAlongColumn | js/chessboard.js:703-714 | on a shared column, true exactly when every square between is empty |
| Chessboards.Chessboard.CheckAlongLine | js/chessboard.js:716-727 | on a shared line, true exactly when every square between is empty |
| Chessboards.Chessboard.CheckByQueen | js/chessboard.js:733-736 | a queen attacks as a bishop or as a rook |
| Chessboards.Chessboard.IsChecked | js/chessboard.js:616-651 | true exactly when an opposing pawn, knight, bishop, rook or queen attacks the king; the enemy king never counts |
| Chessboards.Chessboard.LeavesNoCheck | js/chessboard.js:226-233 | cloning, moving and testing isChecked accepts exactly the moves that leave the mover out of check |
| Chessboards.Chessboard.RayMoves | js/chessboard.js:376-408 | one ray gives every empty square up to the first occupied one, then that square only if capturable |
| Chessboards.Chessboard.RaySquare | js/chessboard.js:378-407 | one step of a ray either extends it past an empty square or ends it |
| Chessboards.Chessboard.BishopMoves | js/chessboard.js:362-413 | the four diagonal rays, each move kept only when it leaves no check |
| Chessboards.Chessboard.RookMoves | js/chessboard.js:421-472 | the four straight rays, each move kept only when it leaves no check |
| Chessboards.Chessboard.QueenMoves | js/chessboard.js:480-483 | the union of the bishop moves and the rook moves |
| Chessboards.Chessboard.JumpMove | js/chessboard.js:323-348 | one knight jump or king step is kept when the square is empty or capturable and no check follows |
| Chessboards.Chessboard.KnightMoves | js/chessboard.js:310-354 | the eight knight jumps, each kept under the same rule |
| Chessboards.Chessboard.KingSteps | js/chessboard.js:493-533 | the eight king steps, also refusing squares close to the opposing king |
| Chessboards.Chessboard.CastlingMove | js/chessboard.js:541-603 | castling is offered exactly when the path is empty, the corner piece is unmoved, the transit and castled boards leave no check, and the king does not land next to the opposing king |
| Chessboards.Chessboard.KingMoves | js/chessboard.js:485-609 | king steps plus castling, the latter only outside Chess960 and from the unmoved king on e1/e8 |
| Chessboards.Chessboard.PawnMoves | js/chessboard.js:185-302 | the pawn's single step, boost and diagonal captures with their promotion kinds; en passant never appears |
| Chessboards.Chessboard.PawnCapture | js/chessboard.js:253-280 | a diagonal capture of a capturable square, with promotion on the final line |
| Chessboards.Chessboard.PawnAdvances | js/chessboard.js:207-251 | the single step onto an empty square, and the boost from the starting line when both squares are empty |
| Chessboards.Chessboard.PieceMovesOf | js/chessboard.js:144-166 | the generator chosen by the piece's name |
| Chessboards.Chessboard.AllMoves | js/chessboard.js:135-176 | every piece of the player with at least one move, mapped to its moves |
| Chessboards.Chessboard.CountPieceNumbers | js/chessboard.js:740-781 | the pieces, knights and bishops of each side |
| Chessboards.Chessboard.DrawByInsufficientMaterial | js/chessboard.js:738-821 | the insufficient-material rule of the source on the position |
| Chessboards.Chessboard.CountPiecesByName | js/chessboard.js:825-851 | the count of each non-king name for each side |
| Chessboards.Chessboard.CountPiece | js/chessboard.js:845-850 | counting one more piece adds one to its side and name, kings left out |
| Chessboards.Chessboard.CalculateWhiteAdvantage | js/chessboard.js:823-858 | the white material advantage, weighted 1, 3, 3, 5, 9 |
| Material.PieceNumberAdd | js/chessboard.js:752-781 | one more piece adds one to its side's total, and to its knight or bishop count |
| Material.MinorsBesideKing | js/chessboard.js:784-801 | with its king on the board, a side's knights and bishops are fewer than its pieces |
| Material.InsufficientMaterialCases | js/chessboard.js:783-821 | a draw exactly for king against king, or king and one knight or bishop against a bare king |
| Material.NoDrawWithMoreMaterial | js/chessboard.js:793-815 | two pieces each, or three pieces on one side, are never a draw; the same-coloured-bishops case never fires |
| Material.NameCountsAdd | js/chessboard.js:845-850 | counting one more piece adds one to its side and name, kings left out |
| Material.TallyStep | js/chessboard.js:849 | the two-sided tally updated by one piece equals the tally over one more square |
| Material.MirrorCount | js/chessboard.js:823-858 | mirroring the board swaps the counts of the two sides |
| Material.MirrorNegatesAdvantage | js/chessboard.js:823-858 | mirroring negates the white advantage, so a colour-symmetric position has advantage 0 |
| MoveRules.JumpsMembership | js/chessboard.js:317-351 | a jump target is in the moves exactly when it is one of the offsets and the jump is allowed |
| MoveRules.KnightOffsetsAreKnightJumps | js/chessboard.js:317-323 | the offsets the knight generator walks are exactly the knight attacks of checkByKnight |
| MoveRules.KingOffsetsAreNeighbours | js/chessboard.js:493-499 | the offsets the king generator walks are exactly the squares at distance 1 |
| MoveRules.KnightMovesExactly | js/chessboard.js:310-354 | a knight move is a knight jump onto an empty or capturable square that leaves no check |
| MoveRules.KingStepsExactly | js/chessboard.js:493-533 | a king step is a neighbouring empty or capturable square, not close to the opposing king, that leaves no check |
| MoveRules.RayPartExtend | js/chessboard.js:378-390 | past an empty square a ray gains that square, when it leaves no check, and goes on |
| MoveRules.RayPartStop | js/chessboard.js:391-406 | at an occupied square a ray ends, gaining that square only when it is capturable and leaves no check |
| MoveRules.RayMovesExactly | js/chessboard.js:376-408 | a ray move slides along clear squares onto an empty or capturable square and leaves no check |
| MoveRules.RaysMembership | js/chessboard.js:370-410 | the moves of several rays are the union of the moves of each ray |
| MoveRules.PawnRules | js/chessboard.js:208-280 | a pawn move starts on lines 2..7 and goes one line forward, or two on a boost; straight moves need an empty target and diagonal ones a capturable one; promotion kinds exactly on the final line; never en passant or castling |
| MoveRules.PawnMovesComplete | js/chessboard.js:208-280 | every pawn move of the right kind that leaves no check is generated |
| MoveRules.PawnMovesOffLines | js/chessboard.js:208 | a pawn on line 1 or 8 generates nothing |
| MoveRules.PawnKindStraight | js/chessboard.js:210-249 | the straight kinds: a step onto an empty square, a promotion on the final line, a boost only from the starting line through an empty square |
| MoveRules.PawnDiagonalMove | js/chessboard.js:253-280 | each diagonal adds a capture, or a capture with promotion, exactly when the square is capturable and no check follows |
| MoveRules.KingMovesAvoidOpposingKing | js/chessboard.js:502-590 | no king destination is close to the opposing king, and castling only happens outside Chess960, from the unmoved king on e1/e8, to the g or c file |
| MoveRules.NextToKingAt | js/chessboard.js:491-502 | being next to the opposing king means being close to its square |
| MoveRules.CastlingKeepsKings | js/chessboard.js:541-603 | castling captures no king |
| MoveRules.AllMovesAmongAdd | js/chessboard.js:140-172 | each piece of the player with moves adds its entry to allMoves |
| MoveRules.RaysSound | js/chessboard.js:370-469 | every ray move lands on an empty or capturable square and leaves no check |
| MoveRules.PawnMovesSound | js/chessboard.js:185-302 | every pawn move is sound: a legal landing square, kings kept, no check left |
| MoveRules.KnightMovesSound | js/chessboard.js:310-354 | every knight move is sound |
| MoveRules.BishopMovesSound | js/chessboard.js:362-413 | every bishop move is sound |
| MoveRules.RookMovesSound | js/chessboard.js:421-472 | every rook move is sound |
| MoveRules.QueenMovesSound | js/chessboard.js:480-483 | every queen move is sound |
| MoveRules.CastlingSound | js/chessboard.js:541-603 | every castling move is sound |
| MoveRules.KingMovesSound | js/chessboard.js:485-609 | every king move is sound |
| MoveRules.PieceMovesSound | js/chessboard.js:144-166 | every move of every piece is sound |
| MoveRules.AllMovesSound | js/chessboard.js:135-176 | every generated move starts from the player's piece, lands on an empty or capturable square, keeps one king per side and leaves the player out of check |
| Setup.StandardRankIs960 | js/chessData.js:26 | the standard back rank is itself a Chess960 rank |
| Setup.PositionColumn | js/chessModel.js:160-166 | each column adds the back-rank piece and the pawn of both sides |
| Setup.PositionAt | js/chessModel.js:160-166 | the piece on each square of a starting position |
| Setup.PositionKeys | js/chessModel.js:159-167 | pieces stand exactly on lines 1, 2, 7 and 8, none moved and none boosted |
| Setup.PositionUpToCard | js/chessModel.js:160-166 | after j columns the position holds 4·j pieces |
| Setup.PositionSize | js/chessModel.js:159-167 | a starting position holds 32 pieces, none moved |
| Setup.PositionMirrored | js/chessModel.js:196-202 | Black mirrors White, so the material balance is zero |
| Setup.PositionKing | js/chessModel.js:196-202 | a rank with one king gives each side exactly one king |
| Setup.PositionWellformed | js/chessModel.js:196-202 | a Chess960 rank gives a position with one king per side |
| Setup.FilterOut | js/chessModel.js:179 | the columns left are those that are neither bishop column, still in increasing order |
| Setup.FilterOutLength | js/chessModel.js:179 | filtering removes one column per distinct bishop column present |
| Setup.RemoveAt | js/chessModel.js:183 | removing the chosen index leaves one column fewer, the others in order |
| Setup.BishopsFree | js/chessModel.js:169-179 | after the bishops, six free columns remain, in increasing order |
| Setup.BishopsStep | js/chessModel.js:173-179 | the bishops go on one even and one odd column |
| Setup.PlaceStep | js/chessModel.js:181-190 | placing the queen or a knight on a free column keeps the shuffle consistent |
| Setup.FinishStep | js/chessModel.js:192-194 | the last three columns, in increasing order, get rook, king, rook |
| Setup.FinishRank | js/chessModel.js:192-194 | with the bishops, the queen and the knights placed, rook, king and rook on the three columns left complete a Chess960 rank |
| Setup.PlacementIsRank | js/chessModel.js:168-194 | a completed placement is a Chess960 rank |
| Setup.Shuffle960 | js/chessModel.js:168-194 | the shuffled back rank has bishops on opposite colours, one queen, two knights and the king between the rooks |
| Setup.PlaceRanks | js/chessModel.js:196-202 | the pieces are the starting position of the rank |
| Setup.SetupChessboard | js/chessModel.js:153-207 | "std" gives the standard position, "960" a Chess960 position, anything else an empty board |
| Setup.SetupFacts | js/chessModel.js:153-207 | every starting position has one king per side, 32 pieces and a material balance of zero |
| ChessModel.HistoryPrefix | js/chessModel.js:272-273 | dropping the last position keeps the history consistent |
| ChessModel.HistoryAppend | js/chessModel.js:227-242 | appending a position with its advantage keeps the history consistent |
| ChessModel.LegalMoveFacts | js/chessModel.js:225-226 | a move taken from the legal moves keeps one king per side and leaves the mover out of check |
| ChessModel.Model.constructor | js/chessModel.js:3-22 | a new game starts at move 0, White to move, with the variant's starting position and advantage 0 |
| ChessModel.Model.SetCurrentSquare | js/chessModel.js:68-71 | only the selection changes |
| ChessModel.Model.CalculateAllMoves | js/chessModel.js:209-213 | the legal moves become those of the latest position for the side to move |
| ChessModel.Model.CalculateAdvantage | js/chessModel.js:240-243 | the advantage at the current move is recorded and no other entry changes |
| ChessModel.Model.SaveMove | js/chessModel.js:222-238 | exactly one position is appended (earlier ones untouched), the move count grows by one, the view follows, the side to move flips, and the mover is not in check |
| ChessModel.Model.PushPosition | js/chessModel.js:227-237 | appending a position advances the move count, flips the side and recomputes the legal moves and the advantage |
| ChessModel.Model.GoToAnotherMove | js/chessModel.js:245-268 | the viewed move goes to the first, previous, next or last one within 0..moveNumber, and nothing else changes |
| ChessModel.Model.CancelMove | js/chessModel.js:270-279 | the last position is dropped, the move count falls by one, the side flips, and the advantages are not truncated |
| ChessModel.Model.CurrentPlayerIsChecked | js/chessModel.js:281-284 | whether the side to move is in check |
| ChessModel.Model.NoLegalMove | js/chessModel.js:286-289 | true exactly when no piece of the side to move has a move |
| ChessModel.Model.DrawByInsufficientMaterial | js/chessModel.js:291-294 | the insufficient-material rule on the latest position |
| ChessModel.Model.CloseGame | js/chessModel.js:296-307 | the game is over, and a winner is recorded only for player 0 or 1 |
| ChessModel.SaveThenCancel | js/chessModel.js:222-279 | a take-back after a move restores the positions, the move counts, the side to move and the legal moves |
| ChessController.Controller.StartGame | js/chessController.js:14-25 | the legal moves of the starting position are computed; the positions, the move count, the viewed ply, the side to move, the selection, the advantages, the started flag and the game's end are kept |
| ChessController.Controller.CloseIfOver | js/chessController.js:131-166 | no move and in check: won by the side that just moved; no move and not in check: stalemate; moves left: drawn exactly on insufficient material; nothing but the game's end and the winner changes |
| ChessController.Controller.SaveMove | js/chessController.js:124-168 | exactly one position is appended: the latest one with the selected piece moved to the square by the kind the legal moves give; the view moves to the new ply, the game has started, the selection is kept, and the game is classified as above |
| ChessController.Controller.ClickOnBoard | js/chessController.js:97-122 | a square is selected exactly when it has moves, and then only the selection changes; with nothing selected, any other click changes nothing; with a piece selected, a legal move appends the position with that piece moved there, marks the game started and classifies it as saveMove does, an illegal one changes only the selection, and the selection is cleared either way; nothing changes once the game is over |
| ChessController.Controller.DropPiece | js/chessController.js:75-95 | with a piece selected, a legal drop appends the position with that piece moved to the drop square, marks the game started and classifies it as saveMove does, an illegal one changes only the selection, and the selection is cleared either way; nothing changes once the game is over or with nothing selected |
| ChessController.Controller.CancelMoveAsWritten | js/chessController.js:191-207 | a move is taken back only while the game is on and a move has been played, and the view follows to the new latest ply; the selection, the advantages (not truncated) and the started flag are kept, and the game stays on with its winner unchanged |
| ChessController.Controller.CancelMove | js/chessController.js:191-207 | the same guard and the same take-back, with the selection cleared; the advantages and the started flag are kept |
| ChessController.StaleSelectionAfterCancel | js/chessController.js:191-207 | after a take-back the kept selection has no moves, and clicking it fails |
| ChessController.ClickAfterCancel | js/chessController.js:97-122 | with the corrected take-back, the next click never fails |
| ChessClock.DecimalString | js/chessClock.js:22 | a number is written as decimal digits, one digit exactly below ten |
| ChessClock.DecimalRoundTrip | js/chessClock.js:22 | reading the digits back gives the number |
| ChessClock.Pad2 | js/chessClock.js:98-114 | a part of the clock is at least two digits, exactly two below 100, and reads back as the number |
| ChessClock.TotalInjective | js/chessClock.js:25-45 | a valid reading is fixed by its number of tenths left |
| ChessClock.Clock.constructor | js/chessClock.js:4-13 | the clock starts at the given minutes and seconds, with no tenths |
| ChessClock.Clock.GetTime | js/chessClock.js:15-18 | the reading as written: 99 ms short for each tenth |
| ChessClock.Clock.GetTimeMs | js/chessClock.js:15-18 | the time left in milliseconds, 100 per tenth |
| ChessClock.Clock.GetTimeControl | js/chessClock.js:20-23 | "M+I", read back as the initial minutes and the increment |
| ChessClock.Clock.GetClock | js/chessClock.js:83-117 | "MM:SS", five characters when the minutes are below 100; the part before the colon reads back as the minutes and the two digits after it as the seconds |
| ChessClock.Clock.Tick | js/chessClock.js:25-45 | the time left falls by one tenth, or stays at zero and stops the timer; the reading stays valid |
| ChessClock.Clock.AddIncrement | js/chessClock.js:60-74 | the clock is left unchanged |
| ChessClock.Clock.Reinitiate | js/chessClock.js:76-81 | back to the initial minutes and seconds with no tenths |
| ChessClock.GetTimeUndercountsTenths | js/chessClock.js:15-18 | with tenths left, getTime is below the time left; at 0:00.5 it reports 5 ms |

## Left out

- The view (js/chessView.js), the navigation bar (js/nav.js) and the page start-up (js/chessLocalGame.js) are not part of this model. They render HTML and read the URL.
- Every view call in the controller, and the board flipping, colour and option settings of the model (`spinChessboard`, `chessboardDirection`, `automatedSpinningOption`, `squareNameOption`, `colors`, `getSquareColor`), are not modelled: they only affect presentation.
- The timers are not modelled: `Clock.start`/`stop`, the controller's game-over timeout and `Model.pushChessclock` need wall-clock time. `ChessClock.Clock.Tick` returns `stopped` where the source stops its timer, and the model's `clocks` are not kept.
- `console.log` calls are not modelled.
- `chooseTimeControl`, `changeVariant` and `setPlayerClocks` are left out: no live code path reaches them. The variant is a constant of the game.
- The lodash deep copy is a copy of the piece map; the model's history keeps piece maps rather than `Chessboard` objects, and builds a fresh `Chessboard` whenever it queries a position.
- `Math.random` in the Chess960 set-up is replaced by five draws given as input (`Setup.RandomDraws`).
- `setupChessboard` reads the page-wide variant rather than its argument; the model passes that value as `globalVariant`.
- The clock's minutes, seconds and increment come from the URL as strings; the model takes them as numbers. The hours argument and `hasHours` are never set, so the hours part of `getClock` is not modelled.
- Setup.Shuffle960: proves that the result is a Chess960 rank, not which rank a given draw sequence gives, nor that every one of the 960 ranks is reachable.
- ChessModel.Model.SaveMove: states the advantages up to the new move through the history invariant, and that the list does not shrink, but not that entries beyond it (left by earlier take-backs) are kept; ChessModel.SaveThenCancel states it for a save followed by a take-back.
- ChessModel.Model.PushPosition: states the advantages as for SaveMove, for the same reason.
- ChessController.Controller.DropPiece: the drop target comes from the DOM event; a drop outside any square is `None`.
- Chessboards.Chessboard.FindSquare: returns some square holding the piece, not the first one in the insertion order of the source's object keys; the king lookups agree under one king per side, and the bishop lookups (js/chessboard.js:808-809) sit in a branch that never runs.

## Findings

| source | as written | input that shows it | evidently intended | confidence | as-written member | corrected member |
|---|---|---|---|---|---|---|
| js/chessController.js:191-207 | `cancelMove` takes the move back but keeps the selected square. The redraw at js/chessView.js:35 and the next click at js/chessController.js:113 then read `legalMoves[currentSquare][square]` for a square that has no entry. | Standard game, 1. e2-e4. Black clicks e7, then takes the move back. White is to move and `legalMoves["e7"]` is undefined, so the redraw throws a TypeError, and so does a further click on e7. | The take-back clears the selection, as a played move does (js/chessController.js:90, 117). | high; not executed | ChessController.StaleSelectionAfterCancel | ChessController.Controller.CancelMove |
| js/chessClock.js:15-18 | `getTime` turns the minutes and seconds into milliseconds but adds the tenths as milliseconds. | A clock at 0:00.5 reports 5 ms instead of 500. A tick from 0:01.0 to 0:00.9 drops the reading from 1000 ms to 9 ms, so the game-over timeout set from it (js/chessController.js:37) fires up to 891 ms early. | Each tenth counts 100 ms, and every tick lowers the reading by 100 ms. | high; not executed | ChessClock.GetTimeUndercountsTenths | ChessClock.Clock.GetTimeMs |
