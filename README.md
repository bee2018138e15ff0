# Fog-of-war chess rule engine in Dafny

This project models the rule engine of a fog-of-war chess variant,
`common/chessLogic.js`, and proves properties of the model. In this variant
every piece sees only the squares within its own radius (its `fovRange`:
pawn 1, rook 3, knight 2, bishop 1, queen 2, king 1, measured as king-move
distance). A player sees the squares their pieces stand on plus everything
those pieces see. A piece may move only to squares it sees itself, except
the pawn's two-square first move, which has no vision check. There is
no check and no castling: the game ends when a king is captured.

The model has five modules, one per part of the engine:

- `ChessBoard` (`board.dfy`) holds the pieces, the board, the radius table,
  `createPiece`, the bounds and occupancy helpers, and `initializeBoard`. It
  also counts pieces, and that count is what the later modules use to prove
  that a move never adds pieces.
- `Visibility` (`visibility.dfy`) holds what a single piece sees, the pieces
  of one colour, and the squares a player sees.
- `MoveGeneration` (`moves.dfy`) holds the pawn moves (with en passant), the
  sliding rook/bishop/queen moves, the knight and king moves, and the
  dispatcher `getLegalMovesForPiece`.
- `MoveApplication` (`apply_move.dfy`) holds `applyMove`: origin emptied,
  destination filled, promotion, en-passant removal.
- `GameOver` (`game_over.dfy`) holds `checkGameOver`.

A board is an 8×8 sequence of rows. Each cell is `None` or `Some(piece)`.
A board is a value, so `applyMove` returns a new board, as `chessLogic.js`
does by copying every row. The loops of `chessLogic.js` (board set-up, the scans of
the board, the move generators, the king search) are methods with loops.
Each method is proved against a specification function or predicate, for
example `InitializeBoard` against `StandardBoard` and
`GetVisibleSquaresForPlayer` against `VisibleSquares`. The properties of the
game are then proved about those specifications.

A JavaScript object whose `type` is not one of the six known names has no
radius (`PIECE_FOV_RANGES` gives `undefined`), and the dispatcher gives it no
moves. The model has a piece type `Unrecognized(name)` for this case.
`type` is a Dafny keyword, so the piece field is called `kind`.

How moves are gated, as the code does it:

- **Each piece's own radius.** Every generator checks a destination with
  `isSquareDirectlyVisibleByPiece` against the moving piece alone
  (chessLogic.js:174, 206, 222-223, 255, 319, 346). The `visibleSquares`
  argument the generators receive is never read (chessLogic.js:368-370). See
  `DestinationsWithinOwnRadius`.
- **The pawn's two-square first move** has no vision check
  (chessLogic.js:180-188). See `DoubleStepBeyondOwnRadius`.
- **En passant** lands on `lastMove.to.row + direction`, and a black pawn's
  direction is +1. So a black pawn on (4, 3), after a white pawn's step from
  (6, 4) to (4, 4), lands on (5, 4). See `EnPassantAfterDoubleStep`.
- **A rook** reaches at most 3 squares, its radius. From (7, 0) it gets to
  (4, 0) but never to (3, 0). See `RookReachesItsRadius` and
  `RookStopsAtItsRadius`.

## Model

| member | source | states |
|---|---|---|
| ChessBoard.FovRange | common/chessLogic.js:34-41 | exactly the six known piece types have a radius, and every radius lies between 1 and 3 |
| ChessBoard.PieceIdInjective | common/chessLogic.js:59-62 | the ids `piece-N` built from the placement counter are distinct for distinct counter values |
| ChessBoard.Put | common/chessLogic.js:62 | writing one cell changes that cell and no other |
| ChessBoard.PlacePiece | common/chessLogic.js:61-63 | placing the next piece of the set-up order advances the counter and keeps every piece placed so far where the standard position has it |
| ChessBoard.InitializeBoard | common/chessLogic.js:57-93 | the board built by the two placement phases is exactly the standard starting position |
| ChessBoard.StandardBoardLayout | common/chessLogic.js:65-90 | pieces stand only on rows 0, 1, 6 and 7; the pawns are black on row 1 and white on row 6; the back ranks read rook, knight, bishop, queen, king, bishop, knight, rook, black on row 0 and white on row 7; every piece stands on its own square, is unmoved and has its table radius |
| ChessBoard.StandardBoardPieceCount | common/chessLogic.js:57-93 | the starting position holds 32 pieces |
| ChessBoard.StandardBoardOneKingEach | common/chessLogic.js:88-89 | the starting position holds exactly one king of each colour |
| ChessBoard.StandardBoardDistinctIds | common/chessLogic.js:59-62 | no two pieces of the starting position share an id |
| ChessBoard.CountPut | common/chessLogic.js:391-419 | writing cell x changes the number of matching pieces by whether x matches minus whether the old cell matched |
| ChessBoard.RowsCountPositive | common/chessLogic.js:421-433 | a count is positive exactly when some cell matches |
| Visibility.DirectlyVisibleBox | common/chessLogic.js:107-116 | a piece sees exactly the on-board squares in the box of half-width equal to its radius around its position, and nothing when there is no piece or no radius |
| Visibility.CreatedPieceSeesItsSquare | common/chessLogic.js:46-55 | a piece created on the board sees its own square exactly when its type is known |
| Visibility.CanOccupyUnlessOwn | common/chessLogic.js:100-104 | a square can be occupied exactly when it is on the board and holds no piece of the mover's colour |
| Visibility.GetAllPiecesOfColor | common/chessLogic.js:118-129 | the result is the row-major list of the colour's pieces: it holds exactly the pieces on squares the colour owns, and has as many entries as there are such squares |
| Visibility.PiecesOfColorMembers | common/chessLogic.js:118-129 | the row-major list holds exactly the pieces standing on squares of the colour |
| Visibility.PiecesOfColorCounted | common/chessLogic.js:118-129 | the row-major list has one entry per square held by the colour |
| Visibility.AddSquaresSeenBy | common/chessLogic.js:140-146 | adds exactly the squares the observing piece sees, keeping the ones already collected |
| Visibility.GetVisibleSquaresForPlayer | common/chessLogic.js:131-151 | the result is the viewer's visibility set, which is empty without a viewer |
| Visibility.VisibleSquaresExactly | common/chessLogic.js:131-151 | a square is visible to a colour exactly when it holds one of that colour's pieces, or is on the board within the radius of one of them |
| Visibility.VisibleSquaresContainOwnPieces | common/chessLogic.js:138-139 | every square holding a piece of the viewer's colour is visible to that viewer |
| Visibility.VisibleSquaresOnBoard | common/chessLogic.js:131-151 | a visibility set lies on the board and is empty without a viewer |
| MoveGeneration.PawnPushes | common/chessLogic.js:169-192 | the one-square push onto an empty square the pawn sees, followed by the two-square push from an unmoved pawn when both squares are empty, with no vision check on the second square |
| MoveGeneration.PawnCaptures | common/chessLogic.js:194-212 | the forward-diagonal destinations are exactly the on-board squares the pawn sees that hold an enemy |
| MoveGeneration.GetPawnMoves | common/chessLogic.js:163-229 | the destinations are exactly the pushes, the diagonal captures, and the en-passant capture right after a pawn (of either colour; the code does not check) moved two rows to a square beside this pawn. The en-passant capture lands on (to.row + direction, to.col), takes the pawn on `lastMove.to`, and needs both squares seen |
| MoveGeneration.DoubleStepBeyondOwnRadius | common/chessLogic.js:180-189 | a pawn with its table radius makes its two-square push onto a square it does not see |
| MoveGeneration.WalkRay | common/chessLogic.js:246-273 | one ray yields exactly the squares i such that every square before i is on the board, seen and empty, and square i is on the board, seen, and empty or held by an enemy |
| MoveGeneration.GetSlidingPieceMoves | common/chessLogic.js:239-278 | the destinations are exactly the ones reachable along one of the given directions |
| MoveGeneration.RayStopsAtFirstPiece | common/chessLogic.js:265-272 | no square beyond the first occupied square of a ray is reachable |
| MoveGeneration.SlideWithinRadius | common/chessLogic.js:246-257 | a sliding destination is i squares along one direction, with i between 1 and the mover's own radius |
| MoveGeneration.SlideTargetSafe | common/chessLogic.js:265-272 | a sliding destination never holds a piece of the mover's colour |
| MoveGeneration.GetRookMoves | common/chessLogic.js:280-285 | the rook's destinations are exactly the reachable squares along its rank and file, at distance 1 up to its radius |
| MoveGeneration.GetBishopMoves | common/chessLogic.js:287-292 | the bishop's destinations are exactly the reachable squares on its diagonals, at distance 1 up to its radius |
| MoveGeneration.GetQueenMoves | common/chessLogic.js:294-300 | the queen's destinations are exactly the reachable squares on its rank, file and diagonals, at distance 1 up to its radius |
| MoveGeneration.GetOffsetMoves | common/chessLogic.js:311-322 | a fixed-offset generator yields exactly the offset squares that are on the board, not held by the mover's colour, and seen by the mover |
| MoveGeneration.KnightOffsetsAreJumps | common/chessLogic.js:307-310 | the eight knight offsets are exactly the L-shaped jumps |
| MoveGeneration.KingOffsetsAreSteps | common/chessLogic.js:333-337 | the eight king offsets are exactly the squares at king-move distance 1 |
| MoveGeneration.GetKnightMoves | common/chessLogic.js:302-326 | the knight's destinations are exactly its L-shaped jumps onto seen, on-board squares not held by its own colour |
| MoveGeneration.GetKingMoves | common/chessLogic.js:328-354 | the king's destinations are exactly its neighbouring seen, on-board squares not held by its own colour; there is no castling |
| MoveGeneration.GetLegalMovesForPiece | common/chessLogic.js:366-388 | no piece or an unrecognised type gives no moves; otherwise the destinations are exactly those of the piece's own generator. All destinations are on the board, and plain destinations never hold the mover's colour |
| MoveGeneration.LegalTargetSafe | common/chessLogic.js:366-388 | every destination of every piece is on the board, and a plain destination holds no piece of the mover's colour |
| MoveGeneration.DestinationsWithinOwnRadius | common/chessLogic.js:163-354 | every destination other than the pawn's two-square push lies within the mover's own radius |
| MoveGeneration.OpeningPawnPushes | common/chessLogic.js:169-192 | in the starting position the white pawn on (6, 4) can go to (5, 4) and (4, 4) and nowhere else |
| MoveGeneration.EnPassantAfterDoubleStep | common/chessLogic.js:214-227 | a black pawn on (4, 3), right after a white pawn's step from (6, 4) to (4, 4), may capture en passant onto (5, 4), taking the pawn on (4, 4) |
| MoveGeneration.RookSlidesToItsRadius | common/chessLogic.js:239-285 | a rook on (7, 0) with an empty file ahead slides along its first direction to (4, 0) |
| MoveGeneration.RookReachesItsRadius | common/chessLogic.js:239-285 | a rook on (7, 0) with an empty file ahead reaches (4, 0) |
| MoveGeneration.RookStopsAtItsRadius | common/chessLogic.js:239-285 | a rook on (7, 0) never reaches (3, 0), whatever stands on the board |
| MoveApplication.PromotionType | common/chessLogic.js:397-404 | a promoted pawn becomes the requested type when that type has a radius, and a queen otherwise |
| MoveApplication.MoveWritesCount | common/chessLogic.js:409-418 | the three writes of a move never raise the number of pieces of a kind that the moved piece matches only if its origin cell matched |
| MoveApplication.ApplyMove | common/chessLogic.js:391-419 | on a copy, the destination holds the moved piece, keeping its id and colour, standing on toPos and marked moved. On the far row a pawn is promoted, with the new radius. The origin is emptied, and a sideways pawn move onto an empty square clears (fromRow, toPos.col). Every other square is unchanged. When the origin square holds a piece, the piece count does not grow. When the origin holds exactly `pieceToMove`, the king count of each colour does not grow either, unless a pawn is promoted to a king |
| MoveApplication.EnPassantRemovesGeneratedCapture | common/chessLogic.js:214-227 | applying a generated en-passant destination onto an empty square removes exactly the pawn that move generation named as captured |
| GameOver.CheckGameOver | common/chessLogic.js:421-436 | with no white king Black has won, even if the black king is missing too; otherwise with no black king White has won; with both kings present there is no result |
| GameOver.HasKingIffCounted | common/chessLogic.js:421-433 | a colour has a king on the board exactly when its king count is positive |
| GameOver.StandardBoardNotOver | common/chessLogic.js:57-93 | the starting position has both kings, so it is not a finished game |

## Left out

- The interface, the network server, rooms, matchmaking and turn handling: these are not part of `common/chessLogic.js` and are not part of this model.
- `PIECE_SYMBOLS` is display data only.
- The `"row-col"` string keys of the visibility set: the model uses a set of squares, so each square is one element.
- The `visibleSquares` and `viewingPlayerColor` arguments of the generators and the dispatcher are never read by the code, so the model has no such parameters.
- Castling and check do not exist in the engine.
- The order of the entries in the move lists is not stated. The contracts state which destinations the lists hold. The piece list is stated in full, in row-major order. The visibility set has no order.
- ApplyMove: with an empty origin square the code places the piece anyway, so the piece count can grow by one. The count contracts are stated only for an occupied origin, and the king count only when the origin holds `pieceToMove` itself.
- Radius lookups with names such as `constructor` find inherited object members in JavaScript. The model treats every type name other than the six known ones as having no radius, and `Unrecognized` cannot carry a known name.
- ApplyMove: requires the origin and `toPos` to be on the board. In JavaScript an off-board row throws, and an off-board column adds a stray property to the row. The model gives neither behaviour.
- ApplyMove: the promotion choice is an optional piece type. An empty string or another falsy value in JavaScript corresponds to `None`.
- ApplyMove: the code lets a pawn be promoted to a king or to a pawn, since both types have a radius. The king-count contract therefore excludes promotion to a king rather than claiming that kings never multiply.
- GetLegalMovesForPiece: no-self-capture is stated only for plain destinations. The en-passant landing square is never looked at by the code, and `applyMove` overwrites whatever stands there.
- A `lastMove` whose `piece` field is missing makes the JavaScript throw. In the model a last move always carries a piece.
