/** Applying a move: the board is copied, never changed in place. */
module MoveApplication {
  import opened ChessBoard
  import opened Visibility
  import opened MoveGeneration

  /** A pawn arriving on the far row: row 0 for White, row 7 for Black. */
  predicate ReachesLastRow(piece: Piece, toPos: Square) {
    piece.kind == Pawn &&
    ((piece.color == White && toPos.row == 0) || (piece.color == Black && toPos.row == BoardSize - 1))
  }

  /** The type a promoted pawn becomes: the requested type when that type
      has a radius, a queen otherwise. */
  function PromotionType(promotion: Option<PieceType>): (t: PieceType)
    ensures FovRange(t).Some?
    ensures promotion.Some? && FovRange(promotion.value).Some? ==> t == promotion.value
    ensures promotion.None? || FovRange(promotion.value).None? ==> t == Queen
  {
    if promotion.Some? && FovRange(promotion.value).Some? then promotion.value else Queen
  }

  /** A pawn moving to another column onto an empty square takes whatever
      stands beside its origin, on its own row and the destination column. */
  predicate IsEnPassantCapture(board: Board, piece: Piece, toPos: Square)
    requires OnBoard(toPos)
  {
    piece.kind == Pawn && toPos.col != piece.position.col && At(board, toPos).None?
  }

  function CapturedSquare(piece: Piece, toPos: Square): Square {
    Square(piece.position.row, toPos.col)
  }

  /** The three writes of a move, in order, never raise the number of
      pieces of kind `k` unless the moved piece matches `k` while its
      origin does not. */
  lemma MoveWritesCount(board: Board, from: Square, toPos: Square, captured: Square, capture: bool,
                        moved: Piece, k: CellKind)
    requires OnBoard(from) && OnBoard(toPos) && OnBoard(captured) && (capture ==> captured != from)
    requires Matches(k, Some(moved)) ==> Matches(k, At(board, from))
    ensures var b1 := if capture then Put(board, captured, None) else board;
      Count(Put(Put(b1, from, None), toPos, Some(moved)), k) <= Count(board, k)
  {
    var b1 := if capture then Put(board, captured, None) else board;
    if capture {
      CountPut(board, captured, None, k);
    }
    assert At(b1, from) == At(board, from);
    var b2 := Put(b1, from, None);
    CountPut(b1, from, None, k);
    CountPut(b2, toPos, Some(moved), k);
  }

  /** Moves `pieceToMove` from its own position to `toPos` on a copy of the
      board: the origin empties, the destination receives the piece (moved,
      and promoted on the far row), and a sideways pawn move onto an empty
      square removes the pawn beside its origin. */
  method ApplyMove(board: Board, pieceToMove: Piece, toPos: Square, promotionPieceType: Option<PieceType>)
    returns (newBoard: Board)
    requires OnBoard(pieceToMove.position) && OnBoard(toPos)
    ensures At(newBoard, toPos).Some?
    ensures var moved := At(newBoard, toPos).value;
      && moved.id == pieceToMove.id && moved.color == pieceToMove.color
      && moved.position == toPos && moved.hasMoved
      && (ReachesLastRow(pieceToMove, toPos) ==>
            moved.kind == PromotionType(promotionPieceType) && moved.fovRange == FovRange(moved.kind))
      && (!ReachesLastRow(pieceToMove, toPos) ==>
            moved.kind == pieceToMove.kind && moved.fovRange == pieceToMove.fovRange)
    ensures pieceToMove.position != toPos ==> At(newBoard, pieceToMove.position).None?
    ensures IsEnPassantCapture(board, pieceToMove, toPos) && CapturedSquare(pieceToMove, toPos) != toPos ==>
      At(newBoard, CapturedSquare(pieceToMove, toPos)).None?
    ensures forall sq ::
      (OnBoard(sq) && sq != pieceToMove.position && sq != toPos &&
       !(IsEnPassantCapture(board, pieceToMove, toPos) && sq == CapturedSquare(pieceToMove, toPos)))
      ==> At(newBoard, sq) == At(board, sq)
    ensures At(board, pieceToMove.position).Some? ==> Count(newBoard, AnyPiece) <= Count(board, AnyPiece)
    ensures (At(board, pieceToMove.position) == Some(pieceToMove) &&
             !(ReachesLastRow(pieceToMove, toPos) && PromotionType(promotionPieceType) == King))
      ==> (Count(newBoard, KingOf(White)) <= Count(board, KingOf(White)) &&
           Count(newBoard, KingOf(Black)) <= Count(board, KingOf(Black)))
  {
    newBoard := board;
    var fromPos := pieceToMove.position;
    var movedPiece := pieceToMove.(position := toPos, hasMoved := true);

    if movedPiece.kind == Pawn {
      if (movedPiece.color == White && toPos.row == 0) ||
         (movedPiece.color == Black && toPos.row == BoardSize - 1)
      {
        if promotionPieceType.Some? && FovRange(promotionPieceType.value).Some? {
          movedPiece := movedPiece.(kind := promotionPieceType.value, fovRange := FovRange(promotionPieceType.value));
        } else {
          movedPiece := movedPiece.(kind := Queen, fovRange := FovRange(Queen));
        }
      }
    }
    var capture := pieceToMove.kind == Pawn && toPos.col != fromPos.col && At(newBoard, toPos).None?;
    var capturedPawnPos := Square(fromPos.row, toPos.col);
    assert OnBoard(capturedPawnPos);
    if capture {
      newBoard := Put(newBoard, capturedPawnPos, None);
    }
    newBoard := Put(newBoard, fromPos, None);
    newBoard := Put(newBoard, toPos, Some(movedPiece));

    if At(board, fromPos).Some? {
      MoveWritesCount(board, fromPos, toPos, capturedPawnPos, capture, movedPiece, AnyPiece);
    }
    if At(board, fromPos) == Some(pieceToMove) && !(ReachesLastRow(pieceToMove, toPos) && PromotionType(promotionPieceType) == King) {
      MoveWritesCount(board, fromPos, toPos, capturedPawnPos, capture, movedPiece, KingOf(White));
      MoveWritesCount(board, fromPos, toPos, capturedPawnPos, capture, movedPiece, KingOf(Black));
    }
  }

  /** An en-passant destination produced by move generation, applied to the
      board it was generated on, removes exactly the pawn that move
      generation named as captured (the landing square is not checked by
      generation; on an occupied one nothing beside is removed). */
  lemma EnPassantRemovesGeneratedCapture(b: Board, pawn: Piece, lastMove: Option<LastMove>, m: Dest)
    requires m.EnPassant? && LegalTarget(pawn, b, lastMove, m)
    ensures OnBoard(m.at) && OnBoard(m.captured)
    ensures At(b, m.at).None? ==> IsEnPassantCapture(b, pawn, m.at)
    ensures CapturedSquare(pawn, m.at) == m.captured && m.captured != m.at
  {
    assert pawn.kind == Pawn;
    var lm := lastMove.value;
    assert m.at == Square(lm.to.row + Direction(pawn.color), lm.to.col) && m.captured == lm.to;
    assert pawn.position.row == lm.to.row;
  }
}
