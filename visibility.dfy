/** The visibility engine: what one piece sees, which pieces a colour owns,
    and the union of the squares seen by all pieces of one colour. */
module Visibility {
  import opened ChessBoard

  function Abs(x: int): nat {
    if x < 0 then -x else x
  }

  function Max(a: nat, b: nat): nat {
    if a < b then b else a
  }

  /** The king-move distance between two squares. */
  function Chebyshev(a: Square, b: Square): nat {
    Max(Abs(a.row - b.row), Abs(a.col - b.col))
  }

  /** A piece sees the on-board squares within its radius of its own
      `position`; nothing is seen where there is no piece or no radius.
      Nothing blocks the view. */
  predicate IsSquareDirectlyVisibleByPiece(target: Square, observer: Option<Piece>) {
    observer.Some? && observer.value.fovRange.Some? &&
    OnBoard(target) && Chebyshev(target, observer.value.position) <= observer.value.fovRange.value
  }

  /** What a piece sees is the part of the board inside the square box of
      side 2 * radius + 1 centred on its position; without a piece, or
      without a radius, nothing is seen. */
  lemma DirectlyVisibleBox(target: Square, observer: Option<Piece>)
    ensures observer.None? ==> !IsSquareDirectlyVisibleByPiece(target, observer)
    ensures observer.Some? && observer.value.fovRange.None? ==> !IsSquareDirectlyVisibleByPiece(target, observer)
    ensures observer.Some? && observer.value.fovRange.Some? ==>
      var p := observer.value;
      (IsSquareDirectlyVisibleByPiece(target, observer) <==>
        OnBoard(target) &&
        p.position.row - p.fovRange.value <= target.row <= p.position.row + p.fovRange.value &&
        p.position.col - p.fovRange.value <= target.col <= p.position.col + p.fovRange.value)
  {
  }

  /** A piece created on the board sees its own square exactly when its type has a radius. */
  lemma CreatedPieceSeesItsSquare(id: string, kind: PieceType, color: Color, row: int, col: int, hasMoved: bool)
    requires IsWithinBoard(row, col)
    ensures IsSquareDirectlyVisibleByPiece(Square(row, col), Some(CreatePiece(id, kind, color, row, col, hasMoved)))
        <==> !kind.Unrecognized?
  {
  }

  // ---------------------------------------------------------------------
  // Pieces of one colour

  /** The square is on the board and holds a piece of `color`. */
  predicate OwnedBy(b: Board, color: Color, o: Square) {
    OnBoard(o) && At(b, o).Some? && At(b, o).value.color == color
  }

  /** A piece may end its move on any on-board square except one held by
      its own colour. */
  lemma CanOccupyUnlessOwn(row: int, col: int, color: Color, b: Board)
    ensures CanOccupySquare(row, col, color, b) <==>
      IsWithinBoard(row, col) && !OwnedBy(b, color, Square(row, col))
  {
  }

  /** The pieces of one colour in a row, left to right. */
  function RowPiecesOfColor(row: Row, color: Color): seq<Piece> {
    if |row| == 0 then []
    else
      var last := row[|row| - 1];
      RowPiecesOfColor(row[..|row| - 1], color) +
        (if last.Some? && last.value.color == color then [last.value] else [])
  }

  /** The pieces of one colour in a sequence of rows, in row-major order. */
  function RowsPiecesOfColor(rows: seq<Row>, color: Color): seq<Piece> {
    if |rows| == 0 then []
    else RowsPiecesOfColor(rows[..|rows| - 1], color) + RowPiecesOfColor(rows[|rows| - 1], color)
  }

  /** The pieces of one colour on the board, top row first, left to right. */
  function PiecesOfColor(b: Board, color: Color): seq<Piece> {
    RowsPiecesOfColor(b, color)
  }

  /** One list entry per matching cell. */
  lemma {:induction false} RowPiecesOfColorLength(row: Row, color: Color)
    ensures |RowPiecesOfColor(row, color)| == RowCount(row, OfColor(color))
    decreases |row|
  {
    if |row| > 0 {
      RowPiecesOfColorLength(row[..|row| - 1], color);
    }
  }

  lemma {:induction false} RowsPiecesOfColorLength(rows: seq<Row>, color: Color)
    ensures |RowsPiecesOfColor(rows, color)| == RowsCount(rows, OfColor(color))
    decreases |rows|
  {
    if |rows| > 0 {
      RowsPiecesOfColorLength(rows[..|rows| - 1], color);
      RowPiecesOfColorLength(rows[|rows| - 1], color);
    }
  }

  /** The list has exactly as many entries as the board has squares held by the colour. */
  lemma PiecesOfColorCounted(b: Board, color: Color)
    ensures |PiecesOfColor(b, color)| == Count(b, OfColor(color))
  {
    RowsPiecesOfColorLength(b, color);
  }

  lemma {:induction false} RowPiecesOfColorMembers(row: Row, color: Color, p: Piece)
    ensures p in RowPiecesOfColor(row, color) <==>
      p.color == color && exists c :: 0 <= c < |row| && row[c] == Some(p)
    decreases |row|
  {
    if |row| > 0 {
      var init := row[..|row| - 1];
      RowPiecesOfColorMembers(init, color, p);
      if exists c :: 0 <= c < |row| && row[c] == Some(p) {
        var c :| 0 <= c < |row| && row[c] == Some(p);
        if c < |row| - 1 { assert init[c] == row[c]; }
      }
      if exists c :: 0 <= c < |init| && init[c] == Some(p) {
        var c :| 0 <= c < |init| && init[c] == Some(p);
        assert row[c] == init[c];
      }
    }
  }

  lemma {:induction false} RowsPiecesOfColorMembers(rows: seq<Row>, color: Color, p: Piece)
    ensures p in RowsPiecesOfColor(rows, color) <==>
      p.color == color && exists r, c :: 0 <= r < |rows| && 0 <= c < |rows[r]| && rows[r][c] == Some(p)
    decreases |rows|
  {
    if |rows| > 0 {
      var init := rows[..|rows| - 1];
      var last := rows[|rows| - 1];
      RowsPiecesOfColorMembers(init, color, p);
      RowPiecesOfColorMembers(last, color, p);
      if exists r, c :: 0 <= r < |rows| && 0 <= c < |rows[r]| && rows[r][c] == Some(p) {
        var r, c :| 0 <= r < |rows| && 0 <= c < |rows[r]| && rows[r][c] == Some(p);
        if r < |rows| - 1 { assert init[r] == rows[r]; }
      }
      if exists r, c :: 0 <= r < |init| && 0 <= c < |init[r]| && init[r][c] == Some(p) {
        var r, c :| 0 <= r < |init| && 0 <= c < |init[r]| && init[r][c] == Some(p);
        assert rows[r] == init[r];
      }
    }
  }

  /** The list holds exactly the pieces standing on squares the colour owns. */
  lemma PiecesOfColorMembers(b: Board, color: Color)
    ensures forall p :: p in PiecesOfColor(b, color) <==> exists o :: OwnedBy(b, color, o) && At(b, o) == Some(p)
  {
    forall p ensures p in PiecesOfColor(b, color) <==> exists o :: OwnedBy(b, color, o) && At(b, o) == Some(p) {
      RowsPiecesOfColorMembers(b, color, p);
      if p in PiecesOfColor(b, color) {
        var r, c :| 0 <= r < 8 && 0 <= c < 8 && b[r][c] == Some(p);
        assert OwnedBy(b, color, Square(r, c)) && At(b, Square(r, c)) == Some(p);
      }
    }
  }

  /** Collects the pieces of one colour, scanning row by row. */
  method GetAllPiecesOfColor(color: Color, b: Board) returns (pieces: seq<Piece>)
    ensures pieces == PiecesOfColor(b, color)
    ensures forall p :: p in pieces <==> exists o :: OwnedBy(b, color, o) && At(b, o) == Some(p)
    ensures |pieces| == Count(b, OfColor(color))
  {
    pieces := [];
    for r := 0 to 8
      invariant pieces == RowsPiecesOfColor(b[..r], color)
    {
      for c := 0 to 8
        invariant pieces == RowsPiecesOfColor(b[..r], color) + RowPiecesOfColor(b[r][..c], color)
      {
        var piece := b[r][c];
        assert b[r][..c + 1][..c] == b[r][..c];
        if piece.Some? && piece.value.color == color {
          pieces := pieces + [piece.value];
        }
      }
      assert b[r][..8] == b[r];
      assert b[..r + 1][..r] == b[..r];
    }
    assert b[..8] == b;
    PiecesOfColorCounted(b, color);
    PiecesOfColorMembers(b, color);
  }

  // ---------------------------------------------------------------------
  // The squares a colour sees

  /** From the piece on `o`, the square `sq` is seen: it is `o` itself, or
      it is within that piece's radius. */
  predicate SeenFrom(b: Board, o: Square, sq: Square)
    requires OnBoard(o)
  {
    sq == o || IsSquareDirectlyVisibleByPiece(sq, At(b, o))
  }

  ghost predicate SeenByColor(b: Board, color: Color, sq: Square) {
    exists o :: OwnedBy(b, color, o) && SeenFrom(b, o, sq)
  }

  /** The visibility set of a viewer: empty when there is no viewer colour. */
  ghost function VisibleSquares(b: Board, viewer: Option<Color>): set<Square> {
    if viewer.None? then {}
    else set r, c | 0 <= r < 8 && 0 <= c < 8 && SeenByColor(b, viewer.value, Square(r, c)) :: Square(r, c)
  }

  /** Membership in the visibility set. */
  lemma VisibleSquaresMembers(b: Board, color: Color, sq: Square)
    ensures sq in VisibleSquares(b, Some(color)) <==> SeenByColor(b, color, sq)
  {
    if SeenByColor(b, color, sq) {
      assert OnBoard(sq);
      assert Square(sq.row, sq.col) == sq;
    }
  }

  /** Every square holding a piece of the viewer's colour is visible to it. */
  lemma VisibleSquaresContainOwnPieces(b: Board, color: Color, o: Square)
    requires OwnedBy(b, color, o)
    ensures o in VisibleSquares(b, Some(color))
  {
    VisibleSquaresMembers(b, color, o);
  }

  /** Beyond its own squares, a colour sees exactly the on-board squares
      within the radius of the position of one of its pieces. */
  lemma VisibleSquaresExactly(b: Board, color: Color, sq: Square)
    ensures sq in VisibleSquares(b, Some(color)) <==>
      OwnedBy(b, color, sq) ||
      (OnBoard(sq) && exists o :: OwnedBy(b, color, o) && At(b, o).value.fovRange.Some? &&
                                  Chebyshev(sq, At(b, o).value.position) <= At(b, o).value.fovRange.value)
  {
    VisibleSquaresMembers(b, color, sq);
  }

  /** A visibility set lies on the board; without a viewer it is empty. */
  lemma VisibleSquaresOnBoard(b: Board, viewer: Option<Color>, sq: Square)
    requires sq in VisibleSquares(b, viewer)
    ensures viewer.Some? && OnBoard(sq)
  {
  }

  /** The cells scanned before (r, c) in row-major order. */
  predicate Before(o: Square, r: int, c: int) {
    o.row < r || (o.row == r && o.col < c)
  }

  ghost predicate SeenBefore(b: Board, color: Color, sq: Square, r: int, c: int) {
    exists o :: OwnedBy(b, color, o) && Before(o, r, c) && SeenFrom(b, o, sq)
  }

  lemma SeenBeforeNext(b: Board, color: Color, sq: Square, r: int, c: int)
    requires 0 <= r < 8 && 0 <= c < 8
    ensures SeenBefore(b, color, sq, r, c + 1) <==>
      SeenBefore(b, color, sq, r, c) || (OwnedBy(b, color, Square(r, c)) && SeenFrom(b, Square(r, c), sq))
  {
    if SeenBefore(b, color, sq, r, c + 1) {
      var o :| OwnedBy(b, color, o) && Before(o, r, c + 1) && SeenFrom(b, o, sq);
      if !Before(o, r, c) { assert o == Square(r, c); }
    }
  }

  lemma SeenBeforeNextRow(b: Board, color: Color, sq: Square, r: int)
    ensures SeenBefore(b, color, sq, r, 8) <==> SeenBefore(b, color, sq, r + 1, 0)
  {
  }

  lemma SeenBeforeAll(b: Board, color: Color, sq: Square)
    ensures SeenBefore(b, color, sq, 8, 0) <==> SeenByColor(b, color, sq)
  {
  }

  /** Scans the whole board and adds each square the observer sees. */
  method AddSquaresSeenBy(visible: set<Square>, observer: Option<Piece>) returns (visible': set<Square>)
    ensures forall sq :: sq in visible' <==> sq in visible || IsSquareDirectlyVisibleByPiece(sq, observer)
  {
    visible' := visible;
    for tr := 0 to 8
      invariant forall sq :: sq in visible' <==>
        sq in visible || (IsSquareDirectlyVisibleByPiece(sq, observer) && sq.row < tr)
    {
      for tc := 0 to 8
        invariant forall sq :: sq in visible' <==>
          sq in visible || (IsSquareDirectlyVisibleByPiece(sq, observer) && Before(sq, tr, tc))
      {
        if IsSquareDirectlyVisibleByPiece(Square(tr, tc), observer) {
          visible' := visible' + {Square(tr, tc)};
        }
      }
    }
  }

  /** Collects the squares a colour sees: each own square, and every square
      of the board within the radius of each own piece. */
  method GetVisibleSquaresForPlayer(b: Board, viewer: Option<Color>) returns (visible: set<Square>)
    ensures visible == VisibleSquares(b, viewer)
  {
    visible := {};
    if viewer.None? {
      return;
    }
    var color := viewer.value;
    for r := 0 to 8
      invariant forall sq :: sq in visible <==> SeenBefore(b, color, sq, r, 0)
    {
      for c := 0 to 8
        invariant forall sq :: sq in visible <==> SeenBefore(b, color, sq, r, c)
      {
        var pieceOnSquare := b[r][c];
        if pieceOnSquare.Some? && pieceOnSquare.value.color == color {
          visible := visible + {Square(r, c)};
          visible := AddSquaresSeenBy(visible, pieceOnSquare);
        }
        forall sq ensures sq in visible <==> SeenBefore(b, color, sq, r, c + 1) {
          SeenBeforeNext(b, color, sq, r, c);
        }
      }
      forall sq ensures sq in visible <==> SeenBefore(b, color, sq, r + 1, 0) {
        SeenBeforeNextRow(b, color, sq, r);
      }
    }
    forall sq ensures sq in visible <==> sq in VisibleSquares(b, viewer) {
      SeenBeforeAll(b, color, sq);
      VisibleSquaresMembers(b, color, sq);
    }
  }
}
