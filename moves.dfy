/** Move generation.  Every destination is gated by the moving piece's own
    radius (its `fovRange`), not by the squares its whole side sees; the
    pawn's two-square first move is the one destination with no vision check. */
module MoveGeneration {
  import opened ChessBoard
  import opened Visibility

  datatype Offset = Offset(dr: int, dc: int)

  /** A generated destination: a plain move to `at`, or an en-passant
      capture that lands on `at` and takes the pawn standing on `captured`. */
  datatype Dest = Plain(at: Square) | EnPassant(at: Square, captured: Square)

  /** The previous move, as far as en passant looks at it. */
  datatype LastMove = LastMove(piece: Piece, from: Square, to: Square)

  /** White pawns move towards row 0, black pawns towards row 7. */
  function Direction(color: Color): int {
    if color == White then -1 else 1
  }

  function Translate(s: Square, d: Offset): Square {
    Square(s.row + d.dr, s.col + d.dc)
  }

  /** The i-th square along a ray. */
  function Shift(s: Square, d: Offset, i: int): Square {
    Square(s.row + d.dr * i, s.col + d.dc * i)
  }

  // ---------------------------------------------------------------------
  // Pawns

  function OneStep(pawn: Piece): Square {
    Square(pawn.position.row + Direction(pawn.color), pawn.position.col)
  }

  function TwoSteps(pawn: Piece): Square {
    Square(pawn.position.row + 2 * Direction(pawn.color), pawn.position.col)
  }

  /** The one-square push: onto an empty square the pawn itself sees. */
  predicate OneStepOk(pawn: Piece, b: Board) {
    OnBoard(OneStep(pawn)) && At(b, OneStep(pawn)).None? &&
    IsSquareDirectlyVisibleByPiece(OneStep(pawn), Some(pawn))
  }

  /** The two-square push: only after a one-square push was found, from an
      unmoved pawn, both squares empty; the target need not be seen. */
  predicate TwoStepsOk(pawn: Piece, b: Board) {
    OneStepOk(pawn, b) && !pawn.hasMoved &&
    OnBoard(TwoSteps(pawn)) && At(b, TwoSteps(pawn)).None? && At(b, OneStep(pawn)).None?
  }

  /** A diagonal forward move: only onto a seen square held by an enemy. */
  predicate DiagonalOk(pawn: Piece, b: Board, sq: Square) {
    sq.row == pawn.position.row + Direction(pawn.color) &&
    (sq.col == pawn.position.col - 1 || sq.col == pawn.position.col + 1) &&
    OnBoard(sq) && At(b, sq).Some? && At(b, sq).value.color != pawn.color &&
    IsSquareDirectlyVisibleByPiece(sq, Some(pawn))
  }

  /** The previous move was a pawn moving two rows and landing beside this pawn. */
  predicate EnPassantApplies(pawn: Piece, lastMove: Option<LastMove>) {
    lastMove.Some? && lastMove.value.piece.kind == Pawn &&
    Abs(lastMove.value.from.row - lastMove.value.to.row) == 2 &&
    pawn.position.row == lastMove.value.to.row &&
    Abs(pawn.position.col - lastMove.value.to.col) == 1
  }

  function EnPassantSquare(pawn: Piece, lm: LastMove): Square {
    Square(lm.to.row + Direction(pawn.color), lm.to.col)
  }

  predicate EnPassantOk(pawn: Piece, lastMove: Option<LastMove>) {
    EnPassantApplies(pawn, lastMove) &&
    IsSquareDirectlyVisibleByPiece(EnPassantSquare(pawn, lastMove.value), Some(pawn)) &&
    IsSquareDirectlyVisibleByPiece(lastMove.value.to, Some(pawn))
  }

  predicate PawnTarget(pawn: Piece, b: Board, lastMove: Option<LastMove>, m: Dest) {
    match m
    case Plain(sq) =>
      (sq == OneStep(pawn) && OneStepOk(pawn, b)) ||
      (sq == TwoSteps(pawn) && TwoStepsOk(pawn, b)) ||
      DiagonalOk(pawn, b, sq)
    case EnPassant(sq, captured) =>
      EnPassantOk(pawn, lastMove) &&
      sq == EnPassantSquare(pawn, lastMove.value) && captured == lastMove.value.to
  }

  /** The forward pushes: one square, then two from an unmoved pawn. */
  method PawnPushes(pawn: Piece, b: Board) returns (moves: seq<Dest>)
    ensures forall m :: m in moves <==>
      m.Plain? && ((m.at == OneStep(pawn) && OneStepOk(pawn, b)) || (m.at == TwoSteps(pawn) && TwoStepsOk(pawn, b)))
  {
    moves := [];
    var row, col := pawn.position.row, pawn.position.col;
    var direction := Direction(pawn.color);
    var oneStepForward := Square(row + direction, col);
    if IsWithinBoard(oneStepForward.row, oneStepForward.col) &&
       b[oneStepForward.row][oneStepForward.col].None? &&
       IsSquareDirectlyVisibleByPiece(oneStepForward, Some(pawn))
    {
      moves := moves + [Plain(oneStepForward)];
      if !pawn.hasMoved {
        var twoStepsForward := Square(row + 2 * direction, col);
        if IsWithinBoard(twoStepsForward.row, twoStepsForward.col) &&
           b[twoStepsForward.row][twoStepsForward.col].None? &&
           b[oneStepForward.row][oneStepForward.col].None?
        {
          moves := moves + [Plain(twoStepsForward)];
        }
      }
    }
  }

  /** The two diagonal captures, left then right. */
  method PawnCaptures(pawn: Piece, b: Board) returns (moves: seq<Dest>)
    ensures forall m :: m in moves <==> m.Plain? && DiagonalOk(pawn, b, m.at)
  {
    moves := [];
    var row, col := pawn.position.row, pawn.position.col;
    var direction := Direction(pawn.color);
    var captureMoves := [Square(row + direction, col - 1), Square(row + direction, col + 1)];
    for k := 0 to 2
      invariant forall m :: m in moves <==> m.Plain? && m.at in captureMoves[..k] && DiagonalOk(pawn, b, m.at)
    {
      var capMove := captureMoves[k];
      assert captureMoves[..k + 1] == captureMoves[..k] + [capMove];
      if IsWithinBoard(capMove.row, capMove.col) {
        var targetPiece := b[capMove.row][capMove.col];
        if targetPiece.Some? && targetPiece.value.color != pawn.color &&
           IsSquareDirectlyVisibleByPiece(capMove, Some(pawn))
        {
          moves := moves + [Plain(capMove)];
        }
      }
    }
    assert captureMoves[..2] == captureMoves;
  }

  /** The pawn's destinations: pushes, diagonal captures and en passant. */
  method GetPawnMoves(pawn: Piece, b: Board, lastMove: Option<LastMove>) returns (moves: seq<Dest>)
    ensures forall m :: m in moves <==> PawnTarget(pawn, b, lastMove, m)
  {
    var pushes := PawnPushes(pawn, b);
    var captures := PawnCaptures(pawn, b);
    moves := pushes + captures;
    var row, col := pawn.position.row, pawn.position.col;
    var direction := Direction(pawn.color);
    if lastMove.Some? && lastMove.value.piece.kind == Pawn &&
       Abs(lastMove.value.from.row - lastMove.value.to.row) == 2 &&
       row == lastMove.value.to.row &&
       Abs(col - lastMove.value.to.col) == 1
    {
      var enPassantTargetSquare := Square(lastMove.value.to.row + direction, lastMove.value.to.col);
      var capturedPieceOriginalPos := Square(lastMove.value.to.row, lastMove.value.to.col);
      if IsSquareDirectlyVisibleByPiece(enPassantTargetSquare, Some(pawn)) &&
         IsSquareDirectlyVisibleByPiece(capturedPieceOriginalPos, Some(pawn))
      {
        moves := moves + [EnPassant(enPassantTargetSquare, capturedPieceOriginalPos)];
      }
    }
  }

  /** The two-square push of a pawn with the standard radius 1 lands outside
      that radius: the push is the one move made without a vision check. */
  lemma DoubleStepBeyondOwnRadius(pawn: Piece, b: Board)
    requires pawn.fovRange == FovRange(Pawn) && TwoStepsOk(pawn, b)
    ensures !IsSquareDirectlyVisibleByPiece(TwoSteps(pawn), Some(pawn))
  {
  }

  // ---------------------------------------------------------------------
  // Sliding pieces

  /** The j-th square of the ray can be passed through: on the board, seen by the piece, empty. */
  predicate Passable(p: Piece, b: Board, d: Offset, j: int) {
    var sq := Shift(p.position, d, j);
    OnBoard(sq) && IsSquareDirectlyVisibleByPiece(sq, Some(p)) && At(b, sq).None?
  }

  /** The i-th square of the ray can be landed on: on the board, seen by the piece, empty or enemy. */
  predicate Landable(p: Piece, b: Board, d: Offset, i: int) {
    var sq := Shift(p.position, d, i);
    OnBoard(sq) && IsSquareDirectlyVisibleByPiece(sq, Some(p)) &&
    (At(b, sq).None? || At(b, sq).value.color != p.color)
  }

  /** The ray in direction d reaches its i-th square: every square strictly
      before it is passable and the square itself can be landed on. */
  predicate RayReaches(p: Piece, b: Board, d: Offset, i: int) {
    1 <= i < BoardSize && (forall j :: 1 <= j < i ==> Passable(p, b, d, j)) && Landable(p, b, d, i)
  }

  ghost predicate SlideTarget(p: Piece, b: Board, directions: seq<Offset>, m: Dest) {
    m.Plain? &&
    exists k, i :: 0 <= k < |directions| && RayReaches(p, b, directions[k], i) && m.at == Shift(p.position, directions[k], i)
  }

  /** The destinations along one ray. */
  ghost predicate RayTarget(p: Piece, b: Board, d: Offset, m: Dest) {
    m.Plain? && exists i :: RayReaches(p, b, d, i) && m.at == Shift(p.position, d, i)
  }

  /** Walks one ray outward and stops at the board's edge, at the edge of
      the piece's own radius, or at the first piece, which is kept only
      when it is an enemy. */
  method WalkRay(p: Piece, b: Board, d: Offset) returns (moves: seq<Dest>)
    ensures forall m :: m in moves <==> RayTarget(p, b, d, m)
  {
    moves := [];
    var start := p.position;
    var i := 1;
    while i < BoardSize
      invariant 1 <= i <= BoardSize
      invariant forall j :: 1 <= j < i ==> Passable(p, b, d, j)
      invariant forall m :: m in moves <==>
        m.Plain? && exists j :: 1 <= j < i && RayReaches(p, b, d, j) && m.at == Shift(start, d, j)
    {
      var current := Shift(start, d, i);
      if !IsWithinBoard(current.row, current.col) || !IsSquareDirectlyVisibleByPiece(current, Some(p)) {
        RayEndsAt(p, b, d, i);
        break;
      }
      var pieceAtTarget := b[current.row][current.col];
      if pieceAtTarget.Some? {
        RayEndsAfter(p, b, d, i);
        if pieceAtTarget.value.color != p.color {
          moves := moves + [Plain(current)];
        }
        break;
      } else {
        moves := moves + [Plain(current)];
      }
      i := i + 1;
    }
  }

  /** A ray that cannot pass its i-th square reaches nothing beyond it. */
  lemma RayEndsAfter(p: Piece, b: Board, d: Offset, i: int)
    requires 1 <= i && !Passable(p, b, d, i)
    ensures forall j :: i < j ==> !RayReaches(p, b, d, j)
  {
  }

  /** A ray whose i-th square is off the board or unseen reaches neither it nor anything beyond. */
  lemma RayEndsAt(p: Piece, b: Board, d: Offset, i: int)
    requires 1 <= i
    requires !OnBoard(Shift(p.position, d, i)) || !IsSquareDirectlyVisibleByPiece(Shift(p.position, d, i), Some(p))
    ensures forall j :: i <= j ==> !RayReaches(p, b, d, j)
  {
    RayEndsAfter(p, b, d, i);
  }

  /** Collects the destinations along every direction in turn. */
  method GetSlidingPieceMoves(p: Piece, b: Board, directions: seq<Offset>) returns (moves: seq<Dest>)
    ensures forall m :: m in moves <==> SlideTarget(p, b, directions, m)
  {
    moves := [];
    for k := 0 to |directions|
      invariant forall m :: m in moves <==> exists k' :: 0 <= k' < k && RayTarget(p, b, directions[k'], m)
    {
      var ray := WalkRay(p, b, directions[k]);
      moves := moves + ray;
    }
  }

  /** Every direction moves at most one row and one column per step. */
  predicate UnitDirections(directions: seq<Offset>) {
    forall k :: 0 <= k < |directions| ==>
      -1 <= directions[k].dr <= 1 && -1 <= directions[k].dc <= 1 && directions[k] != Offset(0, 0)
  }

  lemma ShiftDistance(s: Square, d: Offset, i: int)
    requires -1 <= d.dr <= 1 && -1 <= d.dc <= 1 && d != Offset(0, 0) && i >= 1
    ensures Chebyshev(Shift(s, d, i), s) == i
  {
  }

  /** A sliding destination along unit directions is i squares away, with
      1 <= i <= the piece's own radius. */
  lemma SlideWithinRadius(p: Piece, b: Board, directions: seq<Offset>, m: Dest)
    requires UnitDirections(directions) && SlideTarget(p, b, directions, m)
    ensures exists k, i ::
      && 0 <= k < |directions| && m.at == Shift(p.position, directions[k], i)
      && p.fovRange.Some? && 1 <= i <= p.fovRange.value && Chebyshev(m.at, p.position) == i
  {
    var k, i :| 0 <= k < |directions| && RayReaches(p, b, directions[k], i) && m.at == Shift(p.position, directions[k], i);
    ShiftDistance(p.position, directions[k], i);
  }

  /** Every sliding destination is on the board and holds no piece of the mover's colour. */
  lemma SlideTargetSafe(p: Piece, b: Board, directions: seq<Offset>, m: Dest)
    requires SlideTarget(p, b, directions, m)
    ensures CanOccupySquare(m.at.row, m.at.col, p.color, b)
  {
  }

  /** On each ray only the first occupied square can be a destination, and
      only when it holds an enemy; no square beyond it is. */
  lemma RayStopsAtFirstPiece(p: Piece, b: Board, d: Offset, j: int, i: int)
    requires 1 <= j < i && OnBoard(Shift(p.position, d, j)) && At(b, Shift(p.position, d, j)).Some?
    ensures !RayReaches(p, b, d, i)
  {
    assert !Passable(p, b, d, j);
  }

  const RookDirections: seq<Offset> := [Offset(-1, 0), Offset(1, 0), Offset(0, -1), Offset(0, 1)]
  const BishopDirections: seq<Offset> := [Offset(-1, -1), Offset(-1, 1), Offset(1, -1), Offset(1, 1)]
  const QueenDirections: seq<Offset> := RookDirections + BishopDirections

  /** The rook slides along its row and column, at most its radius (3) far. */
  method GetRookMoves(rook: Piece, b: Board) returns (moves: seq<Dest>)
    ensures forall m :: m in moves <==> SlideTarget(rook, b, RookDirections, m)
    ensures forall m :: m in moves ==>
      (m.at.row == rook.position.row || m.at.col == rook.position.col) &&
      rook.fovRange.Some? && 1 <= Chebyshev(m.at, rook.position) <= rook.fovRange.value
  {
    moves := GetSlidingPieceMoves(rook, b, RookDirections);
    forall m | m in moves
      ensures (m.at.row == rook.position.row || m.at.col == rook.position.col) &&
        rook.fovRange.Some? && 1 <= Chebyshev(m.at, rook.position) <= rook.fovRange.value
    {
      SlideWithinRadius(rook, b, RookDirections, m);
    }
  }

  /** The bishop slides along its diagonals, at most its radius (1) far. */
  method GetBishopMoves(bishop: Piece, b: Board) returns (moves: seq<Dest>)
    ensures forall m :: m in moves <==> SlideTarget(bishop, b, BishopDirections, m)
    ensures forall m :: m in moves ==>
      Abs(m.at.row - bishop.position.row) == Abs(m.at.col - bishop.position.col) &&
      bishop.fovRange.Some? && 1 <= Chebyshev(m.at, bishop.position) <= bishop.fovRange.value
  {
    moves := GetSlidingPieceMoves(bishop, b, BishopDirections);
    forall m | m in moves
      ensures Abs(m.at.row - bishop.position.row) == Abs(m.at.col - bishop.position.col) &&
        bishop.fovRange.Some? && 1 <= Chebyshev(m.at, bishop.position) <= bishop.fovRange.value
    {
      SlideWithinRadius(bishop, b, BishopDirections, m);
    }
  }

  /** The queen slides along rows, columns and diagonals, at most its radius (2) far. */
  method GetQueenMoves(queen: Piece, b: Board) returns (moves: seq<Dest>)
    ensures forall m :: m in moves <==> SlideTarget(queen, b, QueenDirections, m)
    ensures forall m :: m in moves ==>
      (m.at.row == queen.position.row || m.at.col == queen.position.col ||
       Abs(m.at.row - queen.position.row) == Abs(m.at.col - queen.position.col)) &&
      queen.fovRange.Some? && 1 <= Chebyshev(m.at, queen.position) <= queen.fovRange.value
  {
    moves := GetSlidingPieceMoves(queen, b, QueenDirections);
    forall m | m in moves
      ensures (m.at.row == queen.position.row || m.at.col == queen.position.col ||
               Abs(m.at.row - queen.position.row) == Abs(m.at.col - queen.position.col)) &&
        queen.fovRange.Some? && 1 <= Chebyshev(m.at, queen.position) <= queen.fovRange.value
    {
      SlideWithinRadius(queen, b, QueenDirections, m);
    }
  }

  // ---------------------------------------------------------------------
  // Knights and kings

  /** A fixed-offset destination: on the board, not held by the mover's
      colour, and seen by the piece itself. */
  predicate StepOk(p: Piece, b: Board, sq: Square) {
    IsWithinBoard(sq.row, sq.col) && CanOccupySquare(sq.row, sq.col, p.color, b) &&
    IsSquareDirectlyVisibleByPiece(sq, Some(p))
  }

  /** Tries each offset once. */
  method GetOffsetMoves(p: Piece, b: Board, offsets: seq<Offset>) returns (moves: seq<Dest>)
    ensures forall m :: m in moves <==>
      m.Plain? && (exists k :: 0 <= k < |offsets| && m.at == Translate(p.position, offsets[k])) && StepOk(p, b, m.at)
  {
    moves := [];
    for k := 0 to |offsets|
      invariant forall m :: m in moves <==>
        m.Plain? && (exists k' :: 0 <= k' < k && m.at == Translate(p.position, offsets[k'])) && StepOk(p, b, m.at)
    {
      var targetSquarePos := Translate(p.position, offsets[k]);
      if IsWithinBoard(targetSquarePos.row, targetSquarePos.col) &&
         CanOccupySquare(targetSquarePos.row, targetSquarePos.col, p.color, b) &&
         IsSquareDirectlyVisibleByPiece(targetSquarePos, Some(p))
      {
        moves := moves + [Plain(targetSquarePos)];
      }
    }
  }

  const KnightOffsets: seq<Offset> := [
    Offset(-2, -1), Offset(-2, 1), Offset(-1, -2), Offset(-1, 2),
    Offset(1, -2), Offset(1, 2), Offset(2, -1), Offset(2, 1)
  ]

  const KingOffsets: seq<Offset> := [
    Offset(-1, -1), Offset(-1, 0), Offset(-1, 1),
    Offset(0, -1), Offset(0, 1),
    Offset(1, -1), Offset(1, 0), Offset(1, 1)
  ]

  /** The L-shaped jump: one row and two columns, or two rows and one column. */
  predicate IsKnightJump(from: Square, to: Square) {
    (Abs(to.row - from.row) == 1 && Abs(to.col - from.col) == 2) ||
    (Abs(to.row - from.row) == 2 && Abs(to.col - from.col) == 1)
  }

  predicate IsKingStep(from: Square, to: Square) {
    Chebyshev(to, from) == 1
  }

  /** The knight offset table lists exactly the L-shaped jumps. */
  lemma KnightOffsetsAreJumps(from: Square, to: Square)
    ensures (exists k :: 0 <= k < |KnightOffsets| && to == Translate(from, KnightOffsets[k])) <==> IsKnightJump(from, to)
  {
    if IsKnightJump(from, to) {
      var d := Offset(to.row - from.row, to.col - from.col);
      var k :=
        if d == Offset(-2, -1) then 0 else if d == Offset(-2, 1) then 1
        else if d == Offset(-1, -2) then 2 else if d == Offset(-1, 2) then 3
        else if d == Offset(1, -2) then 4 else if d == Offset(1, 2) then 5
        else if d == Offset(2, -1) then 6 else 7;
      assert to == Translate(from, KnightOffsets[k]);
    }
  }

  /** The king offset table lists exactly the eight neighbouring squares. */
  lemma KingOffsetsAreSteps(from: Square, to: Square)
    ensures (exists k :: 0 <= k < |KingOffsets| && to == Translate(from, KingOffsets[k])) <==> IsKingStep(from, to)
  {
    if IsKingStep(from, to) {
      var d := Offset(to.row - from.row, to.col - from.col);
      var k :=
        if d == Offset(-1, -1) then 0 else if d == Offset(-1, 0) then 1
        else if d == Offset(-1, 1) then 2 else if d == Offset(0, -1) then 3
        else if d == Offset(0, 1) then 4 else if d == Offset(1, -1) then 5
        else if d == Offset(1, 0) then 6 else 7;
      assert to == Translate(from, KingOffsets[k]);
    }
  }

  method GetKnightMoves(knight: Piece, b: Board) returns (moves: seq<Dest>)
    ensures forall m :: m in moves <==> m.Plain? && IsKnightJump(knight.position, m.at) && StepOk(knight, b, m.at)
  {
    moves := GetOffsetMoves(knight, b, KnightOffsets);
    forall m ensures m in moves <==> m.Plain? && IsKnightJump(knight.position, m.at) && StepOk(knight, b, m.at) {
      KnightOffsetsAreJumps(knight.position, m.at);
    }
  }

  /** No castling: only the eight neighbouring squares. */
  method GetKingMoves(king: Piece, b: Board) returns (moves: seq<Dest>)
    ensures forall m :: m in moves <==> m.Plain? && IsKingStep(king.position, m.at) && StepOk(king, b, m.at)
  {
    moves := GetOffsetMoves(king, b, KingOffsets);
    forall m ensures m in moves <==> m.Plain? && IsKingStep(king.position, m.at) && StepOk(king, b, m.at) {
      KingOffsetsAreSteps(king.position, m.at);
    }
  }

  // ---------------------------------------------------------------------
  // Dispatch

  ghost predicate LegalTarget(p: Piece, b: Board, lastMove: Option<LastMove>, m: Dest) {
    match p.kind
    case Pawn => PawnTarget(p, b, lastMove, m)
    case Rook => SlideTarget(p, b, RookDirections, m)
    case Knight => m.Plain? && IsKnightJump(p.position, m.at) && StepOk(p, b, m.at)
    case Bishop => SlideTarget(p, b, BishopDirections, m)
    case Queen => SlideTarget(p, b, QueenDirections, m)
    case King => m.Plain? && IsKingStep(p.position, m.at) && StepOk(p, b, m.at)
    case Unrecognized(_) => false
  }

  /** Every destination is on the board; a plain destination never holds a
      piece of the mover's colour (the en-passant landing square is not
      looked at). */
  lemma LegalTargetSafe(p: Piece, b: Board, lastMove: Option<LastMove>, m: Dest)
    requires LegalTarget(p, b, lastMove, m)
    ensures OnBoard(m.at)
    ensures m.Plain? ==> CanOccupySquare(m.at.row, m.at.col, p.color, b)
  {
  }

  /** The destinations of any piece; none for a missing piece or an unrecognised type. */
  method GetLegalMovesForPiece(piece: Option<Piece>, b: Board, lastMove: Option<LastMove>) returns (moves: seq<Dest>)
    ensures piece.None? || piece.value.kind.Unrecognized? ==> moves == []
    ensures forall m :: m in moves <==> piece.Some? && LegalTarget(piece.value, b, lastMove, m)
    ensures forall m :: m in moves ==>
      OnBoard(m.at) && (m.Plain? ==> CanOccupySquare(m.at.row, m.at.col, piece.value.color, b))
  {
    if piece.None? {
      return [];
    }
    var p := piece.value;
    match p.kind {
      case Pawn => moves := GetPawnMoves(p, b, lastMove);
      case Rook => moves := GetRookMoves(p, b);
      case Knight => moves := GetKnightMoves(p, b);
      case Bishop => moves := GetBishopMoves(p, b);
      case Queen => moves := GetQueenMoves(p, b);
      case King => moves := GetKingMoves(p, b);
      case Unrecognized(_) => moves := [];
    }
    forall m | m in moves
      ensures OnBoard(m.at) && (m.Plain? ==> CanOccupySquare(m.at.row, m.at.col, p.color, b))
    {
      LegalTargetSafe(p, b, lastMove, m);
    }
  }

  /** Every destination except the pawn's two-square push lies within the
      mover's own radius: moves are gated by what the piece itself sees. */
  lemma DestinationsWithinOwnRadius(p: Piece, b: Board, lastMove: Option<LastMove>, m: Dest)
    requires LegalTarget(p, b, lastMove, m)
    requires !(p.kind == Pawn && m == Plain(TwoSteps(p)))
    ensures IsSquareDirectlyVisibleByPiece(m.at, Some(p))
  {
    match p.kind {
      case Rook => SlideTargetSafe(p, b, RookDirections, m);
      case Bishop => SlideTargetSafe(p, b, BishopDirections, m);
      case Queen => SlideTargetSafe(p, b, QueenDirections, m);
      case _ =>
    }
  }

  // ---------------------------------------------------------------------
  // Worked positions

  /** In the starting position the white pawn on (6, 4) has exactly two
      destinations: (5, 4) and (4, 4). */
  lemma OpeningPawnPushes(p: Piece)
    requires StandardBoard()[6][4] == Some(p)
    ensures forall m :: LegalTarget(p, StandardBoard(), None, m) <==>
      m == Plain(Square(5, 4)) || m == Plain(Square(4, 4))
  {
    var b := StandardBoard();
    StandardBoardLayout();
    assert p.kind == Pawn && p.color == White && p.position == Square(6, 4) && !p.hasMoved;
    assert b[5][3].None? && b[5][4].None? && b[5][5].None? && b[4][4].None?;
  }

  /** A black pawn on (4, 3) next to a white pawn that has just moved from
      (6, 4) to (4, 4) may take it en passant, landing on (5, 4). */
  lemma EnPassantAfterDoubleStep(b: Board, black: Piece, white: Piece)
    requires black.kind == Pawn && black.color == Black && black.position == Square(4, 3)
    requires black.fovRange == FovRange(Pawn) && white.kind == Pawn
    ensures LegalTarget(black, b, Some(LastMove(white, Square(6, 4), Square(4, 4))), EnPassant(Square(5, 4), Square(4, 4)))
  {
  }

  /** A rook on (7, 0) with an empty file in front of it slides to (4, 0),
      three squares up. */
  lemma RookSlidesToItsRadius(b: Board, rook: Piece)
    requires rook.position == Square(7, 0) && rook.fovRange == FovRange(Rook)
    requires forall r :: 4 <= r < 7 ==> b[r][0].None?
    ensures SlideTarget(rook, b, RookDirections, Plain(Square(4, 0)))
  {
    var up := RookDirections[0];
    assert Passable(rook, b, up, 1) && Passable(rook, b, up, 2);
    assert forall j :: 1 <= j < 3 ==> Passable(rook, b, up, j);
    assert Landable(rook, b, up, 3);
    assert RayReaches(rook, b, up, 3) && Square(4, 0) == Shift(rook.position, up, 3);
  }

  /** A white rook on (7, 0) with an empty file in front of it reaches
      (4, 0), three squares up. */
  lemma RookReachesItsRadius(b: Board, rook: Piece)
    requires rook.kind == Rook && rook.position == Square(7, 0) && rook.fovRange == FovRange(Rook)
    requires forall r :: 4 <= r < 7 ==> b[r][0].None?
    ensures LegalTarget(rook, b, None, Plain(Square(4, 0)))
  {
    RookSlidesToItsRadius(b, rook);
  }

  /** A rook on (7, 0) never reaches (3, 0), four squares up, whatever the board. */
  lemma RookStopsAtItsRadius(b: Board, rook: Piece)
    requires rook.position == Square(7, 0) && rook.fovRange == FovRange(Rook)
    ensures !SlideTarget(rook, b, RookDirections, Plain(Square(3, 0)))
  {
    if SlideTarget(rook, b, RookDirections, Plain(Square(3, 0))) {
      SlideWithinRadius(rook, b, RookDirections, Plain(Square(3, 0)));
      assert false;
    }
  }
}
