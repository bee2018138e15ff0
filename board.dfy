/** The board model of the fog-of-war chess engine: pieces, the 8x8 grid,
    the per-type vision radii, piece creation, the starting position and
    the point queries on squares. */
module ChessBoard {

  datatype Option<T> = None | Some(value: T)

  datatype Color = White | Black

  /** The type names the engine knows. */
  const KnownTypeNames: set<string> := {"pawn", "rook", "knight", "bishop", "queen", "king"}

  /** Any type name other than the six known ones. */
  type UnknownTypeName = s: string | s !in KnownTypeNames witness ""

  /** The six piece types, plus any other type name a caller may pass in;
      the engine looks such a name up in its radius table and finds nothing. */
  datatype PieceType = Pawn | Rook | Knight | Bishop | Queen | King | Unrecognized(name: UnknownTypeName)

  /** A square as a pair of integers; it need not lie on the board. */
  datatype Square = Square(row: int, col: int)

  /** A piece record.  `fovRange` is None where the radius table has no
      entry for `kind` (the JavaScript value `undefined`). */
  datatype Piece = Piece(id: string, kind: PieceType, color: Color, position: Square,
                         fovRange: Option<int>, hasMoved: bool)

  const BoardSize: int := 8

  type Row = seq<Option<Piece>>

  /** An 8x8 grid, indexed board[row][col], each cell holding a piece or nothing. */
  type Board = b: seq<Row> | |b| == BoardSize && forall r :: 0 <= r < |b| ==> |b[r]| == BoardSize
    witness seq(8, _ => seq(8, _ => None))

  /** The vision radius table, by piece type. */
  function FovRange(t: PieceType): (r: Option<int>)
    ensures r.Some? <==> !t.Unrecognized?
    ensures r.Some? ==> 1 <= r.value <= 3
  {
    match t
    case Pawn => Some(1)
    case Rook => Some(3)
    case Knight => Some(2)
    case Bishop => Some(1)
    case Queen => Some(2)
    case King => Some(1)
    case Unrecognized(_) => None
  }

  predicate IsWithinBoard(row: int, col: int) {
    0 <= row < BoardSize && 0 <= col < BoardSize
  }

  predicate OnBoard(sq: Square) {
    IsWithinBoard(sq.row, sq.col)
  }

  function At(b: Board, sq: Square): Option<Piece>
    requires OnBoard(sq)
  {
    b[sq.row][sq.col]
  }

  /** The board with one cell replaced. */
  function Put(b: Board, sq: Square, x: Option<Piece>): (r: Board)
    requires OnBoard(sq)
    ensures At(r, sq) == x
    ensures forall s :: OnBoard(s) && s != sq ==> At(r, s) == At(b, s)
  {
    b[sq.row := b[sq.row][sq.col := x]]
  }

  lemma BoardExtensionality(b1: Board, b2: Board)
    requires forall r, c :: 0 <= r < 8 && 0 <= c < 8 ==> b1[r][c] == b2[r][c]
    ensures b1 == b2
  {
    forall r | 0 <= r < 8 ensures b1[r] == b2[r] {
      assert forall c :: 0 <= c < 8 ==> b1[r][c] == b2[r][c];
    }
  }

  /** A square is a move target for a piece of `color` when it is on the board
      and holds no piece of that colour. */
  predicate CanOccupySquare(targetRow: int, targetCol: int, color: Color, b: Board) {
    IsWithinBoard(targetRow, targetCol) &&
    (b[targetRow][targetCol].None? || b[targetRow][targetCol].value.color != color)
  }

  /** A piece as the engine creates it: its radius comes from the table. */
  function CreatePiece(id: string, kind: PieceType, color: Color, row: int, col: int, hasMoved: bool): Piece {
    Piece(id, kind, color, Square(row, col), FovRange(kind), hasMoved)
  }

  // ---------------------------------------------------------------------
  // Piece ids "piece-0" ... "piece-31"

  function DigitChar(d: nat): char
    requires d < 10
  {
    "0123456789"[d]
  }

  /** The decimal spelling of a natural number, as a template string shows it. */
  function NatToString(n: nat): (s: string)
    ensures |s| >= 1 && (n < 10 <==> |s| == 1)
    decreases n
  {
    if n < 10 then [DigitChar(n)] else NatToString(n / 10) + [DigitChar(n % 10)]
  }

  function PieceId(n: nat): string {
    "piece-" + NatToString(n)
  }

  lemma DigitCharInjective(a: nat, b: nat)
    requires a < 10 && b < 10 && DigitChar(a) == DigitChar(b)
    ensures a == b
  {
  }

  lemma {:induction false} NatToStringInjective(a: nat, b: nat)
    requires NatToString(a) == NatToString(b)
    ensures a == b
    decreases a
  {
    if a < 10 {
      DigitCharInjective(a, b);
    } else {
      var sa, sb := NatToString(a), NatToString(b);
      assert |sb| == |sa| >= 2;
      assert sa[..|sa| - 1] == NatToString(a / 10);
      assert sb[..|sb| - 1] == NatToString(b / 10);
      assert sa[|sa| - 1] == DigitChar(a % 10);
      assert sb[|sb| - 1] == DigitChar(b % 10);
      DigitCharInjective(a % 10, b % 10);
      NatToStringInjective(a / 10, b / 10);
    }
  }

  /** Distinct counter values give distinct piece ids. */
  lemma {:induction false} PieceIdInjective(a: nat, b: nat)
    requires PieceId(a) == PieceId(b)
    ensures a == b
  {
    assert PieceId(a)[6..] == NatToString(a);
    assert PieceId(b)[6..] == NatToString(b);
    NatToStringInjective(a, b);
  }

  // ---------------------------------------------------------------------
  // The starting position

  /** The back rank, read from column 0 to column 7. */
  function BackRank(col: int): PieceType
    requires 0 <= col < 8
  {
    [Rook, Knight, Bishop, Queen, King, Bishop, Knight, Rook][col]
  }

  predicate IsStartRow(row: int) {
    row == 0 || row == 1 || row == 6 || row == 7
  }

  function StartColor(row: int): Color {
    if row <= 1 then Black else White
  }

  function StartKind(row: int, col: int): PieceType
    requires 0 <= col < 8
  {
    if row == 1 || row == 6 then Pawn else BackRank(col)
  }

  /** The value of the id counter when the initializer places the piece of
      (row, col): the pawns alternate black/white column by column
      (0..15), then rooks, knights, bishops, queens and kings follow
      in that order, black before white. */
  function StartIndex(row: int, col: int): nat
    requires 0 <= col < 8
  {
    if row == 1 then 2 * col
    else if row == 6 then 2 * col + 1
    else
      var black := row == 0;
      match col
      case 0 => if black then 16 else 18
      case 7 => if black then 17 else 19
      case 1 => if black then 20 else 22
      case 6 => if black then 21 else 23
      case 2 => if black then 24 else 26
      case 5 => if black then 25 else 27
      case 3 => if black then 28 else 29
      case _ => if black then 30 else 31
  }

  function StartCell(row: int, col: int): Option<Piece>
    requires 0 <= col < 8
  {
    if IsStartRow(row) then
      Some(CreatePiece(PieceId(StartIndex(row, col)), StartKind(row, col), StartColor(row), row, col, false))
    else None
  }

  /** The board the initializer builds. */
  function StandardBoard(): Board {
    seq(8, r => seq(8, c requires 0 <= c < 8 => StartCell(r, c)))
  }

  function EmptyBoard(): (b: Board)
    ensures forall r, c :: 0 <= r < 8 && 0 <= c < 8 ==> b[r][c].None?
  {
    seq(8, _ => seq(8, _ => None))
  }

  /** The square whose piece is placed when the counter reads `n`: the
      inverse of StartIndex. */
  function StartSquareOf(n: nat): Square
    requires n < 32
  {
    if n < 16 then Square(if n % 2 == 0 then 1 else 6, n / 2)
    else
      var k := (n - 16) / 4;
      var row := if n < 28 then (if (n - 16) % 4 < 2 then 0 else 7) else (if n % 2 == 0 then 0 else 7);
      var col :=
        if n >= 30 then 4 else if n >= 28 then 3
        else [[0, 7], [1, 6], [2, 5]][k][(n - 16) % 2];
      Square(row, col)
  }

  lemma StartIndexInverse(row: int, col: int)
    requires IsStartRow(row) && 0 <= col < 8
    ensures StartIndex(row, col) < 32
    ensures StartSquareOf(StartIndex(row, col)) == Square(row, col)
  {
  }

  /** Each starting square has its own counter value. */
  lemma StartIndexInjective(r1: int, c1: int, r2: int, c2: int)
    requires IsStartRow(r1) && 0 <= c1 < 8 && IsStartRow(r2) && 0 <= c2 < 8
    requires StartIndex(r1, c1) == StartIndex(r2, c2)
    ensures r1 == r2 && c1 == c2
  {
    StartIndexInverse(r1, c1);
    StartIndexInverse(r2, c2);
  }

  /** The first `n` placements are on the board, the other cells are empty. */
  ghost predicate Placed(board: Board, n: nat) {
    forall r, c :: 0 <= r < 8 && 0 <= c < 8 ==>
      board[r][c] == if IsStartRow(r) && StartIndex(r, c) < n then StartCell(r, c) else None
  }

  lemma PlacedStep(board: Board, n: nat, kind: PieceType, color: Color, sq: Square)
    requires OnBoard(sq) && IsStartRow(sq.row) && Placed(board, n)
    requires StartIndex(sq.row, sq.col) == n && kind == StartKind(sq.row, sq.col) && color == StartColor(sq.row)
    ensures Placed(Put(board, sq, Some(CreatePiece(PieceId(n), kind, color, sq.row, sq.col, false))), n + 1)
  {
    forall r, c | 0 <= r < 8 && 0 <= c < 8 && IsStartRow(r) && StartIndex(r, c) == n
      ensures Square(r, c) == sq
    {
      StartIndexInjective(r, c, sq.row, sq.col);
    }
  }

  lemma PlacedAllIsStandard(board: Board)
    requires Placed(board, 32)
    ensures board == StandardBoard()
  {
    forall r, c | 0 <= r < 8 && 0 <= c < 8 && IsStartRow(r) ensures StartIndex(r, c) < 32 {
      StartIndexInverse(r, c);
    }
    BoardExtensionality(board, StandardBoard());
  }

  /** Places a newly created piece and advances the id counter. */
  method PlacePiece(board: Board, counter: nat, kind: PieceType, color: Color, row: int, col: int)
    returns (board': Board, counter': nat)
    requires IsWithinBoard(row, col)
    requires IsStartRow(row) && Placed(board, counter)
    requires StartIndex(row, col) == counter && kind == StartKind(row, col) && color == StartColor(row)
    ensures counter' == counter + 1
    ensures board' == Put(board, Square(row, col), Some(CreatePiece(PieceId(counter), kind, color, row, col, false)))
    ensures Placed(board', counter')
  {
    PlacedStep(board, counter, kind, color, Square(row, col));
    board' := board[row := board[row][col := Some(CreatePiece(PieceId(counter), kind, color, row, col, false))]];
    counter' := counter + 1;
  }

  /** The placements after the pawns, in the initializer's order. */
  const OtherPieces: seq<(PieceType, Color, int, int)> := [
    (Rook, Black, 0, 0), (Rook, Black, 0, 7), (Rook, White, 7, 0), (Rook, White, 7, 7),
    (Knight, Black, 0, 1), (Knight, Black, 0, 6), (Knight, White, 7, 1), (Knight, White, 7, 6),
    (Bishop, Black, 0, 2), (Bishop, Black, 0, 5), (Bishop, White, 7, 2), (Bishop, White, 7, 5),
    (Queen, Black, 0, 3), (Queen, White, 7, 3),
    (King, Black, 0, 4), (King, White, 7, 4)
  ]

  /** The i-th of these placements is the starting piece whose counter value is 16 + i. */
  lemma OtherPiecesInOrder(i: int)
    requires 0 <= i < |OtherPieces|
    ensures var (kind, color, row, col) := OtherPieces[i];
      IsWithinBoard(row, col) && IsStartRow(row) && StartIndex(row, col) == 16 + i &&
      kind == StartKind(row, col) && color == StartColor(row)
  {
  }

  /** Builds the starting position. */
  method InitializeBoard() returns (board: Board)
    ensures board == StandardBoard()
  {
    board := EmptyBoard();
    var counter: nat := 0;
    for c := 0 to 8
      invariant counter == 2 * c
      invariant Placed(board, counter)
    {
      board, counter := PlacePiece(board, counter, Pawn, Black, 1, c);
      board, counter := PlacePiece(board, counter, Pawn, White, 6, c);
    }
    for i := 0 to |OtherPieces|
      invariant counter == 16 + i
      invariant Placed(board, counter)
    {
      OtherPiecesInOrder(i);
      var (kind, color, row, col) := OtherPieces[i];
      board, counter := PlacePiece(board, counter, kind, color, row, col);
    }
    PlacedAllIsStandard(board);
  }

  // ---------------------------------------------------------------------
  // Counting pieces

  /** Which cells a count is about. */
  datatype CellKind = AnyPiece | OfColor(color: Color) | KingOf(kingColor: Color)

  predicate Matches(k: CellKind, cell: Option<Piece>) {
    cell.Some? &&
    match k
    case AnyPiece => true
    case OfColor(c) => cell.value.color == c
    case KingOf(c) => cell.value.kind == King && cell.value.color == c
  }

  function Ind(b: bool): nat {
    if b then 1 else 0
  }

  function RowCount(row: Row, k: CellKind): nat {
    if |row| == 0 then 0 else RowCount(row[..|row| - 1], k) + Ind(Matches(k, row[|row| - 1]))
  }

  function RowsCount(rows: seq<Row>, k: CellKind): nat {
    if |rows| == 0 then 0 else RowsCount(rows[..|rows| - 1], k) + RowCount(rows[|rows| - 1], k)
  }

  /** The number of cells of the board that hold a piece of kind `k`. */
  function Count(b: Board, k: CellKind): nat {
    RowsCount(b, k)
  }

  lemma {:induction false} RowCountUpdate(row: Row, i: int, x: Option<Piece>, k: CellKind)
    requires 0 <= i < |row|
    ensures RowCount(row[i := x], k) + Ind(Matches(k, row[i])) == RowCount(row, k) + Ind(Matches(k, x))
    decreases |row|
  {
    var n := |row| - 1;
    if i < n {
      assert row[i := x][..n] == row[..n][i := x];
      RowCountUpdate(row[..n], i, x, k);
    } else {
      assert row[i := x][..n] == row[..n];
    }
  }

  lemma {:induction false} RowsCountUpdate(rows: seq<Row>, i: int, newRow: Row, k: CellKind)
    requires 0 <= i < |rows|
    ensures RowsCount(rows[i := newRow], k) + RowCount(rows[i], k) == RowsCount(rows, k) + RowCount(newRow, k)
    decreases |rows|
  {
    var n := |rows| - 1;
    if i < n {
      assert rows[i := newRow][..n] == rows[..n][i := newRow];
      RowsCountUpdate(rows[..n], i, newRow, k);
    } else {
      assert rows[i := newRow][..n] == rows[..n];
    }
  }

  /** Replacing one cell changes a count by what leaves and what arrives. */
  lemma CountPut(b: Board, sq: Square, x: Option<Piece>, k: CellKind)
    requires OnBoard(sq)
    ensures Count(Put(b, sq, x), k) + Ind(Matches(k, At(b, sq))) == Count(b, k) + Ind(Matches(k, x))
  {
    var row := b[sq.row];
    RowCountUpdate(row, sq.col, x, k);
    RowsCountUpdate(b, sq.row, row[sq.col := x], k);
  }

  /** A row count is positive exactly when some cell of the row matches. */
  lemma {:induction false} RowCountPositive(row: Row, k: CellKind)
    ensures RowCount(row, k) > 0 <==> exists c :: 0 <= c < |row| && Matches(k, row[c])
    decreases |row|
  {
    if |row| > 0 {
      var n := |row| - 1;
      RowCountPositive(row[..n], k);
      if exists c :: 0 <= c < |row| && Matches(k, row[c]) {
        var c :| 0 <= c < |row| && Matches(k, row[c]);
        if c < n { assert Matches(k, row[..n][c]); }
      }
      if exists c :: 0 <= c < n && Matches(k, row[..n][c]) {
        var c :| 0 <= c < n && Matches(k, row[..n][c]);
        assert Matches(k, row[c]);
      }
    }
  }

  /** A board count is positive exactly when some cell of the board matches. */
  lemma {:induction false} RowsCountPositive(rows: seq<Row>, k: CellKind)
    ensures RowsCount(rows, k) > 0 <==> exists r, c :: 0 <= r < |rows| && 0 <= c < |rows[r]| && Matches(k, rows[r][c])
    decreases |rows|
  {
    if |rows| > 0 {
      var n := |rows| - 1;
      RowsCountPositive(rows[..n], k);
      RowCountPositive(rows[n], k);
      if exists r, c :: 0 <= r < |rows| && 0 <= c < |rows[r]| && Matches(k, rows[r][c]) {
        var r, c :| 0 <= r < |rows| && 0 <= c < |rows[r]| && Matches(k, rows[r][c]);
        if r < n { assert Matches(k, rows[..n][r][c]); }
      }
      if exists r, c :: 0 <= r < n && 0 <= c < |rows[..n][r]| && Matches(k, rows[..n][r][c]) {
        var r, c :| 0 <= r < n && 0 <= c < |rows[..n][r]| && Matches(k, rows[..n][r][c]);
        assert Matches(k, rows[r][c]);
      }
    }
  }

  lemma {:induction false} RowCountAll(row: Row, k: CellKind)
    requires forall c :: 0 <= c < |row| ==> Matches(k, row[c])
    ensures RowCount(row, k) == |row|
    decreases |row|
  {
    if |row| > 0 {
      RowCountAll(row[..|row| - 1], k);
    }
  }

  lemma {:induction false} RowCountNone(row: Row, k: CellKind)
    requires forall c :: 0 <= c < |row| ==> !Matches(k, row[c])
    ensures RowCount(row, k) == 0
    decreases |row|
  {
    if |row| > 0 {
      RowCountNone(row[..|row| - 1], k);
    }
  }

  lemma {:induction false} RowCountOne(row: Row, k: CellKind, j: int)
    requires 0 <= j < |row| && Matches(k, row[j])
    requires forall c :: 0 <= c < |row| && c != j ==> !Matches(k, row[c])
    ensures RowCount(row, k) == 1
    decreases |row|
  {
    var n := |row| - 1;
    if j < n {
      RowCountOne(row[..n], k, j);
    } else {
      RowCountNone(row[..n], k);
    }
  }

  lemma RowsCountEight(rows: seq<Row>, k: CellKind)
    requires |rows| == 8
    ensures RowsCount(rows, k) ==
      RowCount(rows[0], k) + RowCount(rows[1], k) + RowCount(rows[2], k) + RowCount(rows[3], k) +
      RowCount(rows[4], k) + RowCount(rows[5], k) + RowCount(rows[6], k) + RowCount(rows[7], k)
  {
    assert rows[..8] == rows;
    forall i | 0 <= i < 8 ensures RowsCount(rows[..i + 1], k) == RowsCount(rows[..i], k) + RowCount(rows[i], k) {
      assert rows[..i + 1][..i] == rows[..i];
    }
  }

  // ---------------------------------------------------------------------
  // Properties of the starting position

  /** Black pawns fill row 1, white pawns row 6, the back ranks hold
      R N B Q K B N R, rows 2 to 5 are empty, and every piece stands on its
      own position with its table radius and has not moved. */
  lemma StandardBoardLayout()
    ensures forall r, c :: 0 <= r < 8 && 0 <= c < 8 ==>
      (StandardBoard()[r][c].Some? <==> IsStartRow(r))
    ensures forall c :: 0 <= c < 8 ==>
      StandardBoard()[1][c].Some? && StandardBoard()[1][c].value.kind == Pawn && StandardBoard()[1][c].value.color == Black &&
      StandardBoard()[6][c].Some? && StandardBoard()[6][c].value.kind == Pawn && StandardBoard()[6][c].value.color == White &&
      StandardBoard()[0][c].Some? && StandardBoard()[0][c].value.kind == BackRank(c) && StandardBoard()[0][c].value.color == Black &&
      StandardBoard()[7][c].Some? && StandardBoard()[7][c].value.kind == BackRank(c) && StandardBoard()[7][c].value.color == White
    ensures forall r, c :: 0 <= r < 8 && 0 <= c < 8 && StandardBoard()[r][c].Some? ==>
      var p := StandardBoard()[r][c].value;
      p.position == Square(r, c) && p.fovRange == FovRange(p.kind) && !p.hasMoved
  {
  }

  /** The starting position holds exactly 32 pieces. */
  lemma StandardBoardPieceCount()
    ensures Count(StandardBoard(), AnyPiece) == 32
  {
    var b := StandardBoard();
    RowsCountEight(b, AnyPiece);
    forall r | 0 <= r < 8 ensures RowCount(b[r], AnyPiece) == if IsStartRow(r) then 8 else 0 {
      if IsStartRow(r) { RowCountAll(b[r], AnyPiece); } else { RowCountNone(b[r], AnyPiece); }
    }
  }

  /** The starting position holds exactly one king of each colour: black on (0, 4), white on (7, 4). */
  lemma StandardBoardOneKingEach()
    ensures Count(StandardBoard(), KingOf(White)) == 1
    ensures Count(StandardBoard(), KingOf(Black)) == 1
  {
    var b := StandardBoard();
    RowsCountEight(b, KingOf(White));
    RowsCountEight(b, KingOf(Black));
    forall r | 0 <= r < 7 ensures RowCount(b[r], KingOf(White)) == 0 {
      RowCountNone(b[r], KingOf(White));
    }
    RowCountOne(b[7], KingOf(White), 4);
    forall r | 1 <= r < 8 ensures RowCount(b[r], KingOf(Black)) == 0 {
      RowCountNone(b[r], KingOf(Black));
    }
    RowCountOne(b[0], KingOf(Black), 4);
  }

  /** No two pieces of the starting position share an id. */
  lemma StandardBoardDistinctIds()
    ensures forall r1, c1, r2, c2 ::
      0 <= r1 < 8 && 0 <= c1 < 8 && 0 <= r2 < 8 && 0 <= c2 < 8 && (r1, c1) != (r2, c2) &&
      StandardBoard()[r1][c1].Some? && StandardBoard()[r2][c2].Some? ==>
      StandardBoard()[r1][c1].value.id != StandardBoard()[r2][c2].value.id
  {
    var b := StandardBoard();
    forall r1, c1, r2, c2 |
      0 <= r1 < 8 && 0 <= c1 < 8 && 0 <= r2 < 8 && 0 <= c2 < 8 &&
      b[r1][c1].Some? && b[r2][c2].Some? && b[r1][c1].value.id == b[r2][c2].value.id
      ensures (r1, c1) == (r2, c2)
    {
      PieceIdInjective(StartIndex(r1, c1), StartIndex(r2, c2));
      StartIndexInjective(r1, c1, r2, c2);
    }
  }
}
