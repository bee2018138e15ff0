/** The end of the game: it ends when a king has been captured. */
module GameOver {
  import opened ChessBoard
  import opened Visibility

  datatype Winner = WhiteWins | BlackWins

  /** Some square of the board holds a king of `color`. */
  ghost predicate HasKing(b: Board, color: Color) {
    exists r, c :: 0 <= r < 8 && 0 <= c < 8 && Matches(KingOf(color), b[r][c])
  }

  /** A colour has its king exactly when its king count is positive. */
  lemma HasKingIffCounted(b: Board, color: Color)
    ensures HasKing(b, color) <==> Count(b, KingOf(color)) > 0
  {
    RowsCountPositive(b, KingOf(color));
  }

  /** Scans the whole board for the two kings.  A missing white king means
      Black has won, even when the black king is missing too; otherwise a
      missing black king means White has won; with both present the game
      goes on. */
  method CheckGameOver(boardState: Board) returns (result: Option<Winner>)
    ensures !HasKing(boardState, White) ==> result == Some(BlackWins)
    ensures HasKing(boardState, White) && !HasKing(boardState, Black) ==> result == Some(WhiteWins)
    ensures HasKing(boardState, White) && HasKing(boardState, Black) ==> result == None
  {
    var whiteKingFound := false;
    var blackKingFound := false;
    for r := 0 to BoardSize
      invariant whiteKingFound <==> exists r', c :: 0 <= r' < r && 0 <= c < 8 && Matches(KingOf(White), boardState[r'][c])
      invariant blackKingFound <==> exists r', c :: 0 <= r' < r && 0 <= c < 8 && Matches(KingOf(Black), boardState[r'][c])
    {
      for c := 0 to BoardSize
        invariant whiteKingFound <==>
          exists r', c' :: 0 <= r' < 8 && 0 <= c' < 8 && Matches(KingOf(White), boardState[r'][c']) && Before(Square(r', c'), r, c)
        invariant blackKingFound <==>
          exists r', c' :: 0 <= r' < 8 && 0 <= c' < 8 && Matches(KingOf(Black), boardState[r'][c']) && Before(Square(r', c'), r, c)
      {
        var piece := boardState[r][c];
        if piece.Some? && piece.value.kind == King {
          if piece.value.color == White { whiteKingFound := true; }
          if piece.value.color == Black { blackKingFound := true; }
        }
      }
    }
    if !whiteKingFound {
      return Some(BlackWins);
    }
    if !blackKingFound {
      return Some(WhiteWins);
    }
    return None;
  }

  /** The starting position has both kings, so the game is not over. */
  lemma StandardBoardNotOver()
    ensures HasKing(StandardBoard(), White) && HasKing(StandardBoard(), Black)
  {
    StandardBoardOneKingEach();
    HasKingIffCounted(StandardBoard(), White);
    HasKingIffCounted(StandardBoard(), Black);
  }
}
