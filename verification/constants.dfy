/** Board bounds, pawn and home rows, and piece values shared by every other module. */
module ChessConstants {

  /** Rows and columns are 0-based and half-open: [MinRow, MaxRow) x [MinCol, MaxCol). Row 0 is rank 8. */
  const MaxRow := 8
  const MaxCol := 8
  const MinRow := 0
  const MinCol := 0

  /** The rows pawns start on. */
  const WhitePawnRow := 6
  const BlackPawnRow := 1

  /** The rows the back-rank pieces start on. */
  const WhiteHomeRow := 7
  const BlackHomeRow := 0

  const PawnValue := 1
  const KnightValue := 3
  const BishopValue := 3
  const RookValue := 5
  const QueenValue := 9
}
