/** The king: one square in any direction. Castling is not implemented by the source. */
module KingRules {
  import opened ChessBoard
  import opened Geometry
  import opened ChessPiece
  import opened Seqs

  /** `possibleKingMoves`, in the source's order. */
  function Candidates(at: Position): (r: seq<Position>)
    ensures |r| == 8 && NoDup(r)
    ensures forall t :: t in r <==> Dist(at, t) == 1
  {
    var row, col := at.row, at.col;
    [Position(row + 1, col + 1), Position(row - 1, col - 1), Position(row + 1, col - 1), Position(row - 1, col + 1),
     Position(row + 1, col), Position(row - 1, col), Position(row, col + 1), Position(row, col - 1)]
  }

  /**
    `King.isLegalMove`: the common test (the source's `super.isLegalMove`), then one orthogonal
    step or one diagonal step.
  */
  function IsLegalMove(g: Grid, p: Piece, at: Position, t: Position): (r: bool)
    ensures r <==> IsLegalMoveCommon(g, p, t) && Dist(at, t) == 1
  {
    if !IsLegalMoveCommon(g, p, t) then false
    else
      var rowOff := Abs(at.row - t.row);
      var colOff := Abs(at.col - t.col);
      (rowOff + colOff == 1) || (rowOff == 1 && colOff == 1)
  }

  /**
    Whether the king may step to `t` depends only on the geometry and on what stands on `t`:
    a square the opponent attacks is not filtered out.
  */
  lemma OnlyTargetMatters(g: Grid, h: Grid, p: Piece, at: Position, t: Position)
    requires At(g, t) == At(h, t)
    ensures IsLegalMove(g, p, at, t) == IsLegalMove(h, p, at, t)
  {
  }

  /** `King.getLegalMoves`: the candidates that pass the common test. */
  function LegalMoves(g: Grid, p: Piece, at: Position): (r: seq<Position>)
    ensures forall t :: t in r <==> IsLegalMove(g, p, at, t)
    ensures NoDup(r) && |r| <= 8
  {
    Filter(Candidates(at), t => IsLegalMoveCommon(g, p, t))
  }

  /** `King.toString`, the only piece text the source defines: "K" for white, "k" for black. */
  function Symbol(white: bool): (s: string)
    ensures |s| == 1
    ensures s[0] == 'K' <==> white
    ensures s[0] == 'k' <==> !white
  {
    if white then "K" else "k"
  }
}
