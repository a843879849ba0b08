/** The bishop: diagonal moves, not through pieces. */
module BishopRules {
  import opened Wrappers
  import opened ChessBoard
  import opened Geometry
  import opened ChessPiece

  /**
    `Bishop.isLegalMove`: on the board, not onto a piece of its own colour, on a diagonal
    through its square, and nothing in between.
  */
  function IsLegalMove(g: Grid, p: Piece, at: Position, t: Position): (r: bool)
    ensures r ==> IsLegalMoveCommon(g, p, t) && at.OnDiagonal(t)
    ensures r <==> IsLegalMoveCommon(g, p, t) && at.OnDiagonal(t)
                   && forall q :: StrictlyBetween(at, q, t) ==> IsEmpty(g, q)
  {
    if !t.OnBoard() then false
    else if !IsEmpty(g, t) && SameColor(p, At(g, t).value) then false
    else if !t.OnDiagonal(at) then false
    else !IsBlocked(g, at, t)
  }

  /**
    A bishop standing on its square only ever moves to a different square on a diagonal through it:
    its own square holds its own colour, so the row and column offsets are equal and nonzero.
  */
  lemma AcceptedIsDiagonalStep(g: Grid, p: Piece, at: Position, t: Position)
    requires At(g, at) == Some(p) && IsLegalMove(g, p, at, t)
    ensures Abs(t.row - at.row) == Abs(t.col - at.col) > 0
  {
  }

  /** `Bishop.getLegalMoves`: the diagonal scan from its square. */
  function LegalMoves(g: Grid, p: Piece, at: Position): (r: seq<Position>)
    requires at.OnBoard()
    ensures Seqs.NoDup(r) && |r| <= 13
  {
    LinesHaveNoDuplicates(g, p, at);
    LineMovesBound(g, p, at);
    DiagonalMoves(g, p, at)
  }

  /** For a bishop standing on its square, the scan lists exactly the squares `isLegalMove` accepts. */
  lemma LegalMovesAgree(g: Grid, p: Piece, at: Position, t: Position)
    requires at.OnBoard() && At(g, at) == Some(p)
    ensures t in LegalMoves(g, p, at) <==> IsLegalMove(g, p, at, t)
  {
    InDiagonalMoves(g, p, at, t);
  }
}
