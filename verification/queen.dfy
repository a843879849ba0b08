/** The queen: the rook's and the bishop's moves together. */
module QueenRules {
  import opened Wrappers
  import opened ChessBoard
  import opened ChessPiece
  import opened Seqs
  import RookRules
  import BishopRules

  /** `Queen.isLegalMove`: the common test, a shared diagonal, row or column, and nothing in between. */
  function IsLegalMove(g: Grid, p: Piece, at: Position, t: Position): (r: bool)
    ensures r <==> RookRules.IsLegalMove(g, p, at, t) || BishopRules.IsLegalMove(g, p, at, t)
  {
    if !(IsLegalMoveCommon(g, p, t) && (at.OnDiagonal(t) || at.SameRowOrCol(t))) then false
    else !IsBlocked(g, at, t)
  }

  /** `Queen.getLegalMoves`: the line scan, then the diagonal scan. */
  function LegalMoves(g: Grid, p: Piece, at: Position): (r: seq<Position>)
    requires at.OnBoard()
    ensures NoDup(r) && |r| <= 27
  {
    var lines, diagonals := LineMoves(g, p, at), DiagonalMoves(g, p, at);
    LinesHaveNoDuplicates(g, p, at);
    LineMovesBound(g, p, at);
    LinesApart(g, p, at);
    NoDupConcat(lines, diagonals);
    lines + diagonals
  }

  /** No square is both in line with and diagonal to the queen's square. */
  lemma LinesApart(g: Grid, p: Piece, at: Position)
    requires at.OnBoard()
    ensures forall q :: q in LineMoves(g, p, at) ==> q !in DiagonalMoves(g, p, at)
  {
    forall q | q in LineMoves(g, p, at)
      ensures q !in DiagonalMoves(g, p, at)
    {
      InLineMoves(g, p, at, q);
      InDiagonalMoves(g, p, at, q);
      OrthogonalNotDiagonal(at, q);
    }
  }

  /** For a queen standing on its square, the scans list exactly the squares `isLegalMove` accepts. */
  lemma LegalMovesAgree(g: Grid, p: Piece, at: Position, t: Position)
    requires at.OnBoard() && At(g, at) == Some(p)
    ensures t in LegalMoves(g, p, at) <==> IsLegalMove(g, p, at, t)
  {
    InLineMoves(g, p, at, t);
    InDiagonalMoves(g, p, at, t);
  }

  /** The queen's list is the rook's list followed by the bishop's. */
  lemma RookThenBishop(g: Grid, p: Piece, at: Position)
    requires at.OnBoard()
    ensures LegalMoves(g, p, at) == RookRules.LegalMoves(g, p, at) + BishopRules.LegalMoves(g, p, at)
  {
  }
}
