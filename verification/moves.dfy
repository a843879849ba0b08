/** Dispatch on the kind of piece: the virtual `getLegalMoves` and `isLegalMove` of `ChessPiece`. */
module PieceMoves {
  import opened Wrappers
  import opened ChessBoard
  import opened ChessPiece
  import opened Seqs
  import PawnRules
  import KnightRules
  import BishopRules
  import RookRules
  import QueenRules
  import KingRules

  /** `getLegalMoves` of the piece `p` standing on `at`. */
  function LegalMoves(g: Grid, p: Piece, at: Position): (r: seq<Position>)
    requires at.OnBoard()
    ensures NoDup(r) && |r| <= 27
  {
    match p.kind
    case Pawn => PawnRules.LegalMoves(g, p, at)
    case Knight => KnightRules.LegalMoves(g, p, at)
    case Bishop => BishopRules.LegalMoves(g, p, at)
    case Rook => RookRules.LegalMoves(g, p, at)
    case Queen => QueenRules.LegalMoves(g, p, at)
    case King => KingRules.LegalMoves(g, p, at)
  }

  /** `isLegalMove` of the piece `p` standing on `at`. No piece moves off the board or onto its own colour. */
  function IsLegalMove(g: Grid, p: Piece, at: Position, t: Position): (r: bool)
    ensures r ==> IsLegalMoveCommon(g, p, t)
  {
    match p.kind
    case Pawn => PawnRules.IsLegalMove(g, p, at, t)
    case Knight => KnightRules.IsLegalMove(g, p, at, t)
    case Bishop => BishopRules.IsLegalMove(g, p, at, t)
    case Rook => RookRules.IsLegalMove(g, p, at, t)
    case Queen => QueenRules.IsLegalMove(g, p, at, t)
    case King => KingRules.IsLegalMove(g, p, at, t)
  }

  /** For every kind, the listed moves of a piece on its square are exactly the targets `isLegalMove` accepts. */
  lemma LegalMovesAgree(g: Grid, p: Piece, at: Position, t: Position)
    requires at.OnBoard() && At(g, at) == Some(p)
    ensures t in LegalMoves(g, p, at) <==> IsLegalMove(g, p, at, t)
  {
    match p.kind
    case Pawn =>
    case Knight =>
    case Bishop => BishopRules.LegalMovesAgree(g, p, at, t);
    case Rook => RookRules.LegalMovesAgree(g, p, at, t);
    case Queen => QueenRules.LegalMovesAgree(g, p, at, t);
    case King =>
  }

  /** A piece on its own square can never move to that square: it holds a piece of its own colour. */
  lemma NeverStaysPut(g: Grid, p: Piece, at: Position)
    requires At(g, at) == Some(p)
    ensures !IsLegalMove(g, p, at, at)
  {
  }
}
