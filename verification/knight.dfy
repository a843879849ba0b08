/** The knight: the eight (1, 2) jumps, over anything in between. */
module KnightRules {
  import opened ChessBoard
  import opened ChessPiece
  import opened Seqs

  /** `possibleKnightMoves`, in the source's order. */
  function Candidates(at: Position): (r: seq<Position>)
    ensures |r| == 8 && NoDup(r)
  {
    var row, col := at.row, at.col;
    [Position(row + 2, col + 1), Position(row - 2, col - 1), Position(row + 2, col - 1), Position(row - 2, col + 1),
     Position(row + 1, col + 2), Position(row - 1, col - 2), Position(row + 1, col - 2), Position(row - 1, col + 2)]
  }

  /** A product of two naturals is 2 only as 1 * 2 or 2 * 1. */
  lemma ProductTwo(a: nat, b: nat)
    ensures a * b == 2 <==> (a == 1 && b == 2) || (a == 2 && b == 1)
  {
    if a >= 3 && b >= 1 {
      assert a * b >= 3 * b;
    }
    if a == 2 {
      assert a * b == 2 * b;
    }
  }

  /** `Knight.isLegalMove`: the common test and a row and column offset whose product is 2. */
  function IsLegalMove(g: Grid, p: Piece, at: Position, t: Position): (r: bool)
    ensures r <==> IsLegalMoveCommon(g, p, t) && t in Candidates(at)
  {
    ProductTwo(Abs(at.row - t.row), Abs(at.col - t.col));
    if !IsLegalMoveCommon(g, p, t) then false
    else
      var rowOff := Abs(at.row - t.row);
      var colOff := Abs(at.col - t.col);
      rowOff * colOff == 2
  }

  /** A knight jumps: whether it may go to `t` depends on what stands on `t` and on nothing else. */
  lemma OnlyTargetMatters(g: Grid, h: Grid, p: Piece, at: Position, t: Position)
    requires At(g, t) == At(h, t)
    ensures IsLegalMove(g, p, at, t) == IsLegalMove(h, p, at, t)
  {
  }

  /** `Knight.getLegalMoves`: the candidates that pass the common test. */
  function LegalMoves(g: Grid, p: Piece, at: Position): (r: seq<Position>)
    ensures forall t :: t in r <==> IsLegalMove(g, p, at, t)
    ensures NoDup(r) && |r| <= 8
  {
    Filter(Candidates(at), t => IsLegalMoveCommon(g, p, t))
  }
}
