/** The rook: moves along its row or column, not through pieces. */
module RookRules {
  import opened Wrappers
  import opened ChessBoard
  import opened Geometry
  import opened ChessPiece

  /** The square at coordinate `v` on a column (`vertical`) or row fixed at `fixed`. */
  function Cell(vertical: bool, fixed: int, v: int): (q: Position)
    ensures vertical ==> q.col == fixed && q.row == v
    ensures !vertical ==> q.row == fixed && q.col == v
  {
    if vertical then Position(v, fixed) else Position(fixed, v)
  }

  /**
    The loop of `Rook.isLegalMove` from coordinate `cur`: step by `dir`; reaching the target
    coordinate accepts, an occupied square before it rejects.
  */
  function PathClear(g: Grid, vertical: bool, fixed: int, cur: int, dir: int, target: int): (r: bool)
    requires dir == Compare(target, cur)
    ensures r <==> forall v :: Strictly(cur, v, target) ==> IsEmpty(g, Cell(vertical, fixed, v))
    decreases Abs(target - cur)
  {
    var next := cur + dir;
    if next == target then
      true
    else if !IsEmpty(g, Cell(vertical, fixed, next)) then
      false
    else
      PathClear(g, vertical, fixed, next, dir, target)
  }

  /**
    `Rook.isLegalMove`: the common test, then a walk along the shared column, else along the
    shared row; any other target is rejected.
  */
  function IsLegalMove(g: Grid, p: Piece, at: Position, t: Position): (r: bool)
    ensures r <==> IsLegalMoveCommon(g, p, t) && at.SameRowOrCol(t) && !IsBlocked(g, at, t)
  {
    if !IsLegalMoveCommon(g, p, t) then false
    else if t.SameCol(at) then
      var r := PathClear(g, true, at.col, at.row, Compare(t.row, at.row), t.row);
      WalkIsUnblocked(g, at, t, true, r);
      r
    else if t.SameRow(at) then
      var r := PathClear(g, false, at.row, at.col, Compare(t.col, at.col), t.col);
      WalkIsUnblocked(g, at, t, false, r);
      r
    else
      false
  }

  /** The rook's own walk along a column or row agrees with the shared `isBlocked` walk. */
  lemma WalkIsUnblocked(g: Grid, at: Position, t: Position, vertical: bool, r: bool)
    requires if vertical then at.col == t.col else at.row == t.row
    requires vertical ==> (r <==> forall v :: Strictly(at.row, v, t.row) ==> IsEmpty(g, Cell(true, at.col, v)))
    requires !vertical ==> (r <==> forall v :: Strictly(at.col, v, t.col) ==> IsEmpty(g, Cell(false, at.row, v)))
    ensures r <==> !IsBlocked(g, at, t)
  {
    if r {
      forall q | StrictlyBetween(at, q, t)
        ensures IsEmpty(g, q)
      {
        if vertical {
          BetweenOnColumn(at, q, t);
          assert q == Cell(true, at.col, q.row);
        } else {
          BetweenOnRow(at, q, t);
          assert q == Cell(false, at.row, q.col);
        }
      }
    } else if vertical {
      var v :| Strictly(at.row, v, t.row) && !IsEmpty(g, Cell(true, at.col, v));
      BetweenOnColumn(at, Cell(true, at.col, v), t);
    } else {
      var v :| Strictly(at.col, v, t.col) && !IsEmpty(g, Cell(false, at.row, v));
      BetweenOnRow(at, Cell(false, at.row, v), t);
    }
  }

  /**
    A rook standing on its square only ever moves along exactly one of its row and column: its own
    square holds its own colour, and any other target sharing neither is refused.
  */
  lemma AcceptedIsStraight(g: Grid, p: Piece, at: Position, t: Position)
    requires At(g, at) == Some(p) && IsLegalMove(g, p, at, t)
    ensures (t.row == at.row) != (t.col == at.col)
  {
  }

  /** `Rook.getLegalMoves`: the line scan from its square. */
  function LegalMoves(g: Grid, p: Piece, at: Position): (r: seq<Position>)
    requires at.OnBoard()
    ensures Seqs.NoDup(r) && |r| <= 14
  {
    LinesHaveNoDuplicates(g, p, at);
    LineMovesBound(g, p, at);
    LineMoves(g, p, at)
  }

  /** For a rook standing on its square, the scan lists exactly the squares `isLegalMove` accepts. */
  lemma LegalMovesAgree(g: Grid, p: Piece, at: Position, t: Position)
    requires at.OnBoard() && At(g, at) == Some(p)
    ensures t in LegalMoves(g, p, at) <==> IsLegalMove(g, p, at, t)
  {
    InLineMoves(g, p, at, t);
  }
}
