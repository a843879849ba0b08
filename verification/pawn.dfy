/** The pawn: one step forward onto an empty square, two from its start row, one diagonal capture. */
module PawnRules {
  import opened Wrappers
  import opened ChessConstants
  import opened ChessBoard
  import opened ChessPiece
  import opened Seqs

  /** The row direction a pawn advances in: up the grid (-1) for white, down (+1) for black. */
  function Forward(white: bool): (f: int)
    ensures f == -1 || f == 1
    ensures white <==> f < 0
  {
    if white then -1 else 1
  }

  /** `isStartingPosition`: the pawn still stands on its colour's pawn row. */
  predicate IsStartingPosition(white: bool, at: Position) {
    if white then at.row == WhitePawnRow else at.row == BlackPawnRow
  }

  /** `possiblePawnMoves`, in the source's order. */
  function Candidates(white: bool, at: Position): (r: seq<Position>)
    ensures |r| == 4 && NoDup(r)
  {
    var f := Forward(white);
    [Position(f + at.row, at.col), Position(f + at.row, at.col + 1),
     Position(f + at.row, at.col - 1), Position(f * 2 + at.row, at.col)]
  }

  /** A diagonal capture: one row forward, one column aside, onto a piece of the other colour. */
  predicate Captures(g: Grid, p: Piece, at: Position, t: Position) {
    && At(g, t).Some? && At(g, t).value.white != p.white
    && t.row == at.row + Forward(p.white) && Abs(t.col - at.col) == 1
  }

  /** A single step straight ahead onto an empty square. */
  predicate Pushes(g: Grid, p: Piece, at: Position, t: Position) {
    IsEmpty(g, t) && t == Position(at.row + Forward(p.white), at.col)
  }

  /** A double step from the start row across an empty square onto an empty square. */
  predicate DoublePushes(g: Grid, p: Piece, at: Position, t: Position) {
    && IsEmpty(g, t) && IsStartingPosition(p.white, at)
    && t == Position(at.row + 2 * Forward(p.white), at.col)
    && IsEmpty(g, Position(at.row + Forward(p.white), at.col))
  }

  /**
    `Pawn.isLegalMove`. An occupied target can only be captured, and only if it holds the other
    colour; an empty one is accepted one row straight ahead, or two from the start row.
  */
  function IsLegalMove(g: Grid, p: Piece, at: Position, t: Position): (r: bool)
    ensures r <==> t.OnBoard() && (Captures(g, p, at, t) || Pushes(g, p, at, t) || DoublePushes(g, p, at, t))
    ensures r ==> t in Candidates(p.white, at)
  {
    if !t.OnBoard() then false
    else
      var target := At(g, t);
      var forward := Forward(p.white);
      var rowOff := (t.row - at.row) * forward;
      var colOff := t.col - at.col;
      if target.Some? then
        Abs(colOff) == 1 && rowOff == 1 && target.value.white != p.white
      else if colOff == 0 && rowOff == 1 then
        true
      else if colOff == 0 && rowOff == 2 && IsStartingPosition(p.white, at) then
        IsEmpty(g, Position(at.row + forward, at.col))
      else
        false
  }

  /** `Pawn.getLegalMoves`: the candidates that `isLegalMove` accepts; they are all its legal moves. */
  function LegalMoves(g: Grid, p: Piece, at: Position): (r: seq<Position>)
    ensures forall t :: t in r <==> IsLegalMove(g, p, at, t)
    ensures NoDup(r) && |r| <= 4
  {
    Filter(Candidates(p.white, at), t => IsLegalMove(g, p, at, t))
  }

  /** A legal pawn move always gains one or two rows in the pawn's own direction. */
  lemma AlwaysAdvances(g: Grid, p: Piece, at: Position, t: Position)
    requires IsLegalMove(g, p, at, t)
    ensures var gain := (t.row - at.row) * Forward(p.white); gain == 1 || gain == 2
  {
  }

  /**
    A pawn never moves to another column onto an empty square: a diagonal step must capture,
    so the recorded en-passant square is never a target while it is empty.
  */
  lemma NoDiagonalOntoEmpty(g: Grid, p: Piece, at: Position, t: Position)
    requires IsEmpty(g, t) && t.col != at.col
    ensures !IsLegalMove(g, p, at, t)
  {
  }

  /** A pawn never lands on a piece of its own colour. */
  lemma NeverOwnColor(g: Grid, p: Piece, at: Position, t: Position)
    requires IsLegalMove(g, p, at, t)
    ensures IsLegalMoveCommon(g, p, t)
  {
  }
}
