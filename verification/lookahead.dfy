/**
  The one-level check-safety test the game keeps only as disabled code, `isLegalInCheckMove`:
  play the move on a clone of the board and ask whether any opposing piece then lists the mover's
  king square among its moves. It is a separate predicate; the live move rules do not use it.
*/
module Lookahead {
  import opened Wrappers
  import opened ChessBoard
  import opened PieceMoves

  /** Some piece of the side opposite to `white` lists the tracked king square of `white`. */
  ghost predicate KingAttacked(b: Board, white: bool) {
    exists q: Position :: && q.OnBoard() && At(b.grid, q).Some? && At(b.grid, q).value.white != white
                          && PieceMoves.IsLegalMove(b.grid, At(b.grid, q).value, q, b.KingPosition(white))
  }

  /**
    `isLegalInCheckMove(oldPos, newPos)`: on a clone, move the piece and scan every opposing piece's
    move list for the king of the side to move. The clone plays the move exactly as the board itself
    would, so the answer is about the board after the move, and the board itself is left as it was.
  */
  function IsLegalInCheckMove(b: Board, whiteTurn: bool, from: Position, to: Position): (r: bool)
    requires b.Valid() && from.OnBoard() && to.OnBoard()
    ensures r <==> !KingAttacked(MovePiece(b, from, to), whiteTurn)
  {
    var clone := MovePiece(NewInstance(b), from, to);
    var king := clone.KingPosition(whiteTurn);
    var s := Stream(clone.grid);
    var r := forall i :: 0 <= i < |s| && s[i].piece.white != whiteTurn ==> king !in LegalMoves(clone.grid, s[i].piece, s[i].at);
    CloneMovesAlike(b, from, to);
    ScanMeansUnattacked(clone, whiteTurn, s, r);
    r
  }

  /** Moving on the clone gives the grid and king squares that moving on the board itself gives. */
  lemma CloneMovesAlike(b: Board, from: Position, to: Position)
    requires b.Valid() && from.OnBoard() && to.OnBoard()
    ensures var c := MovePiece(NewInstance(b), from, to);
            var m := MovePiece(b, from, to);
            c.grid == m.grid && c.bKing == m.bKing && c.wKing == m.wKing
  {
  }

  /** Scanning the streamed pieces' move lists decides whether the king is attacked. */
  lemma ScanMeansUnattacked(b: Board, white: bool, s: seq<Placed>, r: bool)
    requires b.Valid()
    requires forall x :: x in s <==> x.at.OnBoard() && At(b.grid, x.at) == Some(x.piece)
    requires r <==> forall i :: 0 <= i < |s| && s[i].piece.white != white
                                ==> b.KingPosition(white) !in LegalMoves(b.grid, s[i].piece, s[i].at)
    ensures r <==> !KingAttacked(b, white)
  {
    var king := b.KingPosition(white);
    if r {
      forall q: Position | q.OnBoard() && At(b.grid, q).Some? && At(b.grid, q).value.white != white
        ensures !PieceMoves.IsLegalMove(b.grid, At(b.grid, q).value, q, king)
      {
        var x := Placed(q, At(b.grid, q).value);
        assert x in s;
        LegalMovesAgree(b.grid, x.piece, q, king);
      }
    } else {
      var i :| 0 <= i < |s| && s[i].piece.white != white && king in LegalMoves(b.grid, s[i].piece, s[i].at);
      assert s[i] in s;
      LegalMovesAgree(b.grid, s[i].piece, s[i].at, king);
    }
  }
}
