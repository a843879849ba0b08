/**
  The game: whose turn it is, the last move's en-passant flag, the check flag and the pending
  promotion, and the two commands that change them, `moveIfLegal` and `promote`.
  Moves are checked against the moving piece's own rule only; a move that leaves one's own
  king attacked is not rejected.
*/
module ChessGame {
  import opened Wrappers
  import opened ChessConstants
  import opened ChessBoard
  import opened PieceMoves
  import PawnRules

  datatype Game = Game(board: Board, whiteTurn: bool, enPassantMove: bool, check: bool, promotion: bool)

  /** `new ChessGame()`: the start position, white to move, no flag raised. */
  function NewGame(): (r: Game)
    ensures r.board == Startpos() && r.whiteTurn
    ensures !r.enPassantMove && !r.check && !r.promotion
  {
    Game(Startpos(), true, false, false, false)
  }

  /** The piece classes `promote` accepts; for any other class the Java code throws before changing anything. */
  datatype PromotionChoice = ToQueen | ToRook | ToBishop | ToKnight {
    function Kind(): (k: Kind)
      ensures k != Pawn && k != King
    {
      match this
      case ToQueen => Queen
      case ToRook => Rook
      case ToBishop => Bishop
      case ToKnight => Knight
    }
  }

  /** The game's `isLegalMove`: a piece of the side to move stands on `from` and its rule accepts `to`. */
  function IsLegalGameMove(gm: Game, from: Position, to: Position): (r: bool)
    ensures r ==> At(gm.board.grid, from).Some? && At(gm.board.grid, from).value.white == gm.whiteTurn
    ensures r ==> to.OnBoard() && to != from
    ensures r ==> IsEmpty(gm.board.grid, to) || At(gm.board.grid, to).value.white != gm.whiteTurn
  {
    match At(gm.board.grid, from)
    case None => false
    case Some(p) => p.white == gm.whiteTurn && PieceMoves.IsLegalMove(gm.board.grid, p, from, to)
  }

  /** `isEnPassantMove`: a pawn moves onto the recorded en-passant square. */
  predicate IsEnPassantMove(b: Board, from: Position, to: Position) {
    && At(b.grid, from).Some? && At(b.grid, from).value.kind == Pawn
    && b.enPassant.Some? && to == b.enPassant.value.square
  }

  /**
    `updateEnPassantSquare`: after a pawn moved two rows from a pawn start row, record the square
    it skipped (one row from the start toward its own side's direction) with its new square;
    after any other move clear the record.
  */
  function UpdateEnPassantSquare(b: Board, startRow: int, endPos: Position): (r: Board)
    requires b.Valid() && endPos.OnBoard()
    ensures r.Valid()
    ensures r.grid == b.grid && r.bKing == b.bKing && r.wKing == b.wKing && r.cloned == b.cloned
    ensures r.enPassant.Some? <==>
              && (startRow == BlackPawnRow || startRow == WhitePawnRow)
              && At(b.grid, endPos).Some? && At(b.grid, endPos).value.kind == Pawn
              && Abs(startRow - endPos.row) == 2
    ensures r.enPassant.Some? ==> r.enPassant.value.pawn == endPos && r.enPassant.value.square.col == endPos.col
    ensures r.enPassant.Some? ==> r.enPassant.value.square.row == startRow + PawnRules.Forward(At(b.grid, endPos).value.white)
  {
    if startRow == BlackPawnRow || startRow == WhitePawnRow then
      var p := At(b.grid, endPos);
      if p.Some? && p.value.kind == Pawn && Abs(startRow - endPos.row) == 2 then
        var square := Position(if p.value.white then startRow - 1 else startRow + 1, endPos.col);
        b.(enPassant := Some(EnPassant(square, endPos)))
      else
        b.(enPassant := None)
    else
      b.(enPassant := None)
  }

  /**
    `checkForPawnPromotion`, with Java's precedence: `row == 8 && !whiteTurn` on its own, or
    `row == 0 && whiteTurn` and a pawn on the target.
  */
  function CheckForPawnPromotion(b: Board, whiteTurn: bool, newPos: Position): (r: bool)
    ensures r ==> newPos.row == 8 || newPos.row == 0
  {
    (newPos.row == 8 && !whiteTurn)
    || (newPos.row == 0 && whiteTurn && At(b.grid, newPos).Some? && At(b.grid, newPos).value.kind == Pawn)
  }

  /**
    On the board the test raises a promotion exactly for a white pawn arriving on row 0:
    the black branch compares with row 8, which no square has.
  */
  lemma OnlyWhitePawnsPromote(b: Board, whiteTurn: bool, newPos: Position)
    requires newPos.OnBoard()
    ensures CheckForPawnPromotion(b, whiteTurn, newPos) <==>
              whiteTurn && newPos.row == 0 && At(b.grid, newPos).Some? && At(b.grid, newPos).value.kind == Pawn
    ensures !CheckForPawnPromotion(b, false, newPos)
  {
  }

  /**
    `isCheck(lastMove)`: the piece on `lastMove` lists the tracked king square of the side
    `white` among its moves. An empty `lastMove` (a null dereference in the source) gives false.
  */
  function IsCheck(b: Board, white: bool, lastMove: Position): (r: bool)
    requires lastMove.OnBoard()
    ensures r <==> At(b.grid, lastMove).Some?
                   && PieceMoves.IsLegalMove(b.grid, At(b.grid, lastMove).value, lastMove, b.KingPosition(white))
  {
    match At(b.grid, lastMove)
    case None => false
    case Some(p) =>
      LegalMovesAgree(b.grid, p, lastMove, b.KingPosition(white));
      b.KingPosition(white) in LegalMoves(b.grid, p, lastMove)
  }

  /** `isCheckMate`: every piece of the side `white` lists no move (check itself is not consulted). */
  function IsCheckMate(b: Board, white: bool): (r: bool)
    requires b.Valid()
    ensures r <==> forall q: Position :: q.OnBoard() && At(b.grid, q).Some? && At(b.grid, q).value.white == white
                                         ==> LegalMoves(b.grid, At(b.grid, q).value, q) == []
  {
    var s := Stream(b.grid);
    var r := forall i :: 0 <= i < |s| && s[i].piece.white == white ==> LegalMoves(b.grid, s[i].piece, s[i].at) == [];
    assert r <==> forall q: Position :: q.OnBoard() && At(b.grid, q).Some? && At(b.grid, q).value.white == white
                                        ==> LegalMoves(b.grid, At(b.grid, q).value, q) == [] by {
      if r {
        forall q: Position | q.OnBoard() && At(b.grid, q).Some? && At(b.grid, q).value.white == white
          ensures LegalMoves(b.grid, At(b.grid, q).value, q) == []
        {
          assert Placed(q, At(b.grid, q).value) in s;
        }
      }
    }
    r
  }

  /** Checkmate as `isCheckMate` computes it: no piece of the side `white` has any target its rule accepts. */
  lemma CheckMateMeaning(b: Board, white: bool)
    requires b.Valid()
    ensures IsCheckMate(b, white) <==>
              forall q: Position, t: Position :: q.OnBoard() && At(b.grid, q).Some? && At(b.grid, q).value.white == white
                                                 ==> !PieceMoves.IsLegalMove(b.grid, At(b.grid, q).value, q, t)
  {
    if IsCheckMate(b, white) {
      forall q: Position, t: Position | q.OnBoard() && At(b.grid, q).Some? && At(b.grid, q).value.white == white
        ensures !PieceMoves.IsLegalMove(b.grid, At(b.grid, q).value, q, t)
      {
        LegalMovesAgree(b.grid, At(b.grid, q).value, q, t);
      }
    } else {
      var q: Position :| q.OnBoard() && At(b.grid, q).Some? && At(b.grid, q).value.white == white
                         && LegalMoves(b.grid, At(b.grid, q).value, q) != [];
      var t := LegalMoves(b.grid, At(b.grid, q).value, q)[0];
      LegalMovesAgree(b.grid, At(b.grid, q).value, q, t);
    }
  }

  datatype MoveResult = MoveResult(accepted: bool, game: Game)

  /**
    `moveIfLegal`. A rejected move changes nothing. An accepted en-passant move takes the
    recorded pawn's square, then the en-passant square. Any other accepted move moves the piece,
    updates the en-passant record and the promotion flag, and stops there if a promotion is now
    pending. Otherwise the turn passes and the check flag is recomputed from the moved piece.
  */
  function MoveIfLegal(gm: Game, from: Position, to: Position): (r: MoveResult)
    requires gm.board.Valid() && from.OnBoard()
    ensures r.accepted <==> IsLegalGameMove(gm, from, to)
    ensures !r.accepted ==> r.game == gm
    ensures r.game.board.Valid()
  {
    if !IsLegalGameMove(gm, from, to) then
      MoveResult(false, gm)
    else
      var epMove := IsEnPassantMove(gm.board, from, to);
      if epMove then
        var pawn := gm.board.enPassant.value.pawn;
        var b := MovePiece(MovePiece(gm.board, from, pawn), pawn, to);
        var turn := !gm.whiteTurn;
        MoveResult(true, Game(b, turn, epMove, IsCheck(b, turn, to), gm.promotion))
      else
        var b := UpdateEnPassantSquare(MovePiece(gm.board, from, to), from.row, to);
        var promotion := CheckForPawnPromotion(b, gm.whiteTurn, to);
        if promotion then
          MoveResult(true, Game(b, gm.whiteTurn, epMove, gm.check, promotion))
        else
          var turn := !gm.whiteTurn;
          MoveResult(true, Game(b, turn, epMove, IsCheck(b, turn, to), promotion))
  }

  /**
    `promote`: a new piece of the side to move, of the chosen kind, replaces whatever stands on
    `at`; the promotion flag drops, the turn passes and the check flag is recomputed from `at`.
  */
  function Promote(gm: Game, at: Position, choice: PromotionChoice): (r: Game)
    requires gm.board.Valid() && at.OnBoard()
    ensures r.board.Valid()
    ensures At(r.board.grid, at) == Some(Piece(choice.Kind(), gm.whiteTurn))
    ensures forall q :: q != at ==> At(r.board.grid, q) == At(gm.board.grid, q)
    ensures !r.promotion && r.whiteTurn == !gm.whiteTurn
    ensures r.check <==> PieceMoves.IsLegalMove(r.board.grid, Piece(choice.Kind(), gm.whiteTurn), at, r.board.KingPosition(r.whiteTurn))
  {
    var b := PromotePiece(gm.board, at, Piece(choice.Kind(), gm.whiteTurn));
    var turn := !gm.whiteTurn;
    gm.(board := b, promotion := false, whiteTurn := turn, check := IsCheck(b, turn, at))
  }

  /**
    The game invariant: the board is well formed; no en-passant record while a promotion is
    pending; and a recorded pair is an opponent pawn with the empty square it skipped behind it.
  */
  ghost predicate Inv(gm: Game) {
    && gm.board.Valid()
    && (gm.promotion ==> gm.board.enPassant == None)
    && (gm.board.enPassant.Some? ==>
          var ep := gm.board.enPassant.value;
          && At(gm.board.grid, ep.pawn) == Some(Piece(Pawn, !gm.whiteTurn))
          && ep.square == Position(ep.pawn.row - PawnRules.Forward(!gm.whiteTurn), ep.pawn.col)
          && IsEmpty(gm.board.grid, ep.square))
  }

  lemma NewGameInv()
    ensures Inv(NewGame())
  {
  }

  /**
    In a game satisfying the invariant the en-passant branch of `moveIfLegal` never runs: no
    pawn of the side to move can legally enter the skipped square, since a straight step onto
    it would start from the opponent's pawn, and a double step would pass over that pawn.
  */
  lemma EnPassantBranchNeverTaken(gm: Game, from: Position, to: Position)
    requires Inv(gm)
    requires IsLegalGameMove(gm, from, to)
    ensures !IsEnPassantMove(gm.board, from, to)
  {
    if gm.board.enPassant.Some? {
      var ep := gm.board.enPassant.value;
      SkippedSquareUnreachable(gm.board.grid, At(gm.board.grid, from).value, from, ep.pawn, ep.square);
    }
  }

  /** A pawn cannot legally step onto the empty square an opposing pawn has just skipped. */
  lemma SkippedSquareUnreachable(g: Grid, p: Piece, from: Position, pawn: Position, skipped: Position)
    requires At(g, from) == Some(p)
    requires At(g, pawn) == Some(Piece(Pawn, !p.white))
    requires skipped == Position(pawn.row - PawnRules.Forward(!p.white), pawn.col)
    requires IsEmpty(g, skipped)
    ensures !PawnRules.IsLegalMove(g, p, from, skipped)
  {
  }

  /**
    What an accepted move does in a game satisfying the invariant: the piece goes from `from` to
    `to`, nothing else on the board changes, a promotion is pending exactly when a white pawn
    reached row 0, and otherwise the turn passes and the check flag says whether the moved piece
    now attacks the king of the side to move.
  */
  lemma AcceptedMove(gm: Game, from: Position, to: Position)
    requires Inv(gm) && from.OnBoard()
    requires IsLegalGameMove(gm, from, to)
    ensures var r := MoveIfLegal(gm, from, to).game;
            && At(r.board.grid, to) == At(gm.board.grid, from)
            && IsEmpty(r.board.grid, from)
            && (forall q :: q != from && q != to ==> At(r.board.grid, q) == At(gm.board.grid, q))
            && !r.enPassantMove
            && (r.promotion <==> gm.whiteTurn && to.row == 0 && At(gm.board.grid, from) == Some(Piece(Pawn, true)))
            && (r.promotion ==> r.whiteTurn == gm.whiteTurn && r.check == gm.check)
            && (!r.promotion ==> r.whiteTurn == !gm.whiteTurn
                                  && (r.check <==> PieceMoves.IsLegalMove(r.board.grid, At(gm.board.grid, from).value, to,
                                                                          r.board.KingPosition(r.whiteTurn))))
  {
    EnPassantBranchNeverTaken(gm, from, to);
    var b := UpdateEnPassantSquare(MovePiece(gm.board, from, to), from.row, to);
    OnlyWhitePawnsPromote(b, gm.whiteTurn, to);
  }

  /**
    What the en-passant branch does when it runs: the pawn is moved onto the recorded pawn's square
    and from there onto the en-passant square, so it ends on `to`, and both `from` and the captured
    pawn's square are empty. The en-passant record is kept, the flag is raised and the turn passes.
  */
  lemma EnPassantBranch(gm: Game, from: Position, to: Position)
    requires gm.board.Valid() && from.OnBoard()
    requires IsLegalGameMove(gm, from, to) && IsEnPassantMove(gm.board, from, to)
    ensures var r := MoveIfLegal(gm, from, to);
            var pawn := gm.board.enPassant.value.pawn;
            && r.accepted && r.game.enPassantMove && r.game.whiteTurn == !gm.whiteTurn
            && r.game.board.enPassant == gm.board.enPassant
            && (pawn != from && pawn != to ==>
                  && At(r.game.board.grid, to) == At(gm.board.grid, from)
                  && IsEmpty(r.game.board.grid, from) && IsEmpty(r.game.board.grid, pawn)
                  && forall q :: q != from && q != to && q != pawn ==> At(r.game.board.grid, q) == At(gm.board.grid, q))
  {
  }

  /** `moveIfLegal` keeps the invariant. */
  lemma MoveKeepsInv(gm: Game, from: Position, to: Position)
    requires Inv(gm) && from.OnBoard()
    ensures Inv(MoveIfLegal(gm, from, to).game)
  {
    if IsLegalGameMove(gm, from, to) {
      EnPassantBranchNeverTaken(gm, from, to);
      var g := gm.board.grid;
      var p := At(g, from).value;
      var m := MovePiece(gm.board, from, to);
      var b := UpdateEnPassantSquare(m, from.row, to);
      OnlyWhitePawnsPromote(b, gm.whiteTurn, to);
      if b.enPassant.Some? {
        assert p.kind == Pawn;
        assert PawnRules.IsLegalMove(g, p, from, to);
        assert PawnRules.DoublePushes(g, p, from, to);
        var skipped := Position(from.row + PawnRules.Forward(p.white), from.col);
        assert b.enPassant.value.square == skipped;
        assert IsEmpty(b.grid, skipped);
      }
    }
  }

  /** `promote`, called while a promotion is pending, keeps the invariant. */
  lemma PromoteKeepsInv(gm: Game, at: Position, choice: PromotionChoice)
    requires Inv(gm) && gm.promotion && at.OnBoard()
    ensures Inv(Promote(gm, at, choice))
  {
  }
}
