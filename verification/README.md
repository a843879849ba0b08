# JavaChess rules core in Dafny

This project models the chess rules of JavaChess: the board, the per-piece move rules, the
game step and the FEN row writer. It also proves what the Java code promises about them.

- **The board.** It is an immutable 8x8 grid of optional pieces. A piece is a kind and a
  colour. Row 0 is rank 8 and column 0 is file a.
- **Board state beyond the grid.** The board also tracks the two king squares, an optional
  en-passant pair (the skipped square and the square of the pawn that skipped it), and the
  "cloned" mark.
- **Piece positions.** A piece stores no position of its own. Its position is the cell that
  holds it, which is what `movePiece` keeps the Java piece's stored position equal to.
- **Piece rules.** Every rule reads only the grid, as the Java pieces only call
  `getPiece`/`isEmpty` on their board.

Modules, one per source component:

- `ChessConstants` holds the bounds, the pawn and home rows, and the piece values.
- `ChessBoard` holds `Position`, `movePiece`, `promotePiece`, `stream`, `startpos` and
  `newInstance`.
- `Geometry` holds the unit direction `Integer.compare` gives, the steps along it, and
  "strictly between".
- `ChessPiece` holds the common legality test, `isBlocked`, and the ray scans of
  `addLineMoves`/`addDiagonalMoves`/`addIfLegalMove`.
- `PawnRules`, `KnightRules`, `BishopRules`, `RookRules`, `QueenRules` and `KingRules` each
  hold `isLegalMove` and `getLegalMoves`. For every piece, a lemma shows the two agree.
- `PieceMoves` is the virtual dispatch on the piece kind.
- `ChessGame` holds `moveIfLegal`, `promote`, the en-passant bookkeeping, the promotion flag,
  `isCheck` and `isCheckMate`. It also holds a game invariant that both commands keep.
- `Lookahead` holds the one-level check-safety test `isLegalInCheckMove`. It exists in the
  Java code only as disabled code. It is kept separate, and the live rules do not use it.
- `FenBuilder` holds the `FenStringBuilder` row cache:
  - `updateRow` is modelled as a scan into tokens (an empty-run count, or a piece);
  - the scan is proved equal to the one canonical encoding of the row;
  - the module also holds `update` and `buildFenString`.
- `Seqs` and `Wrappers` are generic helpers: filtering, join/split, and `Option`.

## Model

| member | source | states |
|---|---|---|
| ChessBoard.NameRoundTrip | src/chess/ChessBoard.java:82-87 | reading back the name of an on-board square (file `'a'+col`, rank `8-row`) gives that square |
| ChessBoard.ParseNameRoundTrip | src/chess/ChessBoard.java:82-87 | every name from a1 to h8 is the name of the square it reads as |
| ChessBoard.NameInjective | src/chess/ChessBoard.java:82-87 | distinct on-board squares have distinct two-character names |
| ChessBoard.OrthogonalNotDiagonal | src/chess/ChessBoard.java:101-115 | a square sharing a row or column with a different square is never on a diagonal with it |
| ChessBoard.Piece.Value | src/chess/ChessPiece.java:43-45 | a piece's value is 0 exactly for the king, which sets none, and the queen alone has the largest value |
| ChessBoard.MaterialOrder | src/chess/ChessConstants.java:17-21 | values follow the material order pawn < knight = bishop < rook < queen, the king lowest at 0, for either colour |
| ChessBoard.Set | src/chess/ChessBoard.java:201-203 | one array write changes the written cell and no other |
| ChessBoard.MovePiece | src/chess/ChessBoard.java:133-143 | `e` gets what `s` held, `s` is empty, every other cell and every other row is unchanged; the black king square follows `s` to `e` if it equals `s`, else the white one does, else both stay |
| ChessBoard.PromotePiece | src/chess/ChessBoard.java:145-147 | the new piece is on its own square, and no other cell, king square or en-passant pair changes |
| ChessBoard.AddPieces | src/chess/ChessBoard.java:201-203 | after a run of `addPiece` calls on distinct squares each piece is on its square, and squares no call names are unchanged |
| ChessBoard.Stream | src/chess/ChessBoard.java:157-159 | exactly the occupied cells, each square once |
| ChessBoard.StreamFrom | src/chess/ChessBoard.java:157-159 | the occupied cells from a square on, in row-major order |
| ChessBoard.StartposCallsFillStartGrid | src/chess/ChessBoard.java:161-199 | the 32 `addPiece` calls of `startpos`, in their order, on a fresh grid leave exactly the start grid |
| ChessBoard.StartGridLayout | src/chess/ChessBoard.java:169-198 | rows 0 and 7 hold R N B Q K B N R (black, white), rows 1 and 6 hold pawns, rows 2 to 5 are empty |
| ChessBoard.Startpos | src/chess/ChessBoard.java:161-199 | the tracked kings are e8 and e1 and each stands on a king of its colour; no en-passant pair; not a clone |
| ChessBoard.NewInstance | src/chess/ChessBoard.java:32-54 | the copy has the same pieces in every cell and the same king squares, is marked cloned, and has no en-passant pair |
| ChessBoard.CopyIsExact | src/chess/ChessBoard.java:36-52 | re-adding every streamed piece at its own square to an empty grid rebuilds the grid |
| Geometry.Toward | src/chess/ChessPiece.java:67-68 | the walk direction is a unit step, and nonzero exactly when the squares differ |
| Geometry.StepInverse | src/chess/ChessPiece.java:69-75 | `k` steps along a nonzero direction reach an aligned square `k` king steps away in that direction |
| Geometry.BetweenIsStep | src/chess/ChessPiece.java:66-78 | the squares strictly between two aligned squares are exactly the steps of the walk short of the target |
| Geometry.ReachBound | src/chess/ChessPiece.java:91-135 | along a line the board is entered and left once: step `k` is on the board exactly up to the reach |
| Geometry.BetweenOnColumn | src/chess/pieces/Rook.java:33-39 | on a shared column, strictly between means the same column and a row strictly between |
| Geometry.BetweenOnRow | src/chess/pieces/Rook.java:40-46 | on a shared row, strictly between means the same row and a column strictly between |
| ChessPiece.SameColorEquivalence | src/chess/ChessPiece.java:62-64 | the colour test is reflexive, symmetric and transitive |
| ChessPiece.BlockedWalk | src/chess/ChessPiece.java:69-77 | the walk from step `k` answers true exactly when a step before the target is occupied |
| ChessPiece.IsBlocked | src/chess/ChessPiece.java:66-78 | for an aligned target, true exactly when some square strictly between is occupied; the target itself is not examined |
| ChessPiece.Ray | src/chess/ChessPiece.java:138-150 | a scan lists consecutive steps along its direction, all passing the common test, all but the last empty, never past the board edge |
| ChessPiece.RayComplete | src/chess/ChessPiece.java:138-150 | a scan reaches every legal square along its direction with only empty squares before it |
| ChessPiece.InRay | src/chess/ChessPiece.java:138-150 | a square is on one ray exactly when it is an unobstructed, legal square in that direction |
| ChessPiece.InLineMoves | src/chess/ChessPiece.java:87-109 | `addLineMoves` lists exactly the other squares sharing a row or column that pass the common test and are not blocked |
| ChessPiece.InDiagonalMoves | src/chess/ChessPiece.java:111-136 | `addDiagonalMoves` lists exactly the other diagonal squares that pass the common test and are not blocked |
| ChessPiece.LinesHaveNoDuplicates | src/chess/ChessPiece.java:87-136 | neither scan lists a square twice |
| ChessPiece.LineMovesBound | src/chess/ChessPiece.java:87-136 | the line scan lists at most 14 squares, the diagonal scan at most 13 |
| PawnRules.Candidates | src/chess/pieces/Pawn.java:24-31 | four distinct candidate squares |
| PawnRules.IsLegalMove | src/chess/pieces/Pawn.java:38-60 | legal exactly when on the board and a capture of the other colour one row forward and one column aside, or a push onto an empty square one row forward, or two rows forward from the start row over an empty square; every legal target is a candidate |
| PawnRules.LegalMoves | src/chess/pieces/Pawn.java:33-36 | the list holds exactly the targets `isLegalMove` accepts, without duplicates |
| PawnRules.AlwaysAdvances | src/chess/pieces/Pawn.java:39-60 | a legal move gains one or two rows in the pawn's direction, never zero or backward |
| PawnRules.NoDiagonalOntoEmpty | src/chess/pieces/Pawn.java:46-59 | a move to another column onto an empty square, the en-passant square included, is never legal |
| PawnRules.NeverOwnColor | src/chess/pieces/Pawn.java:38-60 | every legal pawn target passes the common test |
| KnightRules.Candidates | src/chess/pieces/Knight.java:16-27 | eight distinct candidate squares |
| KnightRules.IsLegalMove | src/chess/pieces/Knight.java:34-42 | legal exactly when the common test passes and the target is one of the eight (1,2) jumps |
| KnightRules.LegalMoves | src/chess/pieces/Knight.java:29-32 | the list holds exactly the targets `isLegalMove` accepts, at most eight, without duplicates |
| KnightRules.OnlyTargetMatters | src/chess/pieces/Knight.java:35-42 | two grids with the same occupant on the target give the same answer |
| BishopRules.IsLegalMove | src/chess/pieces/Bishop.java:24-34 | legal exactly when the common test passes, the target is on a diagonal, and every square strictly between is empty |
| BishopRules.AcceptedIsDiagonalStep | src/chess/pieces/Bishop.java:28-33 | for a bishop on its own square, an accepted target has equal and nonzero row and column offsets |
| BishopRules.LegalMoves | src/chess/pieces/Bishop.java:16-22 | the diagonal scan, without duplicates, at most 13 squares |
| BishopRules.LegalMovesAgree | src/chess/pieces/Bishop.java:16-34 | for a bishop on its own square, the list holds exactly the targets `isLegalMove` accepts |
| RookRules.PathClear | src/chess/pieces/Rook.java:33-46 | the column or row walk answers true exactly when every cell strictly between is empty |
| RookRules.WalkIsUnblocked | src/chess/pieces/Rook.java:33-46 | the rook's own walk agrees with the shared `isBlocked` |
| RookRules.IsLegalMove | src/chess/pieces/Rook.java:25-49 | legal exactly when the common test passes, the target shares the row or column, and nothing stands between |
| RookRules.AcceptedIsStraight | src/chess/pieces/Rook.java:26-48 | for a rook on its own square, an accepted target shares exactly one of its row and its column |
| RookRules.LegalMoves | src/chess/pieces/Rook.java:17-23 | the line scan, without duplicates, at most 14 squares |
| RookRules.LegalMovesAgree | src/chess/pieces/Rook.java:17-49 | for a rook on its own square, the list holds exactly the targets `isLegalMove` accepts |
| QueenRules.IsLegalMove | src/chess/pieces/Queen.java:26-35 | legal exactly when the rook or the bishop rule accepts the target |
| QueenRules.LegalMoves | src/chess/pieces/Queen.java:17-24 | line moves then diagonal moves, without duplicates, at most 27 squares |
| QueenRules.LinesApart | src/chess/pieces/Queen.java:21-22 | no square is listed by both scans |
| QueenRules.RookThenBishop | src/chess/pieces/Queen.java:17-24 | the queen's list is the rook's list followed by the bishop's, for the same square, colour and board |
| QueenRules.LegalMovesAgree | src/chess/pieces/Queen.java:17-35 | for a queen on its own square, the list holds exactly the targets `isLegalMove` accepts |
| KingRules.Candidates | src/chess/pieces/King.java:15-26 | eight distinct squares, exactly those one king step away |
| KingRules.IsLegalMove | src/chess/pieces/King.java:33-41 | legal exactly when the common test passes and the target is one king step away |
| KingRules.LegalMoves | src/chess/pieces/King.java:28-31 | the list holds exactly the targets `isLegalMove` accepts, at most eight, without duplicates |
| KingRules.OnlyTargetMatters | src/chess/pieces/King.java:33-41 | two grids with the same occupant on the target give the same answer, so attacked squares are not filtered out |
| PieceMoves.LegalMoves | src/chess/ChessPiece.java:20 | every piece's list is free of duplicates and holds at most 27 squares |
| PieceMoves.IsLegalMove | src/chess/ChessPiece.java:21 | no piece's rule accepts a target that fails the common test |
| PieceMoves.LegalMovesAgree | src/chess/ChessPiece.java:20-21 | for every kind on its own square, `getLegalMoves` lists exactly what `isLegalMove` accepts |
| PieceMoves.NeverStaysPut | src/chess/ChessPiece.java:80-85 | no piece may move to the square it stands on |
| ChessGame.IsLegalGameMove | src/chess/ChessGame.java:113-117 | an accepted move starts from a piece of the side to move and ends on another on-board square that holds no piece of that side |
| ChessGame.UpdateEnPassantSquare | src/chess/ChessGame.java:135-150 | the pair is set exactly after a pawn ends two rows from a pawn start row; then it is the skipped square in the pawn's column, one row from the start toward the pawn's side, paired with the pawn's square; the grid and kings are unchanged |
| ChessGame.CheckForPawnPromotion | src/chess/ChessGame.java:130-133 | raised only for row 8 or row 0 |
| ChessGame.OnlyWhitePawnsPromote | src/chess/ChessGame.java:130-133 | on the board the flag is raised exactly for a white pawn on row 0; the black branch never fires |
| ChessGame.IsCheck | src/chess/ChessGame.java:119-122 | true exactly when the piece on the last move's square may move to the tracked king square of the given side |
| ChessGame.IsCheckMate | src/chess/ChessGame.java:124-128 | true exactly when every piece of the given side lists no move |
| ChessGame.CheckMateMeaning | src/chess/ChessGame.java:124-128 | checkmate as computed means that no piece of the side has any target its rule accepts |
| ChessGame.MoveIfLegal | src/chess/ChessGame.java:81-110 | the move is accepted exactly when the game's legality test holds, a rejected move changes nothing, and the board stays well formed |
| ChessGame.Promote | src/chess/ChessGame.java:58-79 | the chosen kind in the mover's colour replaces the square and nothing else; the flag drops, the turn passes, and check is recomputed from that square |
| ChessGame.NewGameInv | src/chess/ChessGame.java:17-19 | the new game satisfies the game invariant |
| ChessGame.EnPassantBranchNeverTaken | src/chess/ChessGame.java:83-85 | in a game satisfying the invariant the en-passant branch never runs |
| ChessGame.SkippedSquareUnreachable | src/chess/pieces/Pawn.java:46-59 | no pawn can legally enter the empty square an opposing pawn just skipped |
| ChessGame.EnPassantBranch | src/chess/ChessGame.java:83-85 | when the branch runs, the pawn ends on the target, its start square and the captured pawn's square are empty, the pair is kept, the flag is raised, and the turn passes |
| ChessGame.AcceptedMove | src/chess/ChessGame.java:86-107 | an accepted move moves the piece and nothing else; a promotion is pending exactly for a white pawn on row 0 and then the turn stays; otherwise the turn passes and check says whether the moved piece reaches the king |
| ChessGame.MoveKeepsInv | src/chess/ChessGame.java:81-110 | `moveIfLegal` keeps the game invariant |
| ChessGame.PromoteKeepsInv | src/chess/ChessGame.java:58-79 | `promote` during a pending promotion keeps the game invariant |
| Lookahead.IsLegalInCheckMove | src/chess/ChessGame.java:184-194 | true exactly when, after the move on the board itself, no opposing piece may move to the mover's king square |
| Lookahead.CloneMovesAlike | src/chess/ChessGame.java:185-186 | moving on a fresh clone gives the grid and king squares that moving on the board gives |
| Lookahead.ScanMeansUnattacked | src/chess/ChessGame.java:190-193 | scanning the streamed opposing pieces' lists decides whether the king square is attacked |
| FenBuilder.EncodeRow | src/chess/engine/ChessEngine.java:131-148 | the tokens of a row are canonical, cover the row's width, and expand back to the row |
| FenBuilder.ScanExpands | src/chess/engine/ChessEngine.java:135-146 | the scan from any column with pending empties expands back to the rest of the row |
| FenBuilder.ScanCanonical | src/chess/engine/ChessEngine.java:135-146 | the scan never writes a zero count or two counts in a row |
| FenBuilder.CanonicalIsEncoding | src/chess/engine/ChessEngine.java:131-148 | every canonical token list is the encoding of the row it expands to, so each run of empties is written once and whole |
| FenBuilder.CountsInRange | src/chess/engine/ChessEngine.java:135-146 | every count is between 1 and the row width |
| FenBuilder.EmptyRowIsEight | src/chess/engine/ChessEngine.java:135-147 | an empty row is written as the single count 8 |
| FenBuilder.Decimal | src/chess/engine/ChessEngine.java:140 | the count is written as decimal digits, one digit below ten |
| FenBuilder.Update | src/chess/engine/ChessEngine.java:110-115 | rows `old.row` and `new.row` are re-encoded and the other six are kept |
| FenBuilder.UpdateAfterMove | src/chess/engine/ChessEngine.java:110-115 | a cache in step with the board stays in step after `movePiece` then `update` |
| FenBuilder.EnPassantField | src/chess/engine/ChessEngine.java:123-124 | "-" exactly when there is no pair, otherwise a name that reads back as the skipped square |
| FenBuilder.FenFields | src/chess/engine/ChessEngine.java:118-129 | the line splits on spaces into the placement, "w"/"b", "KQkq", the en-passant field and the final newline, and the placement splits on '/' into the cached rows |

## Left out

- The Swing user interface and the external engine process are not part of this model. This
  covers the engine's process launch, its stdin/stdout and its text commands.
- Printing "CHECK" and "CHECK MATE" to the console is left out. The check flag and the
  checkmate test themselves are modelled.
- The `updateFenString` call in `moveIfLegal` targets a method that does not exist. It is
  treated as doing nothing.
- Castling, draws, clocks and move logs do not exist in the source. The castling field is the
  constant "KQkq".
- Unicode display symbols, piece back-references to their board, and the unused
  `setPosition(int, int)` stub are left out.
- The pawn start-row constants the Java code names are missing from its constants file. The
  model uses the pawn rows 6 (white) and 1 (black) that the file does define.
- `King.isLegalMove` and `King.getLegalMoves` call `super.isLegalMove`, which is abstract. The
  model reads it as the common test, as the knight uses it.
- `addIfLegalMove` lists the occupant's stored position. The model lists the cell's square,
  which `movePiece` keeps equal to it.
- ChessBoard.MovePiece: when `s` is empty, or `s == e`, the Java code throws a
  null dereference (`getPiece(end).setPosition`). The model leaves the cells as the two
  array writes leave them, instead of raising an error.
- ChessGame.IsCheck: with an empty last-move square the Java code dereferences null. The
  model answers false.
- ChessGame.Promote: for a class other than Queen, Rook, Bishop or Knight the Java code hands
  null to `promotePiece`, which throws on `piece.getRow()` before writing anything, so the
  state is left unchanged (a null class already throws at `c.equals`). The model's choice
  type admits only the four kinds, so that error path is not modelled.
- FenBuilder.RenderTokens: only the king defines its text. Every other Java piece prints
  `Object.toString`, an identity string, so the text of non-king pieces is a parameter.
- ChessGame.MoveIfLegal: the model keeps the pieces and flags, not the engine's FEN cache. The
  cache is modelled on its own by `FenBuilder.Update`.
- ChessBoard.Startpos: the constructor's pawn loop also writes null to rows 2 to 5 of the fresh
  array. This changes nothing, so those writes are not modelled.
