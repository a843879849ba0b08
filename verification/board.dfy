/**
  The board: square coordinates, the 8x8 grid of optional pieces, the two tracked king squares,
  the optional en-passant pair, and the mechanical (unchecked) operations on them.
  A piece is its kind and colour; its coordinates are those of the cell holding it, which is what
  the source keeps its stored position equal to.
*/
module ChessBoard {
  import opened Wrappers
  import opened ChessConstants

  function Abs(x: int): (n: nat) {
    if x < 0 then -x else x
  }

  /** A square; row 0 is rank 8 and column 0 is file a. Equality is componentwise. */
  datatype Position = Position(row: int, col: int) {

    predicate OnBoard() {
      MinRow <= row < MaxRow && MinCol <= col < MaxCol
    }

    predicate SameRow(other: Position) {
      row == other.row
    }

    predicate SameCol(other: Position) {
      col == other.col
    }

    predicate SameRowOrCol(other: Position) {
      row == other.row || col == other.col
    }

    predicate OnDiagonal(other: Position) {
      Abs(row - other.row) == Abs(col - other.col)
    }

    /** The algebraic name: file letter `'a' + col`, then the rank digit `8 - row`. */
    function Name(): (s: string)
      requires OnBoard()
      ensures |s| == 2 && 'a' <= s[0] <= 'h' && '1' <= s[1] <= '8'
    {
      [('a' as int + col) as char, ('0' as int + (MaxRow - row)) as char]
    }
  }

  /** Reads an algebraic square name; the reference `Name` is checked against. */
  function ParseName(s: string): (r: Option<Position>)
    ensures r.Some? ==> r.value.OnBoard()
  {
    if |s| == 2 && 'a' <= s[0] <= 'h' && '1' <= s[1] <= '8' then
      Some(Position(MaxRow - (s[1] as int - '0' as int), s[0] as int - 'a' as int))
    else
      None
  }

  lemma NameRoundTrip(p: Position)
    requires p.OnBoard()
    ensures ParseName(p.Name()) == Some(p)
  {
  }

  lemma ParseNameRoundTrip(s: string)
    requires ParseName(s).Some?
    ensures ParseName(s).value.Name() == s
  {
  }

  /** Distinct on-board squares get distinct names. */
  lemma NameInjective(p: Position, q: Position)
    requires p.OnBoard() && q.OnBoard() && p != q
    ensures p.Name() != q.Name()
  {
    NameRoundTrip(p);
    NameRoundTrip(q);
  }

  /** A nonzero displacement is never both orthogonal and diagonal. */
  lemma OrthogonalNotDiagonal(p: Position, q: Position)
    requires p != q && p.SameRowOrCol(q)
    ensures !p.OnDiagonal(q)
  {
  }

  datatype Kind = Pawn | Knight | Bishop | Rook | Queen | King

  datatype Piece = Piece(kind: Kind, white: bool) {

    /** Material value; the king declares none and keeps the default 0. */
    function Value(): (v: nat)
      ensures v == 0 <==> kind == King
      ensures v <= QueenValue
      ensures kind == Queen <==> v == QueenValue
    {
      match kind
      case Pawn => PawnValue
      case Knight => KnightValue
      case Bishop => BishopValue
      case Rook => RookValue
      case Queen => QueenValue
      case King => 0
    }
  }

  /** The usual material order: king (no value), pawn, knight and bishop alike, rook, queen. */
  function MaterialRank(k: Kind): (n: nat)
    ensures n == 0 <==> k == King
  {
    match k
    case King => 0
    case Pawn => 1
    case Knight => 2
    case Bishop => 2
    case Rook => 3
    case Queen => 4
  }

  /** Piece values follow the material order, whatever the colours. */
  lemma MaterialOrder(p: Piece, q: Piece)
    ensures p.Value() < q.Value() <==> MaterialRank(p.kind) < MaterialRank(q.kind)
    ensures p.Value() == q.Value() <==> MaterialRank(p.kind) == MaterialRank(q.kind)
  {
  }

  /** The cells, indexed `[row][col]`. */
  type Grid = seq<seq<Option<Piece>>>

  predicate ValidGrid(g: Grid) {
    |g| == MaxRow && forall r :: 0 <= r < |g| ==> |g[r]| == MaxCol
  }

  /** `getPiece`; reads outside the array give `None` (every caller checks `OnBoard` first). */
  function At(g: Grid, p: Position): (c: Option<Piece>) {
    if 0 <= p.row < |g| && 0 <= p.col < |g[p.row]| then g[p.row][p.col] else None
  }

  predicate IsEmpty(g: Grid, p: Position) {
    At(g, p).None?
  }

  /** One array write `board[p.row][p.col] = v`. */
  function Set(g: Grid, p: Position, v: Option<Piece>): (r: Grid)
    requires ValidGrid(g) && p.OnBoard()
    ensures ValidGrid(r)
    ensures At(r, p) == v
    ensures forall q :: q != p ==> At(r, q) == At(g, q)
    ensures forall k :: 0 <= k < |g| && k != p.row ==> r[k] == g[k]
  {
    g[p.row := g[p.row][p.col := v]]
  }

  /** Two valid grids that agree on every square are equal. */
  lemma GridExt(g: Grid, h: Grid)
    requires ValidGrid(g) && ValidGrid(h)
    requires forall q: Position :: q.OnBoard() ==> At(g, q) == At(h, q)
    ensures g == h
  {
    forall r | 0 <= r < MaxRow
      ensures g[r] == h[r]
    {
      forall c | 0 <= c < MaxCol
        ensures g[r][c] == h[r][c]
      {
        assert At(g, Position(r, c)) == At(h, Position(r, c));
      }
    }
  }

  /** The en-passant pair: the skipped square, and the square of the pawn that skipped it. */
  datatype EnPassant = EnPassant(square: Position, pawn: Position)

  datatype Board = Board(grid: Grid, bKing: Position, wKing: Position,
                         enPassant: Option<EnPassant>, cloned: bool)
  {
    predicate Valid() {
      && ValidGrid(grid)
      && (enPassant.Some? ==> enPassant.value.square.OnBoard() && enPassant.value.pawn.OnBoard())
    }

    function KingPosition(white: bool): (k: Position) {
      if white then wKing else bKing
    }
  }

  /**
    `movePiece`: whatever is on `s` goes to `e` (overwriting), `s` is emptied, and a tracked king
    square equal to `s` (the black one compared first) follows to `e`. No legality is checked.
  */
  function MovePiece(b: Board, s: Position, e: Position): (r: Board)
    requires b.Valid() && s.OnBoard() && e.OnBoard()
    ensures r.Valid()
    ensures s != e ==> At(r.grid, e) == At(b.grid, s)
    ensures IsEmpty(r.grid, s)
    ensures forall q :: q != s && q != e ==> At(r.grid, q) == At(b.grid, q)
    ensures forall k :: 0 <= k < MaxRow && k != s.row && k != e.row ==> r.grid[k] == b.grid[k]
    ensures b.bKing == s ==> r.bKing == e && r.wKing == b.wKing
    ensures b.bKing != s && b.wKing == s ==> r.wKing == e && r.bKing == b.bKing
    ensures b.bKing != s && b.wKing != s ==> r.bKing == b.bKing && r.wKing == b.wKing
    ensures r.enPassant == b.enPassant && r.cloned == b.cloned
  {
    var g := Set(Set(b.grid, e, At(b.grid, s)), s, None);
    if b.bKing == s then b.(grid := g, bKing := e)
    else if b.wKing == s then b.(grid := g, wKing := e)
    else b.(grid := g)
  }

  /** `promotePiece`: the new piece is written to the cell of its own coordinates `at`, and only there. */
  function PromotePiece(b: Board, at: Position, p: Piece): (r: Board)
    requires b.Valid() && at.OnBoard()
    ensures r.Valid()
    ensures At(r.grid, at) == Some(p)
    ensures forall q :: q != at ==> At(r.grid, q) == At(b.grid, q)
    ensures r.bKing == b.bKing && r.wKing == b.wKing && r.enPassant == b.enPassant && r.cloned == b.cloned
  {
    b.(grid := Set(b.grid, at, Some(p)))
  }

  /** A piece together with the square it stands on. */
  datatype Placed = Placed(at: Position, piece: Piece)

  predicate DistinctSquares(ps: seq<Placed>) {
    forall i, j :: 0 <= i < j < |ps| ==> ps[i].at != ps[j].at
  }

  /** A run of `addPiece` calls: each piece is written to the cell of its own coordinates. */
  function AddPieces(g: Grid, ps: seq<Placed>): (r: Grid)
    requires ValidGrid(g)
    requires forall i :: 0 <= i < |ps| ==> ps[i].at.OnBoard()
    ensures ValidGrid(r)
    ensures DistinctSquares(ps) ==> forall i :: 0 <= i < |ps| ==> At(r, ps[i].at) == Some(ps[i].piece)
    ensures forall q :: (forall i :: 0 <= i < |ps| ==> ps[i].at != q) ==> At(r, q) == At(g, q)
    decreases |ps|
  {
    if ps == [] then g
    else
      var r := AddPieces(Set(g, ps[0].at, Some(ps[0].piece)), ps[1..]);
      assert forall i :: 1 <= i < |ps| ==> ps[1..][i - 1] == ps[i];
      r
  }

  /** Row-major order of squares. */
  predicate Before(p: Position, q: Position) {
    p.row < q.row || (p.row == q.row && p.col < q.col)
  }

  /** The occupied cells from `(row, col)` on, in row-major order. */
  function StreamFrom(g: Grid, row: int, col: int): (r: seq<Placed>)
    requires 0 <= row <= MaxRow && 0 <= col <= MaxCol
    ensures forall x :: x in r <==> x.at.OnBoard() && At(g, x.at) == Some(x.piece) && !Before(x.at, Position(row, col))
    ensures forall i, j :: 0 <= i < j < |r| ==> Before(r[i].at, r[j].at)
    decreases MaxRow - row, MaxCol - col
  {
    if row == MaxRow then []
    else if col == MaxCol then
      assert forall p: Position :: p.OnBoard() ==> (Before(p, Position(row, col)) <==> Before(p, Position(row + 1, 0)));
      StreamFrom(g, row + 1, 0)
    else
      var here := Position(row, col);
      var rest := StreamFrom(g, row, col + 1);
      assert forall p: Position :: !Before(p, here) <==> p == here || !Before(p, Position(row, col + 1));
      if At(g, here).Some? then
        var r := [Placed(here, At(g, here).value)] + rest;
        assert forall j :: 0 < j < |r| ==> r[j] in rest;
        r
      else rest
  }

  /** `stream`: exactly the occupied cells, each once, in row-major order. */
  function Stream(g: Grid): (r: seq<Placed>)
    ensures forall x :: x in r <==> x.at.OnBoard() && At(g, x.at) == Some(x.piece)
    ensures DistinctSquares(r)
  {
    var r := StreamFrom(g, 0, 0);
    assert forall i, j :: 0 <= i < j < |r| ==> Before(r[i].at, r[j].at);
    r
  }

  function EmptyGrid(): (g: Grid)
    ensures ValidGrid(g)
    ensures forall q :: IsEmpty(g, q)
  {
    seq(MaxRow, _ => seq(MaxCol, _ => None))
  }

  /** The back-rank order R N B Q K B N R, from file a to file h. */
  const BackRank: seq<Kind> := [Rook, Knight, Bishop, Queen, King, Bishop, Knight, Rook]

  /** One rank of `addPiece` calls: `kinds[c]` of the given colour at `(row, c)`. */
  function RankPlacements(row: int, kinds: seq<Kind>, white: bool): (ps: seq<Placed>)
    requires |kinds| == MaxCol
    ensures |ps| == MaxCol
    ensures forall c :: 0 <= c < MaxCol ==> ps[c] == Placed(Position(row, c), Piece(kinds[c], white))
  {
    seq(MaxCol, c requires 0 <= c < MaxCol => Placed(Position(row, c), Piece(kinds[c], white)))
  }

  const PawnRank: seq<Kind> := [Pawn, Pawn, Pawn, Pawn, Pawn, Pawn, Pawn, Pawn]

  /**
    The 32 `addPiece` calls of `startpos`, in its order: black's back rank, white's back rank,
    then the pawn loop over rows 1..6 (its writes of `null` to rows 2-5 of a fresh grid change nothing).
  */
  function StartPlacements(): (ps: seq<Placed>)
    ensures |ps| == 32
    ensures forall i :: 0 <= i < 8 ==> ps[i] == Placed(Position(BlackHomeRow, i), Piece(BackRank[i], false))
    ensures forall i :: 8 <= i < 16 ==> ps[i] == Placed(Position(WhiteHomeRow, i - 8), Piece(BackRank[i - 8], true))
    ensures forall i :: 16 <= i < 24 ==> ps[i] == Placed(Position(BlackPawnRow, i - 16), Piece(Pawn, false))
    ensures forall i :: 24 <= i < 32 ==> ps[i] == Placed(Position(WhitePawnRow, i - 24), Piece(Pawn, true))
  {
    RankPlacements(BlackHomeRow, BackRank, false) + RankPlacements(WhiteHomeRow, BackRank, true)
    + RankPlacements(BlackPawnRow, PawnRank, false) + RankPlacements(WhitePawnRow, PawnRank, true)
  }

  /** Inverts the start placement order: the index of the call that fills a start square. */
  function StartIndex(p: Position): (i: int) {
    (if p.row == BlackHomeRow then 0 else if p.row == WhiteHomeRow then 8
     else if p.row == BlackPawnRow then 16 else 24) + p.col
  }

  function BackRow(white: bool): (row: seq<Option<Piece>>) {
    [Some(Piece(Rook, white)), Some(Piece(Knight, white)), Some(Piece(Bishop, white)), Some(Piece(Queen, white)),
     Some(Piece(King, white)), Some(Piece(Bishop, white)), Some(Piece(Knight, white)), Some(Piece(Rook, white))]
  }

  function PawnRow(white: bool): (row: seq<Option<Piece>>) {
    [Some(Piece(Pawn, white)), Some(Piece(Pawn, white)), Some(Piece(Pawn, white)), Some(Piece(Pawn, white)),
     Some(Piece(Pawn, white)), Some(Piece(Pawn, white)), Some(Piece(Pawn, white)), Some(Piece(Pawn, white))]
  }

  const EmptyRow: seq<Option<Piece>> := [None, None, None, None, None, None, None, None]

  /** The grid `startpos` leaves: the black pieces on rows 0 and 1, the white pieces on rows 6 and 7. */
  function StartGrid(): (g: Grid)
    ensures ValidGrid(g)
  {
    [BackRow(false), PawnRow(false), EmptyRow, EmptyRow, EmptyRow, EmptyRow, PawnRow(true), BackRow(true)]
  }

  /** `new ChessBoard()`: the start grid, the kings tracked on e8 and e1, no en-passant pair, not a clone. */
  function Startpos(): (b: Board)
    ensures b.Valid() && b.enPassant == None && !b.cloned
    ensures b.grid == StartGrid()
    ensures b.bKing == Position(BlackHomeRow, 4) && b.wKing == Position(WhiteHomeRow, 4)
    ensures At(b.grid, b.bKing) == Some(Piece(King, false)) && At(b.grid, b.wKing) == Some(Piece(King, true))
  {
    Board(StartGrid(), Position(BlackHomeRow, 4), Position(WhiteHomeRow, 4), None, false)
  }

  /** The order of the 32 `addPiece` calls of `startpos`, as facts about each block of eight. */
  ghost predicate StartOrder(ps: seq<Placed>) {
    && |ps| == 32
    && (forall i :: 0 <= i < 8 ==> ps[i] == Placed(Position(BlackHomeRow, i), Piece(BackRank[i], false)))
    && (forall i :: 8 <= i < 16 ==> ps[i] == Placed(Position(WhiteHomeRow, i - 8), Piece(BackRank[i - 8], true)))
    && (forall i :: 16 <= i < 24 ==> ps[i] == Placed(Position(BlackPawnRow, i - 16), Piece(Pawn, false)))
    && (forall i :: 24 <= i < 32 ==> ps[i] == Placed(Position(WhitePawnRow, i - 24), Piece(Pawn, true)))
  }

  /** The 32 `addPiece` calls of `startpos`, applied to a fresh grid, leave exactly the start grid. */
  lemma StartposCallsFillStartGrid(ps: seq<Placed>)
    requires ps == StartPlacements()
    ensures forall i :: 0 <= i < |ps| ==> ps[i].at.OnBoard()
    ensures AddPieces(EmptyGrid(), ps) == StartGrid()
  {
    assert StartOrder(ps);
    FillInStartOrder(ps);
  }

  lemma FillInStartOrder(ps: seq<Placed>)
    requires StartOrder(ps)
    ensures forall i :: 0 <= i < |ps| ==> ps[i].at.OnBoard()
    ensures AddPieces(EmptyGrid(), ps) == StartGrid()
  {
    StartOrderDistinct(ps);
    var g := AddPieces(EmptyGrid(), ps);
    StartLayout(ps, g);
    IsStartGrid(g);
  }

  lemma StartOrderDistinct(ps: seq<Placed>)
    requires StartOrder(ps)
    ensures DistinctSquares(ps)
    ensures forall i :: 0 <= i < |ps| ==> ps[i].at.OnBoard()
  {
    assert forall i :: 0 <= i < 32 ==> StartIndex(ps[i].at) == i;
  }

  /** A valid grid with the start layout is the start grid. */
  lemma IsStartGrid(g: Grid)
    requires ValidGrid(g)
    requires forall c :: 0 <= c < MaxCol ==>
              && At(g, Position(BlackHomeRow, c)) == Some(Piece(BackRank[c], false))
              && At(g, Position(WhiteHomeRow, c)) == Some(Piece(BackRank[c], true))
              && At(g, Position(BlackPawnRow, c)) == Some(Piece(Pawn, false))
              && At(g, Position(WhitePawnRow, c)) == Some(Piece(Pawn, true))
    requires forall q: Position :: q.OnBoard() && BlackPawnRow < q.row < WhitePawnRow ==> IsEmpty(g, q)
    ensures g == StartGrid()
  {
    StartGridLayout();
    forall q: Position | q.OnBoard()
      ensures At(g, q) == At(StartGrid(), q)
    {
      if BlackPawnRow < q.row < WhitePawnRow {
      } else {
        assert q.row in {BlackHomeRow, WhiteHomeRow, BlackPawnRow, WhitePawnRow};
      }
    }
    GridExt(g, StartGrid());
  }

  lemma StartGridLayout()
    ensures forall c :: 0 <= c < MaxCol ==>
              && At(StartGrid(), Position(BlackHomeRow, c)) == Some(Piece(BackRank[c], false))
              && At(StartGrid(), Position(WhiteHomeRow, c)) == Some(Piece(BackRank[c], true))
              && At(StartGrid(), Position(BlackPawnRow, c)) == Some(Piece(Pawn, false))
              && At(StartGrid(), Position(WhitePawnRow, c)) == Some(Piece(Pawn, true))
    ensures forall q: Position :: q.OnBoard() && BlackPawnRow < q.row < WhitePawnRow ==> IsEmpty(StartGrid(), q)
  {
  }

  lemma StartLayout(ps: seq<Placed>, g: Grid)
    requires StartOrder(ps)
    requires forall i :: 0 <= i < |ps| ==> At(g, ps[i].at) == Some(ps[i].piece)
    requires forall q: Position :: (forall i :: 0 <= i < |ps| ==> ps[i].at != q) ==> At(g, q) == At(EmptyGrid(), q)
    ensures forall c :: 0 <= c < MaxCol ==>
              && At(g, Position(BlackHomeRow, c)) == Some(Piece(BackRank[c], false))
              && At(g, Position(WhiteHomeRow, c)) == Some(Piece(BackRank[c], true))
              && At(g, Position(BlackPawnRow, c)) == Some(Piece(Pawn, false))
              && At(g, Position(WhitePawnRow, c)) == Some(Piece(Pawn, true))
    ensures forall q: Position :: q.OnBoard() && BlackPawnRow < q.row < WhitePawnRow ==> IsEmpty(g, q)
  {
    RankLayout(ps, g, 0, BlackHomeRow, BackRank, false);
    RankLayout(ps, g, 8, WhiteHomeRow, BackRank, true);
    RankLayout(ps, g, 16, BlackPawnRow, PawnRank, false);
    RankLayout(ps, g, 24, WhitePawnRow, PawnRank, true);
    MiddleEmpty(ps, g);
  }

  /** No start placement lands on rows 2-5, so they keep the fresh grid's empty cells. */
  lemma MiddleEmpty(ps: seq<Placed>, g: Grid)
    requires StartOrder(ps)
    requires forall q: Position :: (forall i :: 0 <= i < |ps| ==> ps[i].at != q) ==> At(g, q) == At(EmptyGrid(), q)
    ensures forall q: Position :: q.OnBoard() && BlackPawnRow < q.row < WhitePawnRow ==> IsEmpty(g, q)
  {
    forall q: Position | q.OnBoard() && BlackPawnRow < q.row < WhitePawnRow
      ensures IsEmpty(g, q)
    {
      forall i | 0 <= i < |ps|
        ensures ps[i].at != q
      {
        if i < 8 {} else if i < 16 {} else if i < 24 {} else {}
      }
    }
  }

  /** The eight calls from `base` on fill rank `row`. */
  lemma RankLayout(ps: seq<Placed>, g: Grid, base: nat, row: int, kinds: seq<Kind>, white: bool)
    requires base + MaxCol <= |ps| && |kinds| == MaxCol
    requires forall i :: 0 <= i < |ps| ==> At(g, ps[i].at) == Some(ps[i].piece)
    requires forall c :: 0 <= c < MaxCol ==> ps[base + c] == Placed(Position(row, c), Piece(kinds[c], white))
    ensures forall c :: 0 <= c < MaxCol ==> At(g, Position(row, c)) == Some(Piece(kinds[c], white))
  {
    forall c | 0 <= c < MaxCol
      ensures At(g, Position(row, c)) == Some(Piece(kinds[c], white))
    {
      assert ps[base + c].at == Position(row, c);
    }
  }

  /**
    `newInstance`: a fresh grid filled by re-adding every streamed piece at its own coordinates,
    the same two king squares, no en-passant pair, and the cloned mark.
  */
  function NewInstance(b: Board): (r: Board)
    requires b.Valid()
    ensures r.Valid() && r.cloned && r.enPassant == None
    ensures r.grid == b.grid
    ensures r.bKing == b.bKing && r.wKing == b.wKing
  {
    var s := Stream(b.grid);
    var g := AddPieces(EmptyGrid(), s);
    CopyIsExact(b.grid, s, g);
    Board(g, b.bKing, b.wKing, None, true)
  }

  /** Re-adding the occupied cells, each once, to an empty grid rebuilds the grid. */
  lemma CopyIsExact(src: Grid, s: seq<Placed>, g: Grid)
    requires ValidGrid(src) && ValidGrid(g)
    requires forall x :: x in s <==> x.at.OnBoard() && At(src, x.at) == Some(x.piece)
    requires forall i :: 0 <= i < |s| ==> At(g, s[i].at) == Some(s[i].piece)
    requires forall q: Position :: (forall i :: 0 <= i < |s| ==> s[i].at != q) ==> At(g, q) == At(EmptyGrid(), q)
    ensures g == src
  {
    forall q: Position | q.OnBoard()
      ensures At(g, q) == At(src, q)
    {
      if At(src, q).Some? {
        var x := Placed(q, At(src, q).value);
        assert x in s;
        var i :| 0 <= i < |s| && s[i] == x;
        assert At(g, s[i].at) == Some(s[i].piece);
      } else {
        forall i | 0 <= i < |s|
          ensures s[i].at != q
        {
          assert s[i] in s;
        }
        assert IsEmpty(EmptyGrid(), q);
      }
    }
    GridExt(g, src);
  }
}
