/**
  The FEN writer: the piece-placement field of Forsyth-Edwards Notation (section 16.1.3.1 of the
  PGN Standard), kept as one cached string per row, and the full line with the active colour,
  castling and en-passant fields (sections 16.1.3.2 to 16.1.3.4).
  A row is first scanned into tokens (a run of empty squares, or one piece), then rendered.
  Only the king defines its text ("K"/"k"); every other piece prints Java's default object text,
  so the text of non-king pieces is a parameter.
*/
module FenBuilder {
  import opened Wrappers
  import opened ChessConstants
  import opened ChessBoard
  import opened Seqs
  import KingRules

  type Row = seq<Option<Piece>>

  datatype Token = Empties(n: nat) | Occupant(p: Piece)

  /** The loop of `updateRow` from column `col`, with `count` empty squares seen and not yet written. */
  function Scan(row: Row, col: nat, count: nat): (ts: seq<Token>)
    requires col <= |row|
    decreases |row| - col
  {
    if col == |row| then
      if count > 0 then [Empties(count)] else []
    else if row[col].None? then
      Scan(row, col + 1, count + 1)
    else
      (if count > 0 then [Empties(count)] else []) + [Occupant(row[col].value)] + Scan(row, col + 1, 0)
  }

  /** The tokens `updateRow` writes for one row, scanned left to right. */
  function EncodeRow(row: Row): (ts: seq<Token>)
    ensures Canonical(ts)
    ensures Expand(ts) == row
    ensures Width(ts) == |row|
  {
    ScanExpands(row, 0, 0);
    ScanCanonical(row, 0, 0);
    ExpandWidth(Scan(row, 0, 0));
    Scan(row, 0, 0)
  }

  function Nones(n: nat): (r: Row)
    ensures |r| == n && forall i :: 0 <= i < n ==> r[i] == None
  {
    seq(n, _ => None)
  }

  /** The squares a token list stands for: the reader the encoding is checked against. */
  function Expand(ts: seq<Token>): (row: Row) {
    if ts == [] then []
    else
      (match ts[0]
       case Empties(n) => Nones(n)
       case Occupant(p) => [Some(p)])
      + Expand(ts[1..])
  }

  /** The number of squares a token list covers: each count, plus one per piece. */
  function Width(ts: seq<Token>): (w: nat) {
    if ts == [] then 0
    else (match ts[0] case Empties(n) => n case Occupant(_) => 1) + Width(ts[1..])
  }

  /** Every count is positive and no two counts are adjacent: each run of empties is written once, whole. */
  predicate Canonical(ts: seq<Token>) {
    && (forall i :: 0 <= i < |ts| && ts[i].Empties? ==> ts[i].n >= 1)
    && (forall i :: 0 <= i < |ts| - 1 ==> !(ts[i].Empties? && ts[i + 1].Empties?))
  }

  lemma {:induction false} ExpandWidth(ts: seq<Token>)
    ensures |Expand(ts)| == Width(ts)
  {
    if ts != [] {
      ExpandWidth(ts[1..]);
    }
  }

  lemma {:induction false} ExpandConcat(a: seq<Token>, b: seq<Token>)
    ensures Expand(a + b) == Expand(a) + Expand(b)
  {
    if a == [] {
      assert a + b == b;
    } else {
      assert (a + b)[1..] == a[1..] + b;
      ExpandConcat(a[1..], b);
    }
  }

  /** The count written for `count` pending empties expands to them. */
  lemma ExpandPending(row: Row, col: nat, count: nat)
    requires col <= |row| && count <= col
    requires forall i :: col - count <= i < col ==> row[i] == None
    ensures Expand(if count > 0 then [Empties(count)] else []) == row[col - count..col]
  {
    if count > 0 {
      assert [Empties(count)][1..] == [];
      assert Expand([Empties(count)]) == Nones(count) + Expand([]);
    }
  }

  lemma ExpandOne(p: Piece)
    ensures Expand([Occupant(p)]) == [Some(p)]
  {
    assert [Occupant(p)][1..] == [];
  }

  /** Scanning from `col` with `count` pending empties expands back to the row from `col - count` on. */
  lemma {:induction false} ScanExpands(row: Row, col: nat, count: nat)
    requires col <= |row| && count <= col
    requires forall i :: col - count <= i < col ==> row[i] == None
    ensures Expand(Scan(row, col, count)) == row[col - count..]
    decreases |row| - col
  {
    if col == |row| {
      ExpandPending(row, col, count);
    } else if row[col].None? {
      ScanExpands(row, col + 1, count + 1);
    } else {
      var rest := Scan(row, col + 1, 0);
      ScanExpands(row, col + 1, 0);
      ExpandPieceStep(row, col, count, rest);
    }
  }

  /** The tokens written at an occupied column, before the scan of the rest, expand to the row from the pending run on. */
  lemma ExpandPieceStep(row: Row, col: nat, count: nat, rest: seq<Token>)
    requires col < |row| && count <= col && row[col].Some?
    requires forall i :: col - count <= i < col ==> row[i] == None
    requires Expand(rest) == row[col + 1..]
    ensures Expand((if count > 0 then [Empties(count)] else []) + [Occupant(row[col].value)] + rest) == row[col - count..]
  {
    var pending: seq<Token> := if count > 0 then [Empties(count)] else [];
    var occ := [Occupant(row[col].value)];
    ExpandPending(row, col, count);
    ExpandOne(row[col].value);
    assert Expand(occ) == [row[col]];
    ExpandThree(pending, occ, rest);
    SliceAround(row, col - count, col);
  }

  lemma ExpandThree(a: seq<Token>, b: seq<Token>, c: seq<Token>)
    ensures Expand(a + b + c) == Expand(a) + Expand(b) + Expand(c)
  {
    ExpandConcat(a + b, c);
    ExpandConcat(a, b);
  }

  lemma SliceAround<T>(s: seq<T>, lo: nat, i: nat)
    requires lo <= i < |s|
    ensures s[lo..] == s[lo..i] + [s[i]] + s[i + 1..]
  {
  }

  /** The scan never writes a zero count or two counts in a row. */
  lemma {:induction false} ScanCanonical(row: Row, col: nat, count: nat)
    requires col <= |row|
    ensures Canonical(Scan(row, col, count))
    ensures count > 0 && Scan(row, col, count) != [] ==> Scan(row, col, count)[0].Empties?
    decreases |row| - col
  {
    if col == |row| {
    } else if row[col].None? {
      ScanCanonical(row, col + 1, count + 1);
    } else {
      ScanCanonical(row, col + 1, 0);
      var pending: seq<Token> := if count > 0 then [Empties(count)] else [];
      var rest := Scan(row, col + 1, 0);
      var ts := pending + [Occupant(row[col].value)] + rest;
      forall i | 0 <= i < |ts| - 1
        ensures !(ts[i].Empties? && ts[i + 1].Empties?)
      {
        if i >= |pending| + 1 {
          assert ts[i] == rest[i - |pending| - 1] && ts[i + 1] == rest[i - |pending|];
        }
      }
      forall i | 0 <= i < |ts| && ts[i].Empties?
        ensures ts[i].n >= 1
      {
        if i >= |pending| + 1 {
          assert ts[i] == rest[i - |pending| - 1];
        }
      }
    }
  }

  /** A canonical token list is the scan of the row it stands for: the encoding is the only canonical one. */
  lemma {:induction false} CanonicalIsEncoding(ts: seq<Token>)
    requires Canonical(ts)
    ensures EncodeRow(Expand(ts)) == ts
  {
    ScanOfExpand(ts, []);
    assert [] + Expand(ts) == Expand(ts);
  }

  lemma {:induction false} ScanOfExpand(ts: seq<Token>, prefix: Row)
    requires Canonical(ts)
    ensures Scan(prefix + Expand(ts), |prefix|, 0) == ts
    decreases |ts|
  {
    var row := prefix + Expand(ts);
    if ts == [] {
      assert row == prefix;
    } else {
      assert Canonical(ts[1..]) by {
        forall i | 0 <= i < |ts[1..]| - 1
          ensures !(ts[1..][i].Empties? && ts[1..][i + 1].Empties?)
        {
          assert ts[1..][i] == ts[i + 1] && ts[1..][i + 1] == ts[i + 2];
        }
      }
      match ts[0]
      case Occupant(p) =>
        assert Expand(ts) == [Some(p)] + Expand(ts[1..]);
        assert row == (prefix + [Some(p)]) + Expand(ts[1..]);
        ScanOfExpand(ts[1..], prefix + [Some(p)]);
      case Empties(n) =>
        assert Expand(ts) == Nones(n) + Expand(ts[1..]);
        assert row == (prefix + Nones(n)) + Expand(ts[1..]);
        ScanOfExpand(ts[1..], prefix + Nones(n));
        ScanRun(prefix + Nones(n) + Expand(ts[1..]), |prefix|, n, ts[1..]);
    }
  }

  /** Scanning a run of `n` empties that ends a row or is followed by a piece writes exactly one count `n`. */
  lemma {:induction false} ScanRun(row: Row, start: nat, n: nat, rest: seq<Token>)
    requires start + n <= |row| && n >= 1
    requires forall i :: start <= i < start + n ==> row[i] == None
    requires start + n < |row| ==> row[start + n].Some?
    requires Scan(row, start + n, 0) == rest
    requires rest != [] ==> rest[0].Occupant?
    ensures Scan(row, start, 0) == [Empties(n)] + rest
  {
    RunCounts(row, start, n, 0);
    if start + n == |row| {
      assert rest == [];
    } else {
      assert Scan(row, start + n, 0) == [Occupant(row[start + n].value)] + Scan(row, start + n + 1, 0);
    }
  }

  /** Inside a run of empties the scan only counts. */
  lemma {:induction false} RunCounts(row: Row, start: nat, n: nat, k: nat)
    requires start + n <= |row| && k <= n
    requires forall i :: start <= i < start + n ==> row[i] == None
    ensures Scan(row, start + k, k) == Scan(row, start + n, n)
    decreases n - k
  {
    if k < n {
      RunCounts(row, start, n, k + 1);
    }
  }

  /** Every count in a row's encoding is between 1 and the row's width. */
  lemma CountsInRange(row: Row)
    ensures forall i :: 0 <= i < |EncodeRow(row)| && EncodeRow(row)[i].Empties? ==> 1 <= EncodeRow(row)[i].n <= |row|
  {
    var ts := EncodeRow(row);
    forall i | 0 <= i < |ts| && ts[i].Empties?
      ensures ts[i].n <= |row|
    {
      TokenWithinWidth(ts, i);
    }
  }

  /** No single token covers more squares than the whole list. */
  lemma {:induction false} TokenWithinWidth(ts: seq<Token>, i: nat)
    requires i < |ts| && ts[i].Empties?
    ensures ts[i].n <= Width(ts)
  {
    if i > 0 {
      assert ts[1..][i - 1] == ts[i];
      TokenWithinWidth(ts[1..], i - 1);
    }
  }

  /** An empty row is written as the single count 8. */
  lemma EmptyRowIsEight()
    ensures EncodeRow(Nones(MaxCol)) == [Empties(MaxCol)]
    ensures RenderTokens([Empties(MaxCol)], p => "") == "8"
  {
    var ts := [Empties(MaxCol)];
    assert Canonical(ts);
    assert Expand(ts) == Nones(MaxCol) by {
      assert ts[1..] == [];
    }
    CanonicalIsEncoding(ts);
  }

  /** `StringBuilder.append(int)` for a count: its decimal digits. */
  function Decimal(n: nat): (s: string)
    ensures |s| >= 1 && forall i :: 0 <= i < |s| ==> '0' <= s[i] <= '9'
    ensures n < 10 ==> |s| == 1 && s[0] as int - '0' as int == n
  {
    if n < 10 then [('0' as int + n) as char] else Decimal(n / 10) + [('0' as int + n % 10) as char]
  }

  /** The text of a piece: the king's own `toString`, and the given text for every other kind. */
  function PieceText(p: Piece, text: Piece -> string): (s: string) {
    if p.kind == King then KingRules.Symbol(p.white) else text(p)
  }

  function RenderTokens(ts: seq<Token>, text: Piece -> string): (s: string) {
    if ts == [] then ""
    else
      (match ts[0]
       case Empties(n) => Decimal(n)
       case Occupant(p) => PieceText(p, text))
      + RenderTokens(ts[1..], text)
  }

  /** `updateRow(row)`: the text cached for one board row. */
  function RowText(b: Board, row: nat, text: Piece -> string): (s: string)
    requires b.Valid() && row < MaxRow
  {
    RenderTokens(EncodeRow(b.grid[row]), text)
  }

  /** The constructor's cache: one text per row, rank 8 first. */
  function InitialCache(b: Board, text: Piece -> string): (cache: seq<string>)
    requires b.Valid()
    ensures |cache| == MaxRow && forall r :: 0 <= r < MaxRow ==> cache[r] == RowText(b, r, text)
  {
    seq(MaxRow, r requires 0 <= r < MaxRow => RowText(b, r, text))
  }

  /** `update(old, new)`: re-encode the row of `old`, and that of `new` when it differs. */
  function Update(cache: seq<string>, b: Board, from: Position, to: Position, text: Piece -> string): (r: seq<string>)
    requires |cache| == MaxRow && b.Valid() && from.OnBoard() && to.OnBoard()
    ensures |r| == MaxRow
    ensures r[from.row] == RowText(b, from.row, text) && r[to.row] == RowText(b, to.row, text)
    ensures forall k :: 0 <= k < MaxRow && k != from.row && k != to.row ==> r[k] == cache[k]
  {
    var c := cache[from.row := RowText(b, from.row, text)];
    if from.row != to.row then c[to.row := RowText(b, to.row, text)] else c
  }

  /**
    A cache in step with a board stays in step after `movePiece(from, to)` and `update(from, to)`:
    the move touches no row but those two.
  */
  lemma UpdateAfterMove(cache: seq<string>, b: Board, from: Position, to: Position, text: Piece -> string)
    requires b.Valid() && from.OnBoard() && to.OnBoard()
    requires cache == InitialCache(b, text)
    ensures Update(cache, MovePiece(b, from, to), from, to, text) == InitialCache(MovePiece(b, from, to), text)
  {
  }

  /** The active-colour field: "w" or "b". */
  function ColorField(whiteTurn: bool): (s: string)
    ensures |s| == 1 && (s == "w" <==> whiteTurn) && (s == "b" <==> !whiteTurn)
  {
    if whiteTurn then "w" else "b"
  }

  /** The en-passant field: the recorded square's algebraic name, or "-". */
  function EnPassantField(b: Board): (s: string)
    requires b.Valid()
    ensures s == "-" <==> b.enPassant.None?
    ensures b.enPassant.Some? ==> ParseName(s) == Some(b.enPassant.value.square)
  {
    match b.enPassant
    case None => "-"
    case Some(ep) => NameRoundTrip(ep.square); ep.square.Name()
  }

  /** `buildFenString`: the rows joined by '/', then the colour, "KQkq" and en-passant fields, a space and a newline. */
  function BuildFenString(cache: seq<string>, b: Board, whiteTurn: bool): (s: string)
    requires b.Valid()
  {
    Join(cache, '/') + [' '] + ColorField(whiteTurn) + [' '] + "KQkq" + [' '] + EnPassantField(b) + [' '] + "\n"
  }

  /**
    The written line splits on spaces into exactly the placement, colour, castling and en-passant
    fields and the final newline, and the placement splits on '/' into the cached rows, as long as
    no piece text holds a space or a '/'.
  */
  lemma FenFields(cache: seq<string>, b: Board, whiteTurn: bool)
    requires b.Valid() && |cache| >= 1
    requires forall i :: 0 <= i < |cache| ==> ' ' !in cache[i] && '/' !in cache[i]
    ensures Split(BuildFenString(cache, b, whiteTurn), ' ')
            == [Join(cache, '/'), ColorField(whiteTurn), "KQkq", EnPassantField(b), "\n"]
    ensures Split(Join(cache, '/'), '/') == cache
  {
    var placement, color, ep := Join(cache, '/'), ColorField(whiteTurn), EnPassantField(b);
    NoSeparatorInJoin(cache, '/', ' ');
    EnPassantFieldHasNoSpace(b);
    SplitFive(placement, color, "KQkq", ep, "\n", ' ');
    SplitJoin(cache, '/');
  }

  /** The en-passant field is "-" or a square name, so it holds no space. */
  lemma EnPassantFieldHasNoSpace(b: Board)
    requires b.Valid()
    ensures ' ' !in EnPassantField(b)
  {
    if b.enPassant.Some? {
      NameHasNoSpace(b.enPassant.value.square);
    }
  }

  /** An algebraic square name is a file letter and a rank digit, so it holds no space. */
  lemma NameHasNoSpace(p: Position)
    requires p.OnBoard()
    ensures ' ' !in p.Name()
  {
    var s := p.Name();
    assert s == [s[0], s[1]];
  }

  /** Five fields free of the separator, joined by it, split back into the same five. */
  lemma SplitFive(f0: string, f1: string, f2: string, f3: string, f4: string, sep: char)
    requires sep !in f0 && sep !in f1 && sep !in f2 && sep !in f3 && sep !in f4
    ensures Split(f0 + [sep] + f1 + [sep] + f2 + [sep] + f3 + [sep] + f4, sep) == [f0, f1, f2, f3, f4]
  {
    var fields := [f0, f1, f2, f3, f4];
    JoinFive(fields, sep);
    SplitJoin(fields, sep);
  }

  lemma JoinFive(fields: seq<string>, sep: char)
    requires |fields| == 5
    ensures Join(fields, sep) == fields[0] + [sep] + fields[1] + [sep] + fields[2] + [sep] + fields[3] + [sep] + fields[4]
  {
    var f1, f2, f3 := fields[1..], fields[2..], fields[3..];
    assert Join(fields[3..], sep) == fields[3] + [sep] + fields[4] by {
      assert fields[3..][1..] == [fields[4]];
    }
    assert Join(f2, sep) == fields[2] + [sep] + Join(f3, sep) by {
      assert f2[1..] == f3;
    }
    assert Join(f1, sep) == fields[1] + [sep] + Join(f2, sep) by {
      assert f1[1..] == f2;
    }
  }

  /** Joining parts that avoid a character with a different separator avoids it too. */
  lemma {:induction false} NoSeparatorInJoin(parts: seq<string>, sep: char, c: char)
    requires sep != c
    requires forall i :: 0 <= i < |parts| ==> c !in parts[i]
    ensures c !in Join(parts, sep)
  {
    if |parts| > 1 {
      NoSeparatorInJoin(parts[1..], sep, c);
    }
  }
}
