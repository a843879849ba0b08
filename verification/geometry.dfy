/**
  Walking the board along a line: the unit direction from one square toward another
  (`Integer.compare` on each coordinate), the square k steps along a direction, and
  the lemmas that tie the three together for squares that share a row, column or diagonal.
*/
module Geometry {
  import opened ChessConstants
  import opened ChessBoard

  /** `Integer.compare(a, b)`: the sign of `a - b`. */
  function Compare(a: int, b: int): (r: int)
    ensures r == -1 <==> a < b
    ensures r == 0 <==> a == b
    ensures r == 1 <==> a > b
  {
    if a < b then -1 else if a == b then 0 else 1
  }

  /** A step of at most one square on each coordinate. */
  datatype Dir = Dir(dr: int, dc: int) {
    predicate Unit() {
      -1 <= dr <= 1 && -1 <= dc <= 1
    }

    predicate NonZero() {
      dr != 0 || dc != 0
    }

    predicate Orthogonal() {
      Unit() && NonZero() && (dr == 0 || dc == 0)
    }

    predicate Diagonal() {
      Unit() && dr != 0 && dc != 0
    }
  }

  /** `u * k` for a unit coordinate `u`, written so that it stays linear in `k`. */
  function Scale(u: int, k: int): (r: int)
    requires -1 <= u <= 1
    ensures u == 0 ==> r == 0
    ensures u == 1 ==> r == k
    ensures u == -1 ==> r == -k
  {
    if u == 0 then 0 else if u == 1 then k else -k
  }

  /** The square reached after `k` steps of `d` from `from`. */
  function Step(from: Position, d: Dir, k: int): (q: Position)
    requires d.Unit()
    ensures k == 0 ==> q == from
    ensures q.row - from.row == Scale(d.dr, k) && q.col - from.col == Scale(d.dc, k)
  {
    Position(from.row + Scale(d.dr, k), from.col + Scale(d.dc, k))
  }

  /** The unit direction the source's walks take from `from` toward `to`. */
  function Toward(from: Position, to: Position): (d: Dir)
    ensures d.Unit()
    ensures d.NonZero() <==> from != to
  {
    Dir(Compare(to.row, from.row), Compare(to.col, from.col))
  }

  /** The number of king steps between two squares. */
  function Dist(a: Position, b: Position): (n: nat)
    ensures n == 0 <==> a == b
    ensures Abs(a.row - b.row) <= n && Abs(a.col - b.col) <= n
    ensures n == Abs(a.row - b.row) || n == Abs(a.col - b.col)
  {
    if Abs(a.row - b.row) < Abs(a.col - b.col) then Abs(a.col - b.col) else Abs(a.row - b.row)
  }

  /** The squares a rook or bishop line passes through: same row, column or diagonal. */
  predicate Aligned(a: Position, b: Position) {
    a.SameRowOrCol(b) || a.OnDiagonal(b)
  }

  /** `q` lies strictly between `a` and `b` on the line joining them. */
  predicate StrictlyBetween(a: Position, q: Position, b: Position) {
    && Aligned(a, b) && Aligned(a, q) && q != a
    && Toward(a, q) == Toward(a, b) && Dist(a, q) < Dist(a, b)
  }

  /** Walking `Dist` steps toward an aligned square arrives on it. */
  lemma AlignedStep(a: Position, b: Position)
    requires Aligned(a, b)
    ensures Step(a, Toward(a, b), Dist(a, b)) == b
  {
  }

  /** From a square, `k` nonzero steps along a nonzero direction lead to an aligned square
      in that direction, `k` king steps away. */
  lemma StepInverse(a: Position, d: Dir, k: int)
    requires d.Unit() && d.NonZero() && k > 0
    ensures Aligned(a, Step(a, d, k))
    ensures Toward(a, Step(a, d, k)) == d
    ensures Dist(a, Step(a, d, k)) == k
  {
  }

  /** Steps along a nonzero direction never revisit a square. */
  lemma StepInjective(a: Position, d: Dir, i: int, j: int)
    requires d.Unit() && d.NonZero() && i != j
    ensures Step(a, d, i) != Step(a, d, j)
  {
  }

  /** The direction toward an aligned square is orthogonal exactly when the squares share a row or column. */
  lemma TowardKind(a: Position, b: Position)
    requires Aligned(a, b) && a != b
    ensures Toward(a, b).Orthogonal() <==> a.SameRowOrCol(b)
    ensures Toward(a, b).Diagonal() <==> a.OnDiagonal(b)
  {
  }

  /** Strictly-between squares are exactly the steps short of the end. */
  lemma BetweenIsStep(a: Position, q: Position, b: Position)
    requires Aligned(a, b)
    ensures StrictlyBetween(a, q, b) <==> exists j :: 0 < j < Dist(a, b) && q == Step(a, Toward(a, b), j)
  {
    if StrictlyBetween(a, q, b) {
      AlignedStep(a, q);
    }
    if j :| 0 < j < Dist(a, b) && q == Step(a, Toward(a, b), j) {
      StepInverse(a, Toward(a, b), j);
    }
  }

  /** How many steps of `d` stay on the board from an on-board square. */
  function Reach(from: Position, d: Dir): (n: nat)
    requires from.OnBoard() && d.Unit() && d.NonZero()
    ensures n < MaxRow
  {
    var rows := if d.dr == 1 then MaxRow - 1 - from.row else if d.dr == -1 then from.row else MaxRow - 1;
    var cols := if d.dc == 1 then MaxCol - 1 - from.col else if d.dc == -1 then from.col else MaxCol - 1;
    if rows < cols then rows else cols
  }

  /** The board is convex along a line: step `k >= 0` is on it exactly up to `Reach`. */
  lemma ReachBound(from: Position, d: Dir, k: int)
    requires from.OnBoard() && d.Unit() && d.NonZero() && k >= 0
    ensures Step(from, d, k).OnBoard() <==> k <= Reach(from, d)
  {
  }

  /** `v` lies strictly between `a` and `b` on the number line. */
  predicate Strictly(a: int, v: int, b: int) {
    a < v < b || b < v < a
  }

  /** On a shared column, the squares strictly between are those of the rows strictly between. */
  lemma BetweenOnColumn(a: Position, q: Position, b: Position)
    requires a.col == b.col
    ensures StrictlyBetween(a, q, b) <==> q.col == a.col && Strictly(a.row, q.row, b.row)
  {
  }

  /** On a shared row, the squares strictly between are those of the columns strictly between. */
  lemma BetweenOnRow(a: Position, q: Position, b: Position)
    requires a.row == b.row
    ensures StrictlyBetween(a, q, b) <==> q.row == a.row && Strictly(a.col, q.col, b.col)
  {
  }
}
