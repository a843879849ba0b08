/**
  What every piece shares: the colour test, the common legality test (on the board and not
  onto a piece of one's own colour), the walk that decides whether a line is blocked, and the
  ray scans that list the squares a rook or bishop line reaches.
  Every rule reads only the grid, never the rest of the board.
*/
module ChessPiece {
  import opened Wrappers
  import opened ChessConstants
  import opened ChessBoard
  import opened Geometry
  import opened Seqs

  predicate SameColor(a: Piece, b: Piece) {
    a.white == b.white
  }

  /** Colour equality is an equivalence relation on pieces. */
  lemma SameColorEquivalence(a: Piece, b: Piece, c: Piece)
    ensures SameColor(a, a)
    ensures SameColor(a, b) <==> SameColor(b, a)
    ensures SameColor(a, b) && SameColor(b, c) ==> SameColor(a, c)
  {
  }

  /** `isLegalMoveCommon`: the target is on the board and does not hold a piece of `p`'s colour. */
  function IsLegalMoveCommon(g: Grid, p: Piece, t: Position): (r: bool)
    ensures r ==> t.OnBoard()
    ensures r ==> At(g, t) == None || At(g, t).value.white != p.white
    ensures t.OnBoard() && IsEmpty(g, t) ==> r
    ensures t.OnBoard() && At(g, t).Some? && At(g, t).value.white != p.white ==> r
  {
    t.OnBoard() && !(!IsEmpty(g, t) && SameColor(p, At(g, t).value))
  }

  /** No square from step `lo` up to (not including) step `hi` along `d` holds a piece. */
  ghost predicate ClearSteps(g: Grid, from: Position, d: Dir, lo: int, hi: int)
    requires d.Unit()
  {
    forall j :: lo <= j < hi ==> IsEmpty(g, Step(from, d, j))
  }

  /**
    The loop of `isBlocked` from step `k` on: stop with false on reaching the target,
    with true on the first occupied square before it.
  */
  function BlockedWalk(g: Grid, at: Position, t: Position, k: nat): (r: bool)
    requires Aligned(at, t)
    requires 1 <= k <= Dist(at, t) || (at == t && k == 1)
    ensures r <==> !ClearSteps(g, at, Toward(at, t), k, Dist(at, t))
    decreases Dist(at, t) - k
  {
    AlignedStep(at, t);
    var q := Step(at, Toward(at, t), k);
    if q == t then
      false
    else if !IsEmpty(g, q) then
      true
    else
      BlockedWalk(g, at, t, k + 1)
  }

  /**
    `isBlocked`: some square strictly between `at` and the aligned target holds a piece.
    The source only calls it on aligned targets (otherwise its walk runs off the board).
  */
  function IsBlocked(g: Grid, at: Position, t: Position): (r: bool)
    requires Aligned(at, t)
    ensures r <==> exists q :: StrictlyBetween(at, q, t) && !IsEmpty(g, q)
  {
    var r := BlockedWalk(g, at, t, 1);
    BlockedMeansOccupiedBetween(g, at, t, r);
    r
  }

  lemma BlockedMeansOccupiedBetween(g: Grid, at: Position, t: Position, r: bool)
    requires Aligned(at, t)
    requires r <==> !ClearSteps(g, at, Toward(at, t), 1, Dist(at, t))
    ensures r <==> exists q :: StrictlyBetween(at, q, t) && !IsEmpty(g, q)
  {
    var d := Toward(at, t);
    if r {
      var j :| 1 <= j < Dist(at, t) && !IsEmpty(g, Step(at, d, j));
      BetweenIsStep(at, Step(at, d, j), t);
    } else {
      forall q | StrictlyBetween(at, q, t)
        ensures IsEmpty(g, q)
      {
        BetweenIsStep(at, q, t);
      }
    }
  }

  /**
    One `while` loop of `addLineMoves` / `addDiagonalMoves` through `addIfLegalMove`, from step `k`:
    empty squares are listed and the scan goes on; the first occupied square ends it, and is
    listed when it holds a piece of the other colour; leaving the board ends it too.
  */
  function Ray(g: Grid, p: Piece, at: Position, d: Dir, k: nat): (r: seq<Position>)
    requires at.OnBoard() && d.Unit() && d.NonZero() && k >= 1
    ensures forall i :: 0 <= i < |r| ==> r[i] == Step(at, d, k + i)
    ensures forall i :: 0 <= i < |r| ==> IsLegalMoveCommon(g, p, r[i])
    ensures forall i :: 0 <= i < |r| - 1 ==> IsEmpty(g, r[i])
    ensures k <= Reach(at, d) + 1 ==> k + |r| <= Reach(at, d) + 1
    decreases MaxRow - k
  {
    var q := Step(at, d, k);
    ReachBound(at, d, k);
    if !q.OnBoard() then
      []
    else if IsEmpty(g, q) then
      [q] + Ray(g, p, at, d, k + 1)
    else if At(g, q).value.white != p.white then
      [q]
    else
      []
  }

  /** A scan never lists a square twice. */
  lemma RayNoDup(g: Grid, p: Piece, at: Position, d: Dir, k: nat)
    requires at.OnBoard() && d.Unit() && d.NonZero() && k >= 1
    ensures NoDup(Ray(g, p, at, d, k))
  {
    var r := Ray(g, p, at, d, k);
    forall i, j | 0 <= i < j < |r|
      ensures r[i] != r[j]
    {
      StepInjective(at, d, k + i, k + j);
    }
  }

  /** The scan along `d` from step `k` reaches every legal square with nothing before it. */
  lemma {:induction false} RayComplete(g: Grid, p: Piece, at: Position, d: Dir, k: nat, j: int)
    requires at.OnBoard() && d.Unit() && d.NonZero() && 1 <= k <= j
    requires IsLegalMoveCommon(g, p, Step(at, d, j)) && ClearSteps(g, at, d, k, j)
    ensures j < k + |Ray(g, p, at, d, k)|
    decreases j - k
  {
    var q := Step(at, d, k);
    ReachBound(at, d, k);
    ReachBound(at, d, j);
    assert q.OnBoard();
    if k < j {
      assert IsEmpty(g, q);
      assert |Ray(g, p, at, d, k)| == 1 + |Ray(g, p, at, d, k + 1)|;
      RayComplete(g, p, at, d, k + 1, j);
    } else {
      assert IsLegalMoveCommon(g, p, q);
      assert Ray(g, p, at, d, k) != [];
    }
  }

  /** `addLineMoves`: the rays down the board, up, right, then left. */
  function LineMoves(g: Grid, p: Piece, at: Position): (r: seq<Position>)
    requires at.OnBoard()
  {
    Ray(g, p, at, Dir(1, 0), 1) + Ray(g, p, at, Dir(-1, 0), 1)
    + Ray(g, p, at, Dir(0, 1), 1) + Ray(g, p, at, Dir(0, -1), 1)
  }

  /** `addDiagonalMoves`: the rays down-right, up-left, down-left, then up-right. */
  function DiagonalMoves(g: Grid, p: Piece, at: Position): (r: seq<Position>)
    requires at.OnBoard()
  {
    Ray(g, p, at, Dir(1, 1), 1) + Ray(g, p, at, Dir(-1, -1), 1)
    + Ray(g, p, at, Dir(1, -1), 1) + Ray(g, p, at, Dir(-1, 1), 1)
  }

  /** A square is in the four rays along `ds` exactly when it is in the ray along one of them. */
  lemma InFourRays(g: Grid, p: Piece, at: Position, ds: seq<Dir>, t: Position)
    requires at.OnBoard() && |ds| == 4
    requires forall i :: 0 <= i < 4 ==> ds[i].Unit() && ds[i].NonZero()
    ensures t in Ray(g, p, at, ds[0], 1) + Ray(g, p, at, ds[1], 1) + Ray(g, p, at, ds[2], 1) + Ray(g, p, at, ds[3], 1)
            <==> t != at && Aligned(at, t) && Toward(at, t) in ds && IsLegalMoveCommon(g, p, t) && !IsBlocked(g, at, t)
  {
    InRay(g, p, at, ds[0], t);
    InRay(g, p, at, ds[1], t);
    InRay(g, p, at, ds[2], t);
    InRay(g, p, at, ds[3], t);
  }

  /** Four rays along four distinct directions list no square twice. */
  lemma FourRaysNoDup(g: Grid, p: Piece, at: Position, d0: Dir, d1: Dir, d2: Dir, d3: Dir)
    requires at.OnBoard()
    requires d0.Unit() && d0.NonZero() && d1.Unit() && d1.NonZero()
    requires d2.Unit() && d2.NonZero() && d3.Unit() && d3.NonZero()
    requires d0 != d1 && d0 != d2 && d0 != d3 && d1 != d2 && d1 != d3 && d2 != d3
    ensures NoDup(Ray(g, p, at, d0, 1) + Ray(g, p, at, d1, 1) + Ray(g, p, at, d2, 1) + Ray(g, p, at, d3, 1))
  {
    var r0, r1, r2, r3 := Ray(g, p, at, d0, 1), Ray(g, p, at, d1, 1), Ray(g, p, at, d2, 1), Ray(g, p, at, d3, 1);
    forall q | true
      ensures !(q in r0 && q in r1) && !(q in r0 && q in r2) && !(q in r0 && q in r3)
      ensures !(q in r1 && q in r2) && !(q in r1 && q in r3) && !(q in r2 && q in r3)
    {
      RaysApart(g, p, at, d0, d1, q);
      RaysApart(g, p, at, d0, d2, q);
      RaysApart(g, p, at, d0, d3, q);
      RaysApart(g, p, at, d1, d2, q);
      RaysApart(g, p, at, d1, d3, q);
      RaysApart(g, p, at, d2, d3, q);
    }
    RayNoDup(g, p, at, d0, 1);
    RayNoDup(g, p, at, d1, 1);
    RayNoDup(g, p, at, d2, 1);
    RayNoDup(g, p, at, d3, 1);
    NoDupConcat(r0, r1);
    NoDupConcat(r0 + r1, r2);
    NoDupConcat(r0 + r1 + r2, r3);
  }

  /** Rays along different directions share no square. */
  lemma RaysApart(g: Grid, p: Piece, at: Position, d: Dir, e: Dir, q: Position)
    requires at.OnBoard() && d.Unit() && d.NonZero() && e.Unit() && e.NonZero() && d != e
    ensures !(q in Ray(g, p, at, d, 1) && q in Ray(g, p, at, e, 1))
  {
    var rd, re := Ray(g, p, at, d, 1), Ray(g, p, at, e, 1);
    if q in rd && q in re {
      var i :| 0 <= i < |rd| && rd[i] == q;
      var j :| 0 <= j < |re| && re[j] == q;
      StepInverse(at, d, 1 + i);
      StepInverse(at, e, 1 + j);
    }
  }

  /** A square is on the ray along `d` exactly when it is a legal, unobstructed step along `d`. */
  lemma InRay(g: Grid, p: Piece, at: Position, d: Dir, t: Position)
    requires at.OnBoard() && d.Unit() && d.NonZero()
    ensures t in Ray(g, p, at, d, 1) <==>
              && t != at && Aligned(at, t) && Toward(at, t) == d
              && IsLegalMoveCommon(g, p, t) && !IsBlocked(g, at, t)
  {
    if t in Ray(g, p, at, d, 1) {
      RaySound(g, p, at, d, t);
    }
    if t != at && Aligned(at, t) && Toward(at, t) == d && IsLegalMoveCommon(g, p, t) && !IsBlocked(g, at, t) {
      RayReaches(g, p, at, d, t);
    }
  }

  /** `isBlocked` is false exactly when every step short of the target is empty. */
  lemma UnblockedIsClear(g: Grid, at: Position, t: Position)
    requires Aligned(at, t)
    ensures !IsBlocked(g, at, t) <==> ClearSteps(g, at, Toward(at, t), 1, Dist(at, t))
  {
  }

  lemma RaySound(g: Grid, p: Piece, at: Position, d: Dir, t: Position)
    requires at.OnBoard() && d.Unit() && d.NonZero()
    requires t in Ray(g, p, at, d, 1)
    ensures t != at && Aligned(at, t) && Toward(at, t) == d
    ensures IsLegalMoveCommon(g, p, t) && !IsBlocked(g, at, t)
  {
    var r := Ray(g, p, at, d, 1);
    var i :| 0 <= i < |r| && r[i] == t;
    StepInverse(at, d, 1 + i);
    assert ClearSteps(g, at, d, 1, 1 + i) by {
      forall j | 1 <= j < 1 + i
        ensures IsEmpty(g, Step(at, d, j))
      {
        assert Step(at, d, j) == r[j - 1];
      }
    }
    UnblockedIsClear(g, at, t);
  }

  lemma RayReaches(g: Grid, p: Piece, at: Position, d: Dir, t: Position)
    requires at.OnBoard() && d.Unit() && d.NonZero()
    requires t != at && Aligned(at, t) && Toward(at, t) == d
    requires IsLegalMoveCommon(g, p, t) && !IsBlocked(g, at, t)
    ensures t in Ray(g, p, at, d, 1)
  {
    AlignedStep(at, t);
    UnblockedIsClear(g, at, t);
    var n := Dist(at, t);
    RayComplete(g, p, at, d, 1, n);
    assert Ray(g, p, at, d, 1)[n - 1] == t;
  }

  /** `addLineMoves` lists exactly the unobstructed squares in line with `at` that `p` may enter. */
  lemma InLineMoves(g: Grid, p: Piece, at: Position, t: Position)
    requires at.OnBoard()
    ensures t in LineMoves(g, p, at) <==>
              t != at && at.SameRowOrCol(t) && IsLegalMoveCommon(g, p, t) && !IsBlocked(g, at, t)
  {
    var ds := [Dir(1, 0), Dir(-1, 0), Dir(0, 1), Dir(0, -1)];
    InFourRays(g, p, at, ds, t);
    if t != at && Aligned(at, t) {
      TowardKind(at, t);
    }
  }

  /** `addDiagonalMoves` lists exactly the unobstructed squares diagonal to `at` that `p` may enter. */
  lemma InDiagonalMoves(g: Grid, p: Piece, at: Position, t: Position)
    requires at.OnBoard()
    ensures t in DiagonalMoves(g, p, at) <==>
              t != at && at.OnDiagonal(t) && IsLegalMoveCommon(g, p, t) && !IsBlocked(g, at, t)
  {
    var ds := [Dir(1, 1), Dir(-1, -1), Dir(1, -1), Dir(-1, 1)];
    InFourRays(g, p, at, ds, t);
    if t != at && Aligned(at, t) {
      TowardKind(at, t);
    }
  }

  /** Neither scan lists a square twice. */
  lemma LinesHaveNoDuplicates(g: Grid, p: Piece, at: Position)
    requires at.OnBoard()
    ensures NoDup(LineMoves(g, p, at))
    ensures NoDup(DiagonalMoves(g, p, at))
  {
    FourRaysNoDup(g, p, at, Dir(1, 0), Dir(-1, 0), Dir(0, 1), Dir(0, -1));
    FourRaysNoDup(g, p, at, Dir(1, 1), Dir(-1, -1), Dir(1, -1), Dir(-1, 1));
  }

  /** A rook line reaches at most 14 squares, a bishop line at most 13. */
  lemma LineMovesBound(g: Grid, p: Piece, at: Position)
    requires at.OnBoard()
    ensures |LineMoves(g, p, at)| <= 14
    ensures |DiagonalMoves(g, p, at)| <= 13
  {
    var down, up := Ray(g, p, at, Dir(1, 0), 1), Ray(g, p, at, Dir(-1, 0), 1);
    var right, left := Ray(g, p, at, Dir(0, 1), 1), Ray(g, p, at, Dir(0, -1), 1);
    assert |down| + |up| + |right| + |left| <= 14 by {
      ReachTotals(at);
    }
    var dr, ul := Ray(g, p, at, Dir(1, 1), 1), Ray(g, p, at, Dir(-1, -1), 1);
    var dl, ur := Ray(g, p, at, Dir(1, -1), 1), Ray(g, p, at, Dir(-1, 1), 1);
    assert |dr| + |ul| + |dl| + |ur| <= 13 by {
      ReachTotals(at);
    }
  }

  /** From any square the four orthogonal directions reach 14 squares in all, the diagonal ones at most 13
      (the two diagonals through a square cannot both be the long ones, by parity). */
  lemma ReachTotals(at: Position)
    requires at.OnBoard()
    ensures Reach(at, Dir(1, 0)) + Reach(at, Dir(-1, 0)) + Reach(at, Dir(0, 1)) + Reach(at, Dir(0, -1)) == 14
    ensures Reach(at, Dir(1, 1)) + Reach(at, Dir(-1, -1)) + Reach(at, Dir(1, -1)) + Reach(at, Dir(-1, 1)) <= 13
  {
  }
}
