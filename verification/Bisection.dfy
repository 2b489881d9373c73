/** The numerical inverse of a shaping function, by halving an interval. */
module Bisection {
  import opened Shaping

  /** The width of [0,1] after it has been halved `n` times. */
  ghost function Width(n: nat): (w: real)
    ensures 0.0 < w <= 1.0
  {
    if n == 0 then 1.0 else Width(n - 1) / 2.0
  }

  ghost function Edge(k: int, w: real): real {
    k as real * w
  }

  /** Of the cells of width `w` that tile [0,1], the one numbered `k` is where `fn` reaches `y`. */
  ghost predicate Crosses(fn: real -> real, y: real, w: real, k: nat) {
    && Edge(k + 1, w) <= 1.0
    && (k == 0 || fn(Edge(k, w)) < y)
    && (Edge(k + 1, w) == 1.0 || y <= fn(Edge(k + 1, w)))
  }

  /** No fewer than `n` halvings bring the width down to `invEps`. */
  ghost predicate Needed(n: nat, invEps: real) {
    Width(n) <= invEps && (n > 0 ==> invEps < Width(n - 1))
  }

  /** `t` is the edge of cell `k` that was probed last: the one with an odd number, or 0 if none was probed. */
  ghost predicate LastProbe(n: nat, k: nat, t: real) {
    t == if n == 0 then 0.0 else Edge(if k % 2 == 1 then k else k + 1, Width(n))
  }

  /** What the search promises, without saying how it goes about it. */
  ghost predicate Inverts(fn: real -> real, y: real, invEps: real, n: nat, k: nat, t: real) {
    Needed(n, invEps) && Crosses(fn, y, Width(n), k) && LastProbe(n, k, t)
  }

  ghost predicate IsInverse(fn: real -> real, y: real, invEps: real, t: real) {
    exists n: nat, k: nat :: Inverts(fn, y, invEps, n, k, t)
  }

  lemma Halving(width: real, invEps: real)
    requires 0.0 < invEps < width
    ensures 0 <= (width / 2.0 / invEps).Floor < (width / invEps).Floor
  {
    var x := width / invEps;
    assert x * invEps == width;
    assert x > 1.0;
    assert width / 2.0 / invEps == x / 2.0;
  }

  /** Splitting a cell in two: its ends keep their places and get even numbers. */
  lemma SplitEdge(k: int, w: real)
    ensures Edge(2 * k, w / 2.0) == Edge(k, w)
    ensures Edge(2 * k + 1, w / 2.0) == 0.5 * (Edge(k, w) + Edge(k + 1, w))
  {
  }

  /** Keeping the upper half of a cell. */
  lemma KeepUpper(fn: real -> real, y: real, n: nat, k: nat, mid: real)
    requires Crosses(fn, y, Width(n), k)
    requires mid == 0.5 * (Edge(k, Width(n)) + Edge(k + 1, Width(n))) && fn(mid) < y
    ensures Crosses(fn, y, Width(n + 1), 2 * k + 1) && LastProbe(n + 1, 2 * k + 1, mid)
    ensures Edge(2 * k + 1, Width(n + 1)) == mid && Edge(2 * k + 2, Width(n + 1)) == Edge(k + 1, Width(n))
  {
    hide Edge;
    SplitEdge(k, Width(n));
    SplitEdge(k + 1, Width(n));
  }

  /** Keeping the lower half of a cell. */
  lemma KeepLower(fn: real -> real, y: real, n: nat, k: nat, mid: real)
    requires Crosses(fn, y, Width(n), k)
    requires mid == 0.5 * (Edge(k, Width(n)) + Edge(k + 1, Width(n))) && y <= fn(mid)
    ensures Crosses(fn, y, Width(n + 1), 2 * k) && LastProbe(n + 1, 2 * k, mid)
    ensures Edge(2 * k, Width(n + 1)) == Edge(k, Width(n)) && Edge(2 * k + 1, Width(n + 1)) == mid
  {
    EdgesInOrder(k, k + 1, Width(n));
    hide Edge;
    SplitEdge(k, Width(n));
    SplitEdge(k + 1, Width(n));
  }

  /** Bisection; `iter` is the number of halvings, which the source logs. */
  method InvertEase(fn: real -> real, y: real, invEps: real) returns (mid: real, iter: nat)
    requires invEps > 0.0
    ensures exists k: nat :: Inverts(fn, y, invEps, iter, k, mid)
  {
    hide Edge, Crosses, LastProbe;
    var lo, hi := 0.0, 1.0;
    mid, iter := 0.0, 0;
    ghost var k: nat := 0;
    FirstCell(fn, y);
    while hi - lo > invEps
      invariant hi - lo == Width(iter)
      invariant lo == Edge(k, Width(iter)) && hi == Edge(k + 1, Width(iter))
      invariant Crosses(fn, y, Width(iter), k)
      invariant LastProbe(iter, k, mid)
      invariant iter > 0 ==> invEps < Width(iter - 1)
      decreases ((hi - lo) / invEps).Floor
    {
      Halving(hi - lo, invEps);
      mid := 0.5 * (lo + hi);
      var v := fn(mid);
      if v < y {
        KeepUpper(fn, y, iter, k, mid);
        lo := mid;
        k := 2 * k + 1;
      } else {
        KeepLower(fn, y, iter, k, mid);
        hi := mid;
        k := 2 * k;
      }
      iter := iter + 1;
    }
    assert Inverts(fn, y, invEps, iter, k, mid);
  }

  lemma FirstCell(fn: real -> real, y: real)
    ensures Edge(0, Width(0)) == 0.0 && Edge(1, Width(0)) == 1.0
    ensures Crosses(fn, y, Width(0), 0) && LastProbe(0, 0, 0.0)
  {
  }

  /** The search can end only if its threshold is positive; otherwise no number of halvings is enough. */
  lemma EndsIffPositive(invEps: real)
    ensures (exists n: nat :: Width(n) <= invEps) <==> invEps > 0.0
  {
    if invEps > 0.0 {
      var n := HalvingsFor(0, invEps);
    }
  }

  lemma HalvingsFor(m: nat, invEps: real) returns (n: nat)
    requires invEps > 0.0
    ensures Width(n) <= invEps
    decreases (Width(m) / invEps).Floor
  {
    if Width(m) <= invEps {
      n := m;
    } else {
      Halving(Width(m), invEps);
      n := HalvingsFor(m + 1, invEps);
    }
  }

  lemma Narrower(m: nat, n: nat)
    requires m <= n
    ensures Width(n) <= Width(m)
  {
    if m < n {
      Narrower(m, n - 1);
    }
  }

  lemma EdgesInOrder(j: int, k: int, w: real)
    requires j <= k && w > 0.0
    ensures Edge(j, w) <= Edge(k, w)
    ensures j < k ==> Edge(j, w) < Edge(k, w)
  {
    if j < k {
      var steps, gap := (k - j) as real, Edge(k, w) - Edge(j, w);
      assert gap == steps * w;
      Positive(steps, w, gap);
    }
  }

  /** For an increasing function the promise leaves one answer only. */
  lemma InverseIsUnique(fn: real -> real, y: real, invEps: real, m: nat, j: nat, s: real, n: nat, k: nat, t: real)
    requires Increasing(fn)
    requires Inverts(fn, y, invEps, m, j, s) && Inverts(fn, y, invEps, n, k, t)
    ensures m == n && j == k && s == t
  {
    if m < n {
      Narrower(m, n - 1);
    } else if n < m {
      Narrower(n, m - 1);
    } else if j < k {
      SameCell(fn, y, Width(n), j, k);
    } else if k < j {
      SameCell(fn, y, Width(n), k, j);
    }
  }

  lemma SameCell(fn: real -> real, y: real, w: real, j: nat, k: nat)
    requires Increasing(fn) && w > 0.0 && j <= k
    requires Crosses(fn, y, w, j) && Crosses(fn, y, w, k)
    ensures j == k
  {
    if j < k {
      EdgesInOrder(0, j + 1, w);
      EdgesInOrder(j + 1, k, w);
      EdgesInOrder(k, k + 1, w);
      var a, b := Edge(j + 1, w), Edge(k, w);
      if a == b {
        assert false;
      }
    }
  }

  /** The answer is an end of its cell, and the cell is no wider than `invEps`. */
  lemma ProbeIsAnEnd(fn: real -> real, y: real, invEps: real, n: nat, k: nat, t: real)
    requires Inverts(fn, y, invEps, n, k, t)
    ensures 0.0 <= Edge(k, Width(n)) < Edge(k + 1, Width(n)) <= 1.0
    ensures Edge(k + 1, Width(n)) - Edge(k, Width(n)) <= invEps
    ensures t == Edge(k, Width(n)) || t == Edge(k + 1, Width(n))
    ensures n > 0 ==> 0.0 < t < 1.0
  {
    hide Width;
    CellIsInside(k, Width(n));
    if n == 0 {
      OnlyCell(k);
    } else {
      Odd(n, k, t);
    }
  }

  lemma CellIsInside(k: nat, w: real)
    requires w > 0.0
    ensures 0.0 <= Edge(k, w) < Edge(k + 1, w) && Edge(k + 1, w) - Edge(k, w) == w
  {
    EdgesInOrder(0, k, w);
  }

  lemma OnlyCell(k: nat)
    requires Edge(k + 1, Width(0)) <= 1.0
    ensures k == 0 && Edge(0, Width(0)) == 0.0
  {
  }

  // After a halving the number of cells is even, so an odd edge is an inner one.
  lemma Odd(n: nat, k: nat, t: real)
    requires n > 0 && LastProbe(n, k, t) && Edge(k + 1, Width(n)) <= 1.0
    ensures 0.0 < t < 1.0
  {
    hide Width, Edge;
    var w := Width(n);
    var odd: int := if k % 2 == 1 then k else k + 1;
    NothingBelow(w);
    EdgesInOrder(0, odd, w);
    EdgesInOrder(odd, k + 1, w);
    var cells := Cells(n);
    LastEdge(n);
    CellsAreEven(n, odd);
    hide Cells;
    if odd < cells {
      EdgesInOrder(odd, cells, w);
    } else {
      EdgesInOrder(cells, odd, w);
    }
  }

  lemma NothingBelow(w: real)
    ensures Edge(0, w) == 0.0
  {
  }

  ghost function Cells(n: nat): nat {
    if n == 0 then 1 else 2 * Cells(n - 1)
  }

  lemma {:induction false} LastEdge(n: nat)
    ensures Edge(Cells(n), Width(n)) == 1.0
  {
    hide Edge, Width;
    if n == 0 {
      OneCell();
    } else {
      LastEdge(n - 1);
      WidthHalves(n);
      SplitEdge(Cells(n - 1), Width(n - 1));
    }
  }

  lemma CellsAreEven(n: nat, odd: int)
    requires n > 0 && odd % 2 == 1
    ensures odd != Cells(n)
  {
    var half := Cells(n - 1);
    assert Cells(n) == 2 * half;
  }

  lemma WidthHalves(n: nat)
    requires n > 0
    ensures Width(n) == Width(n - 1) / 2.0
  {
  }

  lemma OneCell()
    ensures Edge(1, Width(0)) == 1.0
  {
  }

  lemma MiddleEdge(n: nat)
    requires n >= 2
    ensures Edge(2 * Cells(n - 2), Width(n)) == 0.5
  {
    hide Width;
    LastEdge(n - 1);
    WidthHalves(n);
    HalfAnEdge(Cells(n - 1), Width(n - 1));
  }

  lemma HalfAnEdge(k: int, w: real)
    ensures Edge(k, w / 2.0) == Edge(k, w) / 2.0
  {
  }

  lemma FewHalvings(n: nat, invEps: real)
    requires Width(n) <= invEps < 0.5
    ensures n >= 2
  {
    if n < 2 {
      Narrower(n, 1);
    }
  }

  /** Where the function takes the value at the first probe, the search goes on below it. */
  lemma HitGoesBelow(fn: real -> real, invEps: real, t: real)
    requires Increasing(fn) && 0.0 < invEps < 0.5 && IsInverse(fn, fn(0.5), invEps, t)
    ensures t < 0.5
  {
    hide Width, Edge, Cells, Increasing;
    var n: nat, k: nat :| Inverts(fn, fn(0.5), invEps, n, k, t);
    FewHalvings(n, invEps);
    MiddleEdge(n);
    ProbeIsAnEnd(fn, fn(0.5), invEps, n, k, t);
    BelowMiddle(fn, 2 * Cells(n - 2), Width(n), k);
    hide *;
    EndBelowMiddle(2 * Cells(n - 2), n, k, t);
  }

  lemma EndBelowMiddle(middle: nat, n: nat, k: nat, t: real)
    requires n > 0 && middle % 2 == 0 && LastProbe(n, k, t) && Edge(middle, Width(n)) == 0.5
    requires k < middle && (k + 1 == middle || Edge(k + 1, Width(n)) < 0.5)
    ensures t < 0.5
  {
    EdgesInOrder(k, middle, Width(n));
    hide Width, Edge;
  }

  lemma BelowMiddle(fn: real -> real, middle: nat, w: real, k: nat)
    requires Increasing(fn) && w > 0.0 && Edge(middle, w) == 0.5 && Crosses(fn, fn(0.5), w, k)
    ensures k < middle && (k + 1 == middle || Edge(k + 1, w) < 0.5)
  {
    EdgesInOrder(0, k, w);
    NothingBelow(w);
    EdgesInOrder(k, k + 1, w);
    if k >= middle {
      EdgesInOrder(middle, k, w);
      assert false;
    } else {
      EdgesInOrder(k + 1, middle, w);
    }
    hide Edge;
  }

  lemma PreimageInCell(fn: real -> real, t: real, lo: real, hi: real)
    requires Increasing(fn) && Unit(t) && 0.0 <= lo < hi <= 1.0
    requires (lo == 0.0 || fn(lo) < fn(t)) && (hi == 1.0 || fn(t) <= fn(hi))
    ensures lo <= t <= hi
  {
  }

  /** For an increasing function the answer lies within `invEps` of the true preimage. */
  lemma InverseIsClose(fn: real -> real, y: real, invEps: real, t: real, mid: real)
    requires Increasing(fn) && Unit(t) && fn(t) == y
    requires IsInverse(fn, y, invEps, mid)
    ensures -invEps <= mid - t <= invEps
  {
    var n: nat, k: nat :| Inverts(fn, y, invEps, n, k, mid);
    ProbeIsAnEnd(fn, y, invEps, n, k, mid);
    var lo, hi := Edge(k, Width(n)), Edge(k + 1, Width(n));
    assert (lo == 0.0 || fn(lo) < y) && (hi == 1.0 || y <= fn(hi));
    hide *;
    PreimageInCell(fn, t, lo, hi);
  }

  lemma RiseAcrossCell(fn: real -> real, slope: real, y: real, lo: real, hi: real, invEps: real)
    requires IsShape(fn, slope) && slope >= 0.0 && Unit(y)
    requires 0.0 <= lo < hi <= 1.0 && hi - lo <= invEps
    requires (lo == 0.0 || fn(lo) < y) && (hi == 1.0 || y <= fn(hi))
    ensures fn(lo) <= y <= fn(hi) <= fn(lo) + slope * invEps
  {
    var rise := slope * (hi - lo);
    assert fn(hi) - fn(lo) <= rise;
    Times(slope, hi - lo, invEps, rise);
  }

  /** The cell that an answer stands for. */
  lemma InverseCell(fn: real -> real, y: real, invEps: real, mid: real) returns (lo: real, hi: real)
    requires IsInverse(fn, y, invEps, mid)
    ensures 0.0 <= lo < hi <= 1.0 && hi - lo <= invEps && (mid == lo || mid == hi)
    ensures (lo == 0.0 || fn(lo) < y) && (hi == 1.0 || y <= fn(hi))
  {
    hide Width, Edge;
    var n: nat, k: nat :| Inverts(fn, y, invEps, n, k, mid);
    ProbeIsAnEnd(fn, y, invEps, n, k, mid);
    lo, hi := Edge(k, Width(n)), Edge(k + 1, Width(n));
    EdgeZero(k, Width(n));
  }

  lemma EdgeZero(k: nat, w: real)
    ensures k == 0 ==> Edge(k, w) == 0.0
  {
  }

  /** For a shape, evaluating at the answer gives back `y` up to a multiple of `invEps`. */
  lemma ResidualIsSmall(fn: real -> real, slope: real, y: real, invEps: real, mid: real, bound: real)
    requires IsShape(fn, slope) && slope >= 0.0 && Unit(y)
    requires IsInverse(fn, y, invEps, mid) && bound == slope * invEps
    ensures Unit(mid)
    ensures -bound <= fn(mid) - y <= bound
  {
    hide IsShape, IsInverse;
    var lo, hi := InverseCell(fn, y, invEps, mid);
    RiseAcrossCell(fn, slope, y, lo, hi, invEps);
  }

  /** For smoothstep and any value in [0,1] the residual is at most one and a half times the threshold. */
  lemma SmoothstepResidual(y: real, invEps: real, mid: real)
    requires Unit(y) && IsInverse(EaseSmoothstep, y, invEps, mid)
    ensures -(1.5 * invEps) <= EaseSmoothstep(mid) - y <= 1.5 * invEps
  {
    SmoothstepIsShape();
    hide IsShape, IsInverse, EaseSmoothstep;
    ResidualIsSmall(EaseSmoothstep, 1.5, y, invEps, mid, 1.5 * invEps);
  }

  lemma SmootherstepResidual(y: real, invEps: real, mid: real)
    requires Unit(y) && IsInverse(EaseSmootherstep, y, invEps, mid)
    ensures -(1.875 * invEps) <= EaseSmootherstep(mid) - y <= 1.875 * invEps
  {
    SmootherstepIsShape();
    hide IsShape, IsInverse, EaseSmootherstep;
    ResidualIsSmall(EaseSmootherstep, 1.875, y, invEps, mid, 1.875 * invEps);
  }

  /** The search never answers with an end of [0,1], except that it answers 0 when it makes no step. */
  lemma InverseIsInside(fn: real -> real, y: real, invEps: real, mid: real)
    requires IsInverse(fn, y, invEps, mid)
    ensures 0.0 <= mid < 1.0
    ensures mid == 0.0 <==> invEps >= 1.0
  {
    var n: nat, k: nat :| Inverts(fn, y, invEps, n, k, mid);
    ProbeIsAnEnd(fn, y, invEps, n, k, mid);
    if n > 0 {
      Narrower(0, n - 1);
    }
  }
}
