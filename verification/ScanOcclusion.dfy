/** From the ranges of the last scans to the bearings that the analysis publishes as occluded. */
module ScanOcclusions {
  import opened Masks
  import opened SlidingMeans

  predicate Infinite(r: Range) { r == PlusInfinity || r == MinusInfinity }

  /** In how many of the scans the range at a bearing is not infinite. */
  function Finite(scans: seq<Scan>, i: nat): nat
    requires forall k :: 0 <= k < |scans| ==> i < |scans[k]|
  {
    if scans == [] then 0 else (if Infinite(scans[0][i]) then 0 else 1) + Finite(scans[1..], i)
  }

  ghost predicate Wide(scans: seq<Scan>, n: nat) { forall k :: 0 <= k < |scans| ==> |scans[k]| == n }

  /** The range at a bearing, counted round the circle, is finite in fewer than three of ten scans. */
  ghost predicate Missed(scans: seq<Scan>, n: nat, j: int)
    requires 0 < n && Wide(scans, n)
  {
    10 * Finite(scans, j % n) < 3 * |scans|
  }

  /** A quarter of the circle, and half of the narrowest occlusion that counts, in bearings. */
  function Quarter(n: nat): int { -Round(-(n as real) / 4.0) }
  function Margin(n: nat): int { Round(n as real / 96.0) }

  /** From `margin` bearings before `c` to as many behind, all are missed. */
  ghost predicate MissedAround(scans: seq<Scan>, n: nat, c: int, margin: int)
    requires 0 < n && Wide(scans, n)
  {
    forall j :: Within(margin, c, j) ==> Missed(scans, n, j)
  }

  lemma {:induction false} SumIsFinite(scans: seq<Scan>, i: nat)
    requires forall k :: 0 <= k < |scans| ==> i < |scans[k]|
    ensures Sum(MasksOf(scans), i) == Finite(scans, i) as real
  {
    if scans != [] {
      assert MasksOf(scans)[1..] == MasksOf(scans[1..]);
      SumIsFinite(scans[1..], i);
    }
  }

  lemma Enough(f: nat, m: nat)
    requires 0 < m
    ensures 1.0 / m as real * f as real >= 0.3 <==> 10 * f >= 3 * m
  {
    var (q, x) := (1.0 / m as real, m as real);
    assert q * x == 1.0;
    assert q * f as real * x == f as real by { assert q * f as real * x == q * x * f as real; }
    if q * f as real >= 0.3 { assert (q * f as real - 0.3) * x >= 0.0; } else { assert (0.3 - q * f as real) * x > 0.0; }
    assert (q * f as real - 0.3) * x == f as real - 0.3 * x;
  }

  lemma MeanIsShare(scans: seq<Scan>, i: nat)
    requires scans != [] && forall k :: 0 <= k < |scans| ==> i < |scans[k]|
    ensures Mean(MasksOf(scans), i) == 1.0 / |scans| as real * Finite(scans, i) as real
  {
    SumIsFinite(scans, i);
  }

  lemma OftenIsNotMissed(scans: seq<Scan>, n: nat, j: int)
    requires scans != [] && 0 < n && Wide(scans, n)
    ensures At(SeenOften(MasksOf(scans), n), j) <==> !Missed(scans, n, j)
  {
    MeanIsShare(scans, j % n);
    Enough(Finite(scans, j % n), |scans|);
  }

  lemma WindowOfMasks(scans: seq<Scan>, w: nat)
    ensures Last(MasksOf(scans), w) == MasksOf(Last(scans, w))
  {
  }

  /** The mask before it is cleaned up. */
  lemma TurnedSees(scans: seq<Scan>, n: nat, j: int)
    requires scans != [] && 0 < n && Wide(scans, n)
    ensures At(Rotate(SeenOften(MasksOf(scans), n), -Quarter(n)), j) <==> !Missed(scans, n, j + Quarter(n))
  {
    AtRotate(SeenOften(MasksOf(scans), n), -Quarter(n), j);
    OftenIsNotMissed(scans, n, j + Quarter(n));
  }

  lemma AroundTurned(scans: seq<Scan>, n: nat, turned: Bits, c: int, m: int)
    requires scans != [] && 0 < n && Wide(scans, n)
    requires forall j :: At(turned, j) <==> !Missed(scans, n, j + Quarter(n))
    ensures OccludedAround(turned, c, m) <==> MissedAround(scans, n, c + Quarter(n), m)
  {
    var q := Quarter(n);
    if OccludedAround(turned, c, m) {
      forall j | Within(m, c + q, j) ensures Missed(scans, n, j) { assert Within(m, c, j - q) && !At(turned, j - q); }
    }
    if MissedAround(scans, n, c + q, m) {
      forall j | Within(m, c, j) ensures !At(turned, j) { assert Within(m, c + q, j + q); }
    }
  }

  /** Once the scans are consumed, a bearing is published as occluded if and only if, in the last scans
      of the window, all bearings of some stretch of twice the margin and one are missed, and the stretch
      contains the bearing a quarter of the circle further on. */
  lemma PublishedOccluded(scans: seq<Scan>, w: nat, n: nat, i: int)
    requires scans != [] && 0 < w && 0 < n && Wide(scans, n)
    ensures !At(Analysed(Last(MasksOf(scans), w), n).values, i) <==>
            exists c :: Within(Margin(n), c, i + Quarter(n)) && MissedAround(Last(scans, w), n, c, Margin(n))
  {
    WindowOfMasks(scans, w);
    LastOccluded(Last(scans, w), n, i);
  }

  lemma LastOccluded(last: seq<Scan>, n: nat, i: int)
    requires last != [] && 0 < n && Wide(last, n)
    ensures !At(Analysed(MasksOf(last), n).values, i) <==>
            exists c :: Within(Margin(n), c, i + Quarter(n)) && MissedAround(last, n, c, Margin(n))
  {
    AnalysedValues(last, n);
    CleanedOccluded(last, n, Rotate(SeenOften(MasksOf(last), n), -Quarter(n)), i);
  }

  lemma AnalysedValues(last: seq<Scan>, n: nat)
    requires last != [] && 0 < n && Wide(last, n)
    ensures Analysed(MasksOf(last), n).values == CleanUp(Rotate(SeenOften(MasksOf(last), n), -Quarter(n)), Margin(n))
  {
    AnalysedInPoints(MasksOf(last), n);
  }

  lemma CleanedOccluded(last: seq<Scan>, n: nat, turned: Bits, i: int)
    requires last != [] && 0 < n && Wide(last, n) && turned == Rotate(SeenOften(MasksOf(last), n), -Quarter(n))
    ensures !At(CleanUp(turned, Margin(n)), i) <==>
            exists c :: Within(Margin(n), c, i + Quarter(n)) && MissedAround(last, n, c, Margin(n))
  {
    MarginNotNegative(n);
    CleanUpKeepsLongRuns(turned, Margin(n), i);
    forall j ensures At(turned, j) <==> !Missed(last, n, j + Quarter(n)) { TurnedSees(last, n, j); }
    SameStretches(last, n, turned, Margin(n), i);
  }

  lemma SameStretches(last: seq<Scan>, n: nat, turned: Bits, m: int, i: int)
    requires last != [] && 0 < n && Wide(last, n)
    requires forall j :: At(turned, j) <==> !Missed(last, n, j + Quarter(n))
    ensures (exists c :: Within(m, c, i) && OccludedAround(turned, c, m)) <==>
            (exists c :: Within(m, c, i + Quarter(n)) && MissedAround(last, n, c, m))
  {
    var q := Quarter(n);
    if c :| Within(m, c, i) && OccludedAround(turned, c, m) {
      AroundTurned(last, n, turned, c, m);
      assert Within(m, c + q, i + q);
    }
    if c :| Within(m, c, i + q) && MissedAround(last, n, c, m) {
      AroundTurned(last, n, turned, c - q, m);
      assert Within(m, c - q, i);
    }
  }

  lemma MarginNotNegative(n: nat)
    ensures 0 <= Margin(n)
  {
    RoundNear(n as real / 96.0);
  }

  /** The bearings from `a` on, `l` of them, round the circle. */
  predicate InStretch(n: nat, a: int, l: nat, j: int)
    requires 0 < n
  {
    (j - a) % n < l
  }

  /** If the ranges of all scans of the window are infinite at the bearings of a long enough stretch and
      finite at all others, the bearings of the stretch are published as occluded, and no others. */
  lemma StretchOccluded(scans: seq<Scan>, w: nat, n: nat, a: int, l: nat, i: int)
    requires scans != [] && 0 < w && 0 < n && Wide(scans, n) && 2 * Margin(n) + 1 <= l
    requires forall k, j :: 0 <= k < |Last(scans, w)| && 0 <= j < n ==> (Infinite(Last(scans, w)[k][j]) <==> InStretch(n, a, l, j))
    ensures !At(Analysed(Last(MasksOf(scans), w), n).values, i) <==> InStretch(n, a, l, i + Quarter(n))
  {
    var last := Last(scans, w);
    PublishedOccluded(scans, w, n, i);
    forall j ensures Missed(last, n, j) <==> InStretch(n, a, l, j) { MissedInStretch(last, n, a, l, j); }
    StretchExists(last, n, a, l, i + Quarter(n), Margin(n));
  }

  lemma StretchExists(last: seq<Scan>, n: nat, a: int, l: nat, p: int, m: int)
    requires last != [] && 0 < n && Wide(last, n) && 2 * m + 1 <= l && m == Margin(n)
    requires forall j :: Missed(last, n, j) <==> InStretch(n, a, l, j)
    ensures InStretch(n, a, l, p) <==> exists c :: Within(m, c, p) && MissedAround(last, n, c, m)
  {
    MarginNotNegative(n);
    if InStretch(n, a, l, p) { StretchMissed(last, n, a, l, p, m); }
    if c :| Within(m, c, p) && MissedAround(last, n, c, m) { assert Missed(last, n, p); }
  }

  lemma StretchMissed(last: seq<Scan>, n: nat, a: int, l: nat, p: int, m: int)
    requires last != [] && 0 < n && Wide(last, n) && 0 <= m && 2 * m + 1 <= l && InStretch(n, a, l, p)
    requires forall j :: Missed(last, n, j) <==> InStretch(n, a, l, j)
    ensures exists c :: Within(m, c, p) && MissedAround(last, n, c, m)
  {
    var d := (p - a) % n;
    var c := if d < m then p - d + m else if d + m < l then p else p - d + l - 1 - m;
    forall j | Within(m, c, j) ensures Missed(last, n, j) { StretchHas(n, a, l, p, d, j); }
    assert Within(m, c, p);
  }

  lemma StretchHas(n: nat, a: int, l: nat, p: int, d: nat, j: int)
    requires 0 < n && d == (p - a) % n && p - d <= j < p - d + l
    ensures InStretch(n, a, l, j)
  {
    Remainder(p - a, n, j - (p - d));
  }

  lemma Remainder(x: int, n: nat, k: nat)
    requires 0 < n
    ensures (x - x % n + k) % n <= k
  {
    assert x - x % n == (x / n) * n;
    ModMultiple(k, x / n, n);
    if k < n { ModIs(k, n, 0, k); }
  }

  lemma MissedInStretch(scans: seq<Scan>, n: nat, a: int, l: nat, j: int)
    requires scans != [] && 0 < n && Wide(scans, n)
    requires forall k, j :: 0 <= k < |scans| && 0 <= j < n ==> (Infinite(scans[k][j]) <==> InStretch(n, a, l, j))
    ensures Missed(scans, n, j) <==> InStretch(n, a, l, j)
  {
    var r := j % n;
    SameBearing(n, a, j);
    FiniteEverywhere(scans, r, InStretch(n, a, l, r));
  }

  lemma SameBearing(n: nat, a: int, j: int)
    requires 0 < n
    ensures (j % n - a) % n == (j - a) % n
  {
    assert j - a == (j % n - a) + (j / n) * n;
    ModMultiple(j % n - a, j / n, n);
  }

  lemma {:induction false} FiniteEverywhere(scans: seq<Scan>, i: nat, none: bool)
    requires forall k :: 0 <= k < |scans| ==> i < |scans[k]| && (Infinite(scans[k][i]) <==> none)
    ensures Finite(scans, i) == if none then 0 else |scans|
  {
    if scans != [] { FiniteEverywhere(scans[1..], i, none); }
  }
}
