/** The sliding mean over lidar masks, kept up to date incrementally, and the scans that feed it. */
module SlidingMeans {
  import opened Masks

  /** The probability mask of a boolean one. */
  function Prob(m: Bits): (p: seq<real>)
    ensures |p| == |m|
  {
    seq(|m|, i requires 0 <= i < |m| => if m[i] then 1.0 else 0.0)
  }

  function Probs(ms: seq<Bits>): (ps: seq<seq<real>>)
    ensures |ps| == |ms|
  {
    seq(|ms|, k requires 0 <= k < |ms| => Prob(ms[k]))
  }

  function Value(b: bool): real { if b then 1.0 else 0.0 }

  ghost predicate Sized(ms: seq<Bits>, n: nat) { forall k :: 0 <= k < |ms| ==> |ms[k]| == n }

  function Sum(ms: seq<Bits>, i: nat): real
    requires forall k :: 0 <= k < |ms| ==> i < |ms[k]|
  {
    if ms == [] then 0.0 else Value(ms[0][i]) + Sum(ms[1..], i)
  }

  /** The pointwise mean. */
  ghost function Mean(ms: seq<Bits>, i: nat): real
    requires ms != [] && forall k :: 0 <= k < |ms| ==> i < |ms[k]|
  {
    1.0 / |ms| as real * Sum(ms, i)
  }

  /** The last `w` of the masks, or all of them if there are fewer. */
  function Last<T>(ms: seq<T>, w: nat): seq<T> { if |ms| <= w then ms else ms[|ms| - w..] }

  lemma LastGrows(ms: seq<Bits>, m: Bits, w: nat)
    requires 1 <= w
    ensures Last(ms + [m], w) == if |ms| < w then Last(ms, w) + [m] else Last(ms, w)[1..] + [m]
  {
  }

  lemma {:induction false} SumAppend(ms: seq<Bits>, m: Bits, i: nat)
    requires i < |m| && forall k :: 0 <= k < |ms| ==> i < |ms[k]|
    ensures Sum(ms + [m], i) == Sum(ms, i) + Value(m[i])
  {
    if ms == [] {
      assert ms + [m] == [m] && [m][1..] == [];
    } else {
      SumAppend(ms[1..], m, i);
      assert (ms + [m])[1..] == ms[1..] + [m];
    }
  }

  lemma {:induction false} SumWithin(ms: seq<Bits>, i: nat)
    requires forall k :: 0 <= k < |ms| ==> i < |ms[k]|
    ensures 0.0 <= Sum(ms, i) <= |ms| as real
  {
    if ms != [] { SumWithin(ms[1..], i); }
  }

  /** Every mean lies between 0 and 1. */
  lemma MeanWithin(ms: seq<Bits>, i: nat)
    requires ms != [] && forall k :: 0 <= k < |ms| ==> i < |ms[k]|
    ensures 0.0 <= Mean(ms, i) <= 1.0
  {
    SumWithin(ms, i);
    Divided(Sum(ms, i), |ms| as real);
  }

  lemma Divided(x: real, n: real)
    requires 0.0 < n && 0.0 <= x <= n
    ensures 0.0 <= 1.0 / n * x <= 1.0
  {
    var q := 1.0 / n;
    assert q * n == 1.0 && 0.0 < q;
    assert 0.0 <= q * x && q * (n - x) >= 0.0;
    assert q * (n - x) == q * n - q * x;
  }

  /** Dropping the oldest mask of a full window and taking a new one in moves the mean by their
      difference. */
  lemma MeanSlides(ms: seq<Bits>, m: Bits, i: nat)
    requires ms != [] && i < |m| && forall k :: 0 <= k < |ms| ==> i < |ms[k]|
    ensures Mean(ms[1..] + [m], i) == Mean(ms, i) + 1.0 / |ms| as real * (Value(m[i]) - Value(ms[0][i]))
  {
    var q := 1.0 / |ms| as real;
    SumAppend(ms[1..], m, i);
    assert |ms[1..] + [m]| == |ms|;
    Distribute(q, Sum(ms, i), Value(m[i]) - Value(ms[0][i]));
  }

  lemma Distribute(q: real, x: real, y: real)
    ensures q * (x + y) == q * x + q * y
  {
  }

  /** The generator of sliding means over masks of `n` bearings. */
  class SlidingMean {
    const size: nat
    const n: nat
    var window: seq<seq<real>>
    var prob: array<real>
    ghost var masks: seq<Bits>

    ghost predicate Valid()
      reads this, prob
    {
      && 1 <= size && Sized(masks, n) && window == Probs(Last(masks, size))
      && (masks != [] ==> prob.Length == n && forall i :: 0 <= i < n ==> prob[i] == Mean(Last(masks, size), i))
    }

    constructor (windowSize: nat, points: nat)
      requires 1 <= windowSize
      ensures Valid() && size == windowSize && n == points && masks == [] && fresh(prob)
    {
      size, n, window, masks := windowSize, points, [], [];
      prob := new real[0];
    }

    /** Takes the next mask in and yields the mean over the last `size` masks.  Once the window is
        full, this is the object yielded before, updated in place. */
    method Next(mask: Bits) returns (yielded: array<real>)
      requires Valid() && |mask| == n
      modifies this, prob
      ensures Valid() && masks == old(masks) + [mask] && yielded == prob && yielded.Length == n
      ensures forall i :: 0 <= i < n ==> yielded[i] == Mean(Last(masks, size), i)
      ensures if size <= |old(masks)| then yielded == old(prob) else fresh(yielded)
    {
      ghost var before := Last(masks, size);
      LastGrows(masks, mask, size);
      var newMask := Prob(mask);
      window := window + [newMask];
      assert window == Probs(before + [mask]);
      if size < |window| {
        var dropped := window[0];
        window := window[1..];
        assert window == Probs(before[1..] + [mask]);
        AddScaled(prob, 1.0 / size as real, newMask, dropped);
        forall i | 0 <= i < n ensures prob[i] == Mean(before[1..] + [mask], i) { MeanSlides(before, mask, i); }
      } else {
        var sum := SumOf(window, before + [mask], n);
        prob := Scaled(sum, 1.0 / |window| as real);
      }
      masks := masks + [mask];
      yielded := prob;
    }
  }

  /** Adds the scaled difference of two masks in place. */
  method AddScaled(prob: array<real>, q: real, plus: seq<real>, minus: seq<real>)
    requires prob.Length == |plus| == |minus|
    modifies prob
    ensures forall i :: 0 <= i < prob.Length ==> prob[i] == old(prob[i]) + q * (plus[i] - minus[i])
  {
    for i := 0 to prob.Length
      invariant forall j :: 0 <= j < i ==> prob[j] == old(prob[j]) + q * (plus[j] - minus[j])
      invariant forall j :: i <= j < prob.Length ==> prob[j] == old(prob[j])
    {
      prob[i] := prob[i] + q * (plus[i] - minus[i]);
    }
  }

  method Scaled(mask: array<real>, q: real) returns (r: array<real>)
    ensures fresh(r) && r.Length == mask.Length && forall i :: 0 <= i < r.Length ==> r[i] == q * mask[i]
  {
    r := new real[mask.Length];
    for i := 0 to mask.Length
      invariant forall j :: 0 <= j < i ==> r[j] == q * mask[j]
    {
      r[i] := q * mask[i];
    }
  }

  method SumOf(probs: seq<seq<real>>, ghost ms: seq<Bits>, n: nat) returns (sum: array<real>)
    requires probs == Probs(ms) && Sized(ms, n)
    ensures fresh(sum) && sum.Length == n && forall i :: 0 <= i < n ==> sum[i] == Sum(ms, i)
  {
    sum := new real[n](_ => 0.0);
    for k := 0 to |probs|
      invariant forall i :: 0 <= i < n ==> sum[i] == Sum(ms[..k], i)
    {
      for i := 0 to n
        invariant forall j :: 0 <= j < i ==> sum[j] == Sum(ms[..k + 1], j)
        invariant forall j :: i <= j < n ==> sum[j] == Sum(ms[..k], j)
      {
        assert ms[..k + 1] == ms[..k] + [ms[k]];
        SumAppend(ms[..k], ms[k], i);
        sum[i] := sum[i] + probs[k][i];
      }
    }
    assert ms[..|probs|] == ms;
  }

  // ---------------------------------------------------------------------------------------------
  // The scans
  // ---------------------------------------------------------------------------------------------

  datatype Range = Metres(r: real) | PlusInfinity | MinusInfinity | NotANumber

  type Scan = seq<Range>

  /** A bearing is seen if its range is not infinite. */
  function MaskFromScan(scan: Scan): (m: Bits)
    ensures |m| == |scan|
  {
    seq(|scan|, i requires 0 <= i < |scan| => !scan[i].PlusInfinity? && !scan[i].MinusInfinity?)
  }

  /** The list of scans, which grows while a generator iterates over it.  `next` is the position of the
      iterator; running it past the end would empty the list and wait for ever. */
  class ScanList {
    var scans: seq<Scan>
    var next: nat

    ghost predicate Valid()
      reads this
    {
      next <= |scans|
    }

    constructor ()
      ensures Valid() && scans == [] && next == 0
    {
      scans, next := [], 0;
    }

    method Append(scan: Scan)
      requires Valid()
      modifies this`scans
      ensures Valid() && scans == old(scans) + [scan]
    {
      scans := scans + [scan];
    }

    method Resume() returns (scan: Scan)
      requires Valid() && next < |scans|
      modifies this`next
      ensures Valid() && next == old(next) + 1 && scan == scans[old(next)]
    {
      scan := scans[next];
      next := next + 1;
    }
  }

  // ---------------------------------------------------------------------------------------------
  // The analysis of one scan
  // ---------------------------------------------------------------------------------------------

  const THRESHOLD := 0.3

  /** How far the mean is turned, and below which angle an occlusion is ignored, in units of pi radians. */
  const TURN := -0.5
  const SENSITIVITY := 1.0 / 48.0

  /** The base angle of a mask made from a scan of `n` ranges. */
  function BaseOf(n: nat): real
    requires 0 < n
  {
    2.0 / n as real
  }

  lemma BaseShaped(n: nat)
    requires 0 < n
    ensures 0.0 < BaseOf(n) && Round(2.0 / BaseOf(n)) == n
    ensures TURN / BaseOf(n) == -(n as real) / 4.0 && SENSITIVITY / BaseOf(n) == n as real / 96.0
  {
    var (x, b) := (n as real, BaseOf(n));
    assert b * x == 2.0;
    assert 2.0 / b == x && TURN / b == -x / 4.0 && SENSITIVITY / b == x / 96.0;
  }

  /** The bearings that are seen often enough. */
  ghost function SeenOften(ms: seq<Bits>, n: nat): (s: Bits)
    requires ms != [] && Sized(ms, n)
    ensures |s| == n
  {
    seq(n, i requires 0 <= i < n => Mean(ms, i) >= THRESHOLD)
  }

  /** The mask that the analysis publishes for the last masks `ms`. */
  ghost function Analysed(ms: seq<Bits>, n: nat): Mask
    requires ms != [] && Sized(ms, n) && 0 < n
  {
    BaseShaped(n);
    Clean(Mask(Rotate(SeenOften(ms, n), Round(TURN / BaseOf(n))), BaseOf(n)), SENSITIVITY)
  }

  /** In points: a quarter of the circle backwards, and what is narrower than a 96th of it is cleaned up. */
  lemma AnalysedInPoints(ms: seq<Bits>, n: nat)
    requires ms != [] && Sized(ms, n) && 0 < n
    ensures Analysed(ms, n) ==
            Mask(CleanUp(Rotate(SeenOften(ms, n), Round(-(n as real) / 4.0)), Round(n as real / 96.0)), BaseOf(n))
  {
    BaseShaped(n);
    CleanIsCleanUp(Mask(Rotate(SeenOften(ms, n), Round(TURN / BaseOf(n))), BaseOf(n)), SENSITIVITY);
  }

  ghost function MasksOf(scans: seq<Scan>): (ms: seq<Bits>)
    ensures |ms| == |scans|
  {
    seq(|scans|, k requires 0 <= k < |scans| => MaskFromScan(scans[k]))
  }

  class ScanAnalysis {
    const list: ScanList
    const means: SlidingMean

    ghost predicate Valid()
      reads this, list, means, means.prob
    {
      && list.Valid() && means.Valid() && 0 < means.n
      && list.next == |list.scans| && means.masks == MasksOf(list.scans)
    }

    constructor (windowSize: nat, points: nat)
      requires 1 <= windowSize && 1 <= points
      ensures Valid() && list.scans == [] && means.n == points && means.size == windowSize
      ensures fresh(list) && fresh(means) && fresh(means.prob)
    {
      var l := new ScanList();
      var s := new SlidingMean(windowSize, points);
      list, means := l, s;
    }

    /** The `k`-th call consumes the `k`-th scan, and its mask is that of the last scans of the window.
        The mean is turned first and compared to the threshold afterwards. */
    method Analyse(scan: Scan) returns (mask: Mask)
      requires Valid() && |scan| == means.n
      modifies list, means, means.prob
      ensures Valid() && list.scans == old(list.scans) + [scan]
      ensures mask == Analysed(Last(MasksOf(list.scans), means.size), means.n)
    {
      ghost var ms := MasksOf(list.scans);
      list.Append(scan);
      assert MasksOf(list.scans) == ms + [MaskFromScan(scan)];
      var s := list.Resume();
      var prob := means.Next(MaskFromScan(s));
      BaseShaped(means.n);
      var k := Round(TURN / BaseOf(means.n));
      var turned := Turned(prob, k);
      var above := Above(turned);
      ThresholdTurned(prob[..], turned[..], k);
      assert Reaching(prob[..]) == SeenOften(Last(means.masks, means.size), means.n);
      mask := Clean(Mask(above, BaseOf(means.n)), SENSITIVITY);
    }
  }

  /** The values turned by `k` points, in a new mask. */
  method Turned(prob: array<real>, k: int) returns (turned: array<real>)
    ensures fresh(turned) && turned.Length == prob.Length
    ensures forall i :: 0 <= i < prob.Length ==> turned[i] == prob[(i - k) % prob.Length]
  {
    turned := new real[prob.Length];
    for i := 0 to prob.Length
      invariant forall j :: 0 <= j < i ==> turned[j] == prob[(j - k) % prob.Length]
    {
      turned[i] := prob[(i - k) % prob.Length];
    }
  }

  function Reaching(prob: seq<real>): (s: Bits)
    ensures |s| == |prob|
  {
    seq(|prob|, i requires 0 <= i < |prob| => prob[i] >= THRESHOLD)
  }

  /** Turning before thresholding or after it makes no difference. */
  lemma ThresholdTurned(prob: seq<real>, turned: seq<real>, k: int)
    requires |turned| == |prob| && forall i :: 0 <= i < |prob| ==> turned[i] == prob[(i - k) % |prob|]
    ensures Reaching(turned) == Rotate(Reaching(prob), k)
  {
    forall i | 0 <= i < |prob| ensures Reaching(turned)[i] == Rotate(Reaching(prob), k)[i] {
      assert 0 <= (i - k) % |prob| < |prob|;
    }
  }

  method Above(prob: array<real>) returns (s: Bits)
    ensures s == Reaching(prob[..])
  {
    s := [];
    for i := 0 to prob.Length
      invariant |s| == i && forall j :: 0 <= j < i ==> s[j] == (prob[j] >= THRESHOLD)
    {
      s := s + [prob[i] >= THRESHOLD];
    }
  }
}
