/** Lidar occlusion masks: one boolean for each bearing around the robot, `true` for seen and `false`
    for occluded, and the operations on them that turn and widen them around the circle. */
module Masks {

  type Bits = seq<bool>

  /** The value at a bearing, counted around the circle in either direction. */
  function At(s: Bits, i: int): bool { if s == [] then false else s[i % |s|] }

  // ---------------------------------------------------------------------------------------------
  // Rounding
  // ---------------------------------------------------------------------------------------------

  /** Rounding to the nearest integer, halves to the even one. */
  function Round(x: real): int {
    var f := x.Floor;
    var d := x - f as real;
    if d < 0.5 || (d == 0.5 && f % 2 == 0) then f else f + 1
  }

  lemma RoundNear(x: real)
    ensures -0.5 <= Round(x) as real - x <= 0.5
    ensures Round(x) as real - x == 0.5 || x - Round(x) as real == 0.5 ==> Round(x) % 2 == 0
  {
  }

  /** Turning by an angle one way and by the same angle the other way is the same number of points. */
  lemma RoundNegates(x: real)
    ensures Round(-x) == -Round(x)
  {
    var (f, g) := (x.Floor, (-x).Floor);
    assert f as real <= x < f as real + 1.0 && g as real <= -x < g as real + 1.0;
    assert (f + g) as real <= 0.0 && -2.0 < (f + g) as real;
    if x == f as real {
      assert g == -f by { assert (-f) as real == -x; }
    } else {
      assert g == -f - 1;
    }
  }

  // ---------------------------------------------------------------------------------------------
  // Operations on the values
  // ---------------------------------------------------------------------------------------------

  /** Turns the values by `k` points. */
  function Rotate(s: Bits, k: int): (r: Bits)
    ensures |r| == |s|
  {
    seq(|s|, i requires 0 <= i < |s| => At(s, i - k))
  }

  function And(a: Bits, b: Bits): (r: Bits)
    requires |a| == |b|
    ensures |r| == |a|
  {
    seq(|a|, i requires 0 <= i < |a| => a[i] && b[i])
  }

  function Or(a: Bits, b: Bits): (r: Bits)
    requires |a| == |b|
    ensures |r| == |a|
  {
    seq(|a|, i requires 0 <= i < |a| => a[i] || b[i])
  }

  function Not(s: Bits): (r: Bits)
    ensures |r| == |s|
  {
    seq(|s|, i requires 0 <= i < |s| => !s[i])
  }

  function Turn(n: int, forward: bool): int { if forward then n else -n }

  /** Combines `s` with its first `n` rotations in one direction, from the left. */
  function ReduceOr(s: Bits, n: nat, forward: bool): (r: Bits)
    ensures |r| == |s|
  {
    if n == 0 then s else Or(ReduceOr(s, n - 1, forward), Rotate(s, Turn(n, forward)))
  }

  function ReduceAnd(s: Bits, n: nat, forward: bool): (r: Bits)
    ensures |r| == |s|
  {
    if n == 0 then s else And(ReduceAnd(s, n - 1, forward), Rotate(s, Turn(n, forward)))
  }

  function Weaken(s: Bits, n: int): (r: Bits)
    ensures |r| == |s|
  {
    if 0 < n then ReduceOr(s, n, true) else ReduceOr(s, -n, false)
  }

  function Strengthen(s: Bits, n: int): (r: Bits)
    ensures |r| == |s|
  {
    if 0 < n then ReduceAnd(s, n, true) else ReduceAnd(s, -n, false)
  }

  // ---------------------------------------------------------------------------------------------
  // Around the circle
  // ---------------------------------------------------------------------------------------------

  lemma {:induction false} ModMultiple(a: int, k: int, n: nat)
    requires 0 < n
    ensures (a + k * n) % n == a % n
    decreases if 0 <= k then k else -k
  {
    if 0 < k {
      ModMultiple(a, k - 1, n);
      assert a + k * n == (a + (k - 1) * n) + n;
      ModNext(a + (k - 1) * n, n);
    } else if k < 0 {
      ModMultiple(a, k + 1, n);
      assert a + k * n == (a + (k + 1) * n) - n;
      ModNext(a + k * n, n);
    }
  }

  lemma ModNext(a: int, n: nat)
    requires 0 < n
    ensures (a + n) % n == a % n
  {
    var (q, r) := (a / n, a % n);
    assert n * (q + 1) == n * q + n;
    ModIs(a + n, n, q + 1, r);
  }

  lemma ModIs(a: int, n: nat, q: int, r: int)
    requires 0 < n && a == n * q + r && 0 <= r < n
    ensures a % n == r
  {
    DivisionUnique(n, q, r, a / n, a % n);
  }

  lemma DivisionUnique(n: nat, q: int, r: int, q': int, r': int)
    requires 0 < n && n * q + r == n * q' + r' && 0 <= r < n && 0 <= r' < n
    ensures q == q' && r == r'
  {
    assert n * (q - q') == n * q - n * q' && n * (q' - q) == n * q' - n * q;
    if q < q' { AtLeastOnce(n, q' - q); }
    if q' < q { AtLeastOnce(n, q - q'); }
  }

  lemma AtLeastOnce(n: nat, x: int)
    requires 1 <= x
    ensures n <= n * x
  {
    assert n * x == n + n * (x - 1) && 0 <= n * (x - 1);
  }

  /** A bearing may be reduced before it is moved. */
  lemma AtShift(s: Bits, i: int, d: int)
    requires s != []
    ensures At(s, i % |s| + d) == At(s, i + d)
  {
    var n := |s|;
    assert i == n * (i / n) + i % n;
    assert i + d == (i % n + d) + (i / n) * n;
    ModMultiple(i % n + d, i / n, n);
  }

  lemma AtRotate(s: Bits, k: int, i: int)
    ensures At(Rotate(s, k), i) == At(s, i - k)
  {
    if s != [] { AtShift(s, i, -k); }
  }

  lemma AtNot(s: Bits, i: int)
    ensures s != [] ==> At(Not(s), i) == !At(s, i)
  {
  }

  lemma SameMasks(a: Bits, b: Bits)
    requires |a| == |b| && forall i :: At(a, i) == At(b, i)
    ensures a == b
  {
    forall i | 0 <= i < |a| ensures a[i] == b[i] { assert At(a, i) == At(b, i); }
  }

  /** The bearings that `n` widens from: `i` and up to `n` before it, or up to `-n` behind it. */
  predicate Near(n: int, i: int, j: int) { if 0 < n then i - n <= j <= i else i <= j <= i - n }

  lemma NearMore(n: nat, forward: bool, i: int, j: int)
    requires 0 < n
    ensures Near(Turn(n, forward), i, j) <==> Near(Turn(n - 1, forward), i, j) || j == i - Turn(n, forward)
  {
  }

  lemma {:induction false} ReduceOrAt(s: Bits, n: nat, forward: bool, i: int)
    ensures At(ReduceOr(s, n, forward), i) <==> exists j :: Near(Turn(n, forward), i, j) && At(s, j)
  {
    if n == 0 {
      assert Near(0, i, i);
    } else {
      var last := i - Turn(n, forward);
      ReduceOrAt(s, n - 1, forward, i);
      AtRotate(s, Turn(n, forward), i);
      forall j ensures Near(Turn(n, forward), i, j) <==> Near(Turn(n - 1, forward), i, j) || j == last { NearMore(n, forward, i, j); }
      assert Near(Turn(n, forward), i, last);
    }
  }

  lemma {:induction false} ReduceAndAt(s: Bits, n: nat, forward: bool, i: int)
    requires s != []
    ensures At(ReduceAnd(s, n, forward), i) <==> forall j :: Near(Turn(n, forward), i, j) ==> At(s, j)
  {
    if n == 0 {
      assert Near(0, i, i);
    } else {
      var last := i - Turn(n, forward);
      ReduceAndAt(s, n - 1, forward, i);
      AtRotate(s, Turn(n, forward), i);
      forall j ensures Near(Turn(n, forward), i, j) <==> Near(Turn(n - 1, forward), i, j) || j == last { NearMore(n, forward, i, j); }
      assert Near(Turn(n, forward), i, last);
    }
  }

  /** After weakening by `n`, a bearing is seen if and only if one that `n` widens from was. */
  lemma WeakenAt(s: Bits, n: int, i: int)
    ensures At(Weaken(s, n), i) <==> exists j :: Near(n, i, j) && At(s, j)
  {
    if 0 < n { ReduceOrAt(s, n, true, i); } else { ReduceOrAt(s, -n, false, i); }
  }

  /** After strengthening by `n`, a bearing is seen if and only if all that `n` widens from were. */
  lemma StrengthenAt(s: Bits, n: int, i: int)
    requires s != []
    ensures At(Strengthen(s, n), i) <==> forall j :: Near(n, i, j) ==> At(s, j)
  {
    if 0 < n { ReduceAndAt(s, n, true, i); } else { ReduceAndAt(s, -n, false, i); }
  }

  // ---------------------------------------------------------------------------------------------
  // The algebra of weakening and strengthening
  // ---------------------------------------------------------------------------------------------

  /** Everything seen in `a` is seen in `b`. */
  ghost predicate Leq(a: Bits, b: Bits) { |a| == |b| && forall i :: At(a, i) ==> At(b, i) }

  lemma NearReverses(n: int, i: int, j: int)
    ensures Near(n, i, j) <==> Near(-n, j, i)
  {
  }

  /** Weakening and strengthening the other way round form a Galois connection. */
  lemma Galois(a: Bits, b: Bits, n: int)
    requires |a| == |b|
    ensures Leq(Weaken(a, n), b) <==> Leq(a, Strengthen(b, -n))
  {
    if a != [] {
      if Leq(Weaken(a, n), b) { GaloisOneWay(a, b, n); }
      if Leq(a, Strengthen(b, -n)) { GaloisOtherWay(a, b, n); }
    }
  }

  lemma WeakenReaches(a: Bits, n: int, i: int, j: int)
    requires At(a, i) && Near(-n, i, j)
    ensures At(Weaken(a, n), j)
  {
    NearReverses(n, j, i);
    WeakenAt(a, n, j);
  }

  lemma GaloisAt(a: Bits, b: Bits, n: int, i: int)
    requires b != [] && Leq(Weaken(a, n), b) && At(a, i)
    ensures At(Strengthen(b, -n), i)
  {
    var w := Weaken(a, n);
    forall j | Near(-n, i, j) ensures At(b, j) {
      WeakenReaches(a, n, i, j);
      assert At(w, j);
    }
    StrengthenAt(b, -n, i);
  }

  lemma GaloisOneWay(a: Bits, b: Bits, n: int)
    requires |a| == |b| && a != [] && Leq(Weaken(a, n), b)
    ensures Leq(a, Strengthen(b, -n))
  {
    forall i | At(a, i) ensures At(Strengthen(b, -n), i) { GaloisAt(a, b, n, i); }
  }

  lemma GaloisOtherWay(a: Bits, b: Bits, n: int)
    requires |a| == |b| && a != [] && Leq(a, Strengthen(b, -n))
    ensures Leq(Weaken(a, n), b)
  {
    forall i | At(Weaken(a, n), i) ensures At(b, i) {
      WeakenAt(a, n, i);
      var j :| Near(n, i, j) && At(a, j);
      StrengthenAt(b, -n, j);
      NearReverses(n, i, j);
    }
  }

  /** Weakening what is seen is strengthening what is occluded. */
  lemma DeMorgan(s: Bits, n: int)
    ensures Not(Weaken(s, n)) == Strengthen(Not(s), n)
  {
    if s != [] {
      forall i ensures At(Not(Weaken(s, n)), i) == At(Strengthen(Not(s), n), i) {
        AtNot(Weaken(s, n), i);
        WeakenAt(s, n, i);
        StrengthenAt(Not(s), n, i);
        forall j ensures At(Not(s), j) == !At(s, j) { AtNot(s, j); }
      }
      SameMasks(Not(Weaken(s, n)), Strengthen(Not(s), n));
    }
  }

  lemma NotNot(s: Bits)
    ensures Not(Not(s)) == s
  {
  }

  ghost predicate SameSign(m: int, n: int) { (0 <= m && 0 <= n) || (m <= 0 && n <= 0) }

  /** A bearing that `m` leads to from `j` and `n` leads on from to `i`, if `m + n` leads from `j` to `i`. */
  function Between(m: int, n: int, i: int, j: int): int {
    if 0 < n then (if i - n < j then j else i - n) else if 0 < m then i else (if j < i - n then j else i - n)
  }

  lemma NearSplits(m: int, n: int, i: int, j: int)
    requires SameSign(m, n) && Near(m + n, i, j)
    ensures Near(n, i, Between(m, n, i, j)) && Near(m, Between(m, n, i, j), j)
  {
  }

  lemma NearJoins(m: int, n: int, i: int, k: int, j: int)
    requires SameSign(m, n) && Near(n, i, k) && Near(m, k, j)
    ensures Near(m + n, i, j)
  {
  }

  /** Weakening twice in the same direction adds up. */
  lemma WeakenAdds(s: Bits, m: int, n: int)
    requires SameSign(m, n)
    ensures Weaken(Weaken(s, m), n) == Weaken(s, m + n)
  {
    forall i ensures At(Weaken(Weaken(s, m), n), i) == At(Weaken(s, m + n), i) {
      WeakenTwice(s, m, n, i);
      WeakenAt(s, m + n, i);
      if k, j :| Near(n, i, k) && Near(m, k, j) && At(s, j) { NearJoins(m, n, i, k, j); }
      if j :| Near(m + n, i, j) && At(s, j) { NearSplits(m, n, i, j); }
    }
    SameMasks(Weaken(Weaken(s, m), n), Weaken(s, m + n));
  }

  lemma WeakenTwice(s: Bits, m: int, n: int, i: int)
    ensures At(Weaken(Weaken(s, m), n), i) <==> exists k, j :: Near(n, i, k) && Near(m, k, j) && At(s, j)
  {
    var w := Weaken(s, m);
    WeakenAt(w, n, i);
    if At(Weaken(w, n), i) {
      var k :| Near(n, i, k) && At(w, k);
      WeakenAt(s, m, k);
    }
    if k, j :| Near(n, i, k) && Near(m, k, j) && At(s, j) { WeakenAt(s, m, k); }
  }

  /** So does strengthening. */
  lemma StrengthenAdds(s: Bits, m: int, n: int)
    requires SameSign(m, n)
    ensures Strengthen(Strengthen(s, m), n) == Strengthen(s, m + n)
  {
    NotNot(s);
    DeMorgan(Not(s), m + n);
    DeMorgan(Not(s), m);
    DeMorgan(Weaken(Not(s), m), n);
    WeakenAdds(Not(s), m, n);
  }

  /** Neither depends on where the circle is cut open. */
  lemma WeakenRotates(s: Bits, n: int, k: int)
    ensures Weaken(Rotate(s, k), n) == Rotate(Weaken(s, n), k)
  {
    var r := Rotate(s, k);
    forall i ensures At(Weaken(r, n), i) == At(Rotate(Weaken(s, n), k), i) {
      WeakenAt(r, n, i);
      AtRotate(Weaken(s, n), k, i);
      WeakenAt(s, n, i - k);
      if At(Weaken(r, n), i) {
        var j :| Near(n, i, j) && At(r, j);
        AtRotate(s, k, j);
        assert Near(n, i - k, j - k);
      }
      if At(Weaken(s, n), i - k) {
        var j :| Near(n, i - k, j) && At(s, j);
        AtRotate(s, k, j + k);
        assert Near(n, i, j + k);
      }
    }
    SameMasks(Weaken(r, n), Rotate(Weaken(s, n), k));
  }

  lemma NotRotates(s: Bits, k: int)
    ensures Not(Rotate(s, k)) == Rotate(Not(s), k)
  {
    forall i | 0 <= i < |s| ensures Not(Rotate(s, k))[i] == Rotate(Not(s), k)[i] { AtNot(s, i - k); }
  }

  lemma StrengthenRotates(s: Bits, n: int, k: int)
    ensures Strengthen(Rotate(s, k), n) == Rotate(Strengthen(s, n), k)
  {
    NotNot(s);
    NotNot(Rotate(s, k));
    NotRotates(s, k);
    DeMorgan(Not(Rotate(s, k)), n);
    DeMorgan(Not(s), n);
    WeakenRotates(Not(s), n, k);
    NotRotates(Weaken(Not(s), n), k);
  }

  lemma WeakenMonotone(a: Bits, b: Bits, n: int)
    requires Leq(a, b)
    ensures Leq(Weaken(a, n), Weaken(b, n))
  {
    forall i | At(Weaken(a, n), i) ensures At(Weaken(b, n), i) {
      WeakenAt(a, n, i);
      WeakenAt(b, n, i);
    }
  }

  lemma StrengthenMonotone(a: Bits, b: Bits, n: int)
    requires Leq(a, b)
    ensures Leq(Strengthen(a, n), Strengthen(b, n))
  {
    if a != [] {
      forall i | At(Strengthen(a, n), i) ensures At(Strengthen(b, n), i) {
        StrengthenAt(a, n, i);
        StrengthenAt(b, n, i);
      }
    }
  }

  // ---------------------------------------------------------------------------------------------
  // The clean-up of a thresholded mask
  // ---------------------------------------------------------------------------------------------

  /** The four calls by which small occlusions are removed. */
  function CleanUp(s: Bits, n: int): (r: Bits)
    ensures |r| == |s|
  {
    Strengthen(Strengthen(Weaken(Weaken(s, n), -n), n), -n)
  }

  /** At most `n` points apart, either way. */
  predicate Within(n: int, i: int, j: int) { i - n <= j <= i + n }

  /** All bearings within `n` points of `c` are occluded. */
  ghost predicate OccludedAround(s: Bits, c: int, n: int) { forall j :: Within(n, c, j) ==> !At(s, j) }

  lemma WeakenBothAt(s: Bits, n: int, i: int)
    requires 0 <= n
    ensures At(Weaken(Weaken(s, n), -n), i) <==> exists j :: Within(n, i, j) && At(s, j)
  {
    var w := Weaken(s, n);
    WeakenAt(w, -n, i);
    if At(Weaken(w, -n), i) {
      var k :| Near(-n, i, k) && At(w, k);
      WeakenAt(s, n, k);
      var j :| Near(n, k, j) && At(s, j);
      assert Within(n, i, j);
    }
    if j :| Within(n, i, j) && At(s, j) {
      var k := if i <= j then j else i;
      WeakenAt(s, n, k);
      assert Near(n, k, j) && Near(-n, i, k);
    }
  }

  lemma StrengthenBothAt(s: Bits, n: int, i: int)
    requires s != [] && 0 <= n
    ensures At(Strengthen(Strengthen(s, n), -n), i) <==> forall j :: Within(n, i, j) ==> At(s, j)
  {
    NotNot(s);
    var o := Not(s);
    DeMorgan(o, n);
    DeMorgan(Weaken(o, n), -n);
    WeakenBothAt(o, n, i);
    AtNot(Weaken(Weaken(o, n), -n), i);
    forall j ensures At(o, j) == !At(s, j) { AtNot(s, j); }
  }

  /** A bearing is occluded after the clean-up if and only if it lies in a circular run of 2n + 1
      bearings that are all occluded before: shorter occlusions vanish, longer ones stay as they are. */
  lemma CleanUpKeepsLongRuns(s: Bits, n: int, i: int)
    requires s != [] && 0 <= n
    ensures !At(CleanUp(s, n), i) <==> exists c :: Within(n, c, i) && OccludedAround(s, c, n)
  {
    var w := Weaken(Weaken(s, n), -n);
    StrengthenBothAt(w, n, i);
    if !At(CleanUp(s, n), i) {
      var c :| Within(n, i, c) && !At(w, c);
      WeakenBothAt(s, n, c);
      assert Within(n, c, i) && OccludedAround(s, c, n);
    }
    if c :| Within(n, c, i) && OccludedAround(s, c, n) {
      WeakenBothAt(s, n, c);
      assert Within(n, i, c) && !At(w, c);
    }
  }

  lemma LeqAntisymmetric(a: Bits, b: Bits)
    requires Leq(a, b) && Leq(b, a)
    ensures a == b
  {
    SameMasks(a, b);
  }

  /** The clean-up is a closing: it only adds to what is seen, keeps the order of masks, and repeating
      it changes nothing. */
  lemma CleanUpIsClosing(a: Bits, b: Bits, n: int)
    requires |a| == |b|
    ensures Leq(a, CleanUp(a, n))
    ensures Leq(a, b) ==> Leq(CleanUp(a, n), CleanUp(b, n))
    ensures CleanUp(CleanUp(a, n), n) == CleanUp(a, n)
  {
    CleanUpExtends(a, n);
    if Leq(a, b) { CleanUpMonotone(a, b, n); }
    CleanUpIdempotent(a, n);
  }

  lemma CleanUpMonotone(a: Bits, b: Bits, n: int)
    requires Leq(a, b)
    ensures Leq(CleanUp(a, n), CleanUp(b, n))
  {
    var (a1, b1) := (Weaken(a, n), Weaken(b, n));
    WeakenMonotone(a, b, n);
    var (a2, b2) := (Weaken(a1, -n), Weaken(b1, -n));
    WeakenMonotone(a1, b1, -n);
    var (a3, b3) := (Strengthen(a2, n), Strengthen(b2, n));
    StrengthenMonotone(a2, b2, n);
    StrengthenMonotone(a3, b3, -n);
  }

  lemma CleanUpExtends(a: Bits, n: int)
    ensures Leq(a, CleanUp(a, n))
  {
    var w := Weaken(Weaken(a, n), -n);
    Galois(Weaken(a, n), w, -n);
    Galois(a, Strengthen(w, n), n);
  }

  /** What is weakened from a cleaned-up mask is what was weakened from the mask itself. */
  lemma CleanUpIdempotent(a: Bits, n: int)
    ensures CleanUp(CleanUp(a, n), n) == CleanUp(a, n)
  {
    var w := Weaken(Weaken(a, n), -n);
    var c := CleanUp(a, n);
    Galois(c, Strengthen(w, n), n);
    Galois(Weaken(c, n), w, -n);
    assert Leq(Weaken(Weaken(c, n), -n), w);
    CleanUpExtends(a, n);
    WeakenMonotone(a, c, n);
    WeakenMonotone(Weaken(a, n), Weaken(c, n), -n);
    LeqAntisymmetric(Weaken(Weaken(c, n), -n), w);
  }

  // ---------------------------------------------------------------------------------------------
  // Masks with their base angle
  // ---------------------------------------------------------------------------------------------

  /** Values with the angle between two neighbours, in units of pi radians. */
  datatype Mask = Mask(values: Bits, base: real)

  /** The shape that the constructor asserts. */
  predicate Shaped(m: Mask) { 0.0 < m.base && |m.values| == Round(2.0 / m.base) }

  function WeakenBy(m: Mask, angle: real): Mask
    requires Shaped(m)
  {
    m.(values := Weaken(m.values, Round(angle / m.base)))
  }

  function StrengthenBy(m: Mask, angle: real): Mask
    requires Shaped(m)
  {
    m.(values := Strengthen(m.values, Round(angle / m.base)))
  }

  /** The clean-up as the analysis calls it, with one sensitivity in both directions. */
  function Clean(m: Mask, sensitivity: real): Mask
    requires Shaped(m)
  {
    StrengthenBy(StrengthenBy(WeakenBy(WeakenBy(m, sensitivity), -sensitivity), sensitivity), -sensitivity)
  }

  lemma CleanIsCleanUp(m: Mask, sensitivity: real)
    requires Shaped(m)
    ensures Clean(m, sensitivity) == m.(values := CleanUp(m.values, Round(sensitivity / m.base)))
  {
    assert -sensitivity / m.base == -(sensitivity / m.base);
    RoundNegates(sensitivity / m.base);
  }

  function Differences(a: Bits, b: Bits): nat
    requires |a| == |b|
  {
    if a == [] then 0 else (if a[0] != b[0] then 1 else 0) + Differences(a[1..], b[1..])
  }

  /** The angle that `n` bearings cover. */
  function Times(base: real, n: nat): real { if n == 0 then 0.0 else base + Times(base, n - 1) }

  lemma {:induction false} TimesIsProduct(base: real, n: nat)
    ensures Times(base, n) == base * n as real
  {
    if n != 0 {
      TimesIsProduct(base, n - 1);
      assert base * n as real == base * (n - 1) as real + base;
    }
  }

  datatype Distance = Distance(angle: real) | BaseAnglesDiffer | LengthsDiffer

  function Dist(a: Mask, b: Mask): Distance {
    if a.base != b.base then BaseAnglesDiffer
    else if |a.values| != |b.values| then LengthsDiffer
    else Distance(Times(a.base, Differences(a.values, b.values)))
  }

  lemma {:induction false} DifferencesMetric(a: Bits, b: Bits, c: Bits)
    requires |a| == |b| == |c|
    ensures Differences(a, b) == 0 <==> a == b
    ensures Differences(a, b) == Differences(b, a)
    ensures Differences(a, c) <= Differences(a, b) + Differences(b, c)
  {
    if a != [] {
      DifferencesMetric(a[1..], b[1..], c[1..]);
      assert a == [a[0]] + a[1..] && b == [b[0]] + b[1..];
    }
  }

  lemma {:induction false} TimesLaws(base: real, m: nat, n: nat)
    requires 0.0 < base
    ensures Times(base, m + n) == Times(base, m) + Times(base, n)
    ensures 0.0 <= Times(base, n) && (Times(base, n) == 0.0 <==> n == 0)
  {
    if n == 0 { } else { TimesLaws(base, m, n - 1); }
  }

  /** Masks with one base angle have a distance. */
  lemma DistDefined(a: Mask, b: Mask)
    requires Shaped(a) && Shaped(b)
    ensures Dist(a, b).Distance? <==> a.base == b.base
  {
  }

  /** On masks with the same base angle, the distance is a metric. */
  lemma DistIsMetric(x: Bits, y: Bits, z: Bits, base: real)
    requires 0.0 < base && |x| == |y| == |z|
    ensures var (a, b, c) := (Mask(x, base), Mask(y, base), Mask(z, base));
            && 0.0 <= Dist(a, b).angle && (Dist(a, b).angle == 0.0 <==> a == b) && Dist(a, b) == Dist(b, a)
            && Dist(a, c).angle <= Dist(a, b).angle + Dist(b, c).angle
  {
    DifferencesMetric(x, y, z);
    var (ab, bc, ac) := (Differences(x, y), Differences(y, z), Differences(x, z));
    TimesLaws(base, 0, ab);
    TimesLaws(base, ab, bc);
    TimesLaws(base, ac, ab + bc - ac);
  }

  lemma {:induction false} DifferencesConcat(a: Bits, b: Bits, c: Bits, d: Bits)
    requires |a| == |c| && |b| == |d|
    ensures Differences(a + b, c + d) == Differences(a, c) + Differences(b, d)
  {
    if a == [] {
      assert a + b == b && c + d == d;
    } else {
      DifferencesConcat(a[1..], b, c[1..], d);
      assert (a + b)[1..] == a[1..] + b && (c + d)[1..] == c[1..] + d;
    }
  }

  lemma RotatedAt(s: Bits, k: int, i: nat)
    requires i < |s|
    ensures var j := (-k) % |s|; At(s, i - k) == if i < |s| - j then s[j + i] else s[j + i - |s|]
  {
    var (n, j) := (|s|, (-k) % |s|);
    AtShift(s, -k, i);
    assert -k + i == i - k && At(s, j + i) == At(s, -k + i);
    if i < n - j { ModIs(j + i, n, 0, j + i); } else { ModIs(j + i, n, 1, j + i - n); }
  }

  /** Turning is cutting the circle open somewhere else. */
  lemma RotateCuts(s: Bits, k: int)
    requires s != []
    ensures var j := (-k) % |s|; Rotate(s, k) == s[j..] + s[..j]
  {
    forall i | 0 <= i < |s| ensures Rotate(s, k)[i] == (s[(-k) % |s|..] + s[..(-k) % |s|])[i] { RotatedAt(s, k, i); }
  }

  /** Turning both masks alike does not change their distance. */
  lemma DistRotates(a: Bits, b: Bits, k: int)
    requires |a| == |b|
    ensures Differences(Rotate(a, k), Rotate(b, k)) == Differences(a, b)
  {
    if a != [] {
      var j := (-k) % |a|;
      RotateCuts(a, k);
      RotateCuts(b, k);
      DifferencesConcat(a[j..], a[..j], b[j..], b[..j]);
      DifferencesConcat(a[..j], a[j..], b[..j], b[j..]);
      assert a == a[..j] + a[j..] && b == b[..j] + b[j..];
    }
  }
}
