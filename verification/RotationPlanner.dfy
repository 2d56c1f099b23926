/** The planner of rotations: which turns let the robot look at everything that is occluded and come
    back.  Angles are counted in units of the base angle, of which `2 * h` make a full turn. */
module RotationPlanner {
  import opened Lang
  import opened Masks

  // ---------------------------------------------------------------------------------------------
  // The planner
  // ---------------------------------------------------------------------------------------------

  /** The signed angle of a bearing: the first half of them count up from 0, the second half from -h. */
  function AngleOf(i: int, h: int): int { if i < h then i else i - 2 * h }

  /** The angles of the occluded bearings, and 0 for the others. */
  function OccludedAngles(mask: Bits): (r: seq<int>)
    ensures |r| == |mask|
  {
    seq(|mask|, i requires 0 <= i < |mask| => if mask[i] then 0 else AngleOf(i, |mask| / 2))
  }

  function Min(s: seq<int>): (m: int)
    requires s != []
    ensures m in s && forall v :: v in s ==> m <= v
  {
    assert s == [s[0]] + s[1..];
    if |s| == 1 then s[0] else var m := Min(s[1..]); if s[0] < m then s[0] else m
  }

  function Max(s: seq<int>): (m: int)
    requires s != []
    ensures m in s && forall v :: v in s ==> v <= m
  {
    assert s == [s[0]] + s[1..];
    if |s| == 1 then s[0] else var m := Max(s[1..]); if m < s[0] then s[0] else m
  }

  /** The rotations for the extreme angles `x` and `y`; `None` where the planner asserts `False`. */
  function Rotations(x: int, y: int, h: int): Option<seq<int>> {
    if 0 <= x <= y then Some([y, -y])
    else if x <= y <= 0 then Some([x, -x])
    else if y - x > h then Some([2 * h])
    else if Magnitude(x) > Magnitude(y) then Some([x, -x + y, -y])
    else if Magnitude(y) > Magnitude(x) then Some([y, -y + x, -x])
    else None
  }

  /** The plan for a mask.  With an odd number of bearings the two halves of the angles are one too
      many, and multiplying them with the mask fails. */
  function Plan(mask: Bits): Option<seq<int>>
    requires mask != []
  {
    if |mask| % 2 == 1 then None
    else
      var angles := OccludedAngles(mask);
      Rotations(Min(angles), Max(angles), |mask| / 2)
  }

  /** A rotation as a command: a direction and how long to turn. */
  datatype Command = Command(omega: int, duration: nat)

  function CommandOf(angle: int): Command { Command(if angle < 0 then -1 else 1, Magnitude(angle)) }

  lemma CommandTurns(angle: int)
    ensures var c := CommandOf(angle); c.omega * c.duration == angle
  {
    assert -1 * (-angle) == angle;
  }

  // ---------------------------------------------------------------------------------------------
  // Walks around the circle
  // ---------------------------------------------------------------------------------------------

  /** Rotations as a walk, in units of the base angle.  A walk may be by any angles, not only by those. */
  function Walk(rots: seq<int>): (w: seq<real>)
    ensures |w| == |rots| && forall i :: 0 <= i < |rots| ==> w[i] == rots[i] as real
  {
    seq(|rots|, i requires 0 <= i < |rots| => rots[i] as real)
  }

  function Abs(x: real): real { if x < 0.0 then -x else x }

  function Larger(a: real, b: real): real { if a < b then b else a }

  function Smaller(a: real, b: real): real { if b < a then b else a }

  function Sum(w: seq<real>): real { if w == [] then 0.0 else Sum(w[..|w| - 1]) + w[|w| - 1] }

  function Length(w: seq<real>): real { if w == [] then 0.0 else Length(w[..|w| - 1]) + Abs(w[|w| - 1]) }

  /** The furthest positions of a walk, on either side of where it starts. */
  function Highest(w: seq<real>): real { if w == [] then 0.0 else Larger(Highest(w[..|w| - 1]), Sum(w)) }

  function Lowest(w: seq<real>): real { if w == [] then 0.0 else Smaller(Lowest(w[..|w| - 1]), Sum(w)) }

  /** `k` full turns of a circle of circumference `2 * h`. */
  function Turns(k: int, h: real): real { k as real * (2.0 * h) }

  /** `c` is a position at the bearing `b`. */
  ghost predicate SameBearing(b: real, c: real, h: real) { exists k: int :: c == b + Turns(k, h) }

  /** The walk ends at the bearing it starts from, perhaps after full turns. */
  ghost predicate Closed(w: seq<real>, h: real) { 0.0 < h && SameBearing(0.0, Sum(w), h) }

  /** The walk passes over the bearing `b`. */
  ghost predicate Sweeps(w: seq<real>, b: real, h: real) {
    exists c :: SameBearing(b, c, h) && Lowest(w) <= c <= Highest(w)
  }

  /** A walk is at least as long as there and back between its furthest positions, less the way it does
      not go back. */
  lemma {:induction false} LengthBound(w: seq<real>)
    ensures Lowest(w) <= 0.0 <= Highest(w) && Lowest(w) <= Sum(w) <= Highest(w)
    ensures Length(w) >= 2.0 * (Highest(w) - Lowest(w)) - Abs(Sum(w))
    ensures Length(w) >= Abs(Sum(w))
  {
    if w != [] { LengthBound(w[..|w| - 1]); }
  }

  /** Two positions at one bearing are the same or a full turn apart. */
  lemma SameOrFar(b: real, c: real, h: real)
    requires 0.0 < h && SameBearing(b, c, h)
    ensures b == c || 2.0 * h <= Abs(c - b)
  {
    var k: int :| c == b + Turns(k, h);
    if 0 < k {
      assert k as real * (2.0 * h) == 2.0 * h + (k - 1) as real * (2.0 * h) && 0.0 <= (k - 1) as real * (2.0 * h);
    } else if k < 0 {
      assert -(k as real * (2.0 * h)) == 2.0 * h + (-k - 1) as real * (2.0 * h) && 0.0 <= (-k - 1) as real * (2.0 * h);
    }
  }

  /** A walk within half a turn passes over a bearing only at its own position. */
  lemma OwnPosition(w: seq<real>, b: real, h: real)
    requires -h <= b < h && Sweeps(w, b, h) && Lowest(w) <= 0.0 <= Highest(w)
    ensures h <= Highest(w) - Lowest(w) || Lowest(w) <= b <= Highest(w)
  {
    var c :| SameBearing(b, c, h) && Lowest(w) <= c <= Highest(w);
    SameOrFar(b, c, h);
  }

  /** Any closed walk that passes over both extremes is at least as long as a full turn, or as going to
      both of them and back. */
  lemma NoShorterWalk(w: seq<real>, x: real, y: real, h: real)
    requires Closed(w, h) && -h <= x <= 0.0 <= y < h && Sweeps(w, x, h) && Sweeps(w, y, h)
    ensures Length(w) >= Smaller(2.0 * h, 2.0 * (y - x))
  {
    LengthBound(w);
    SameOrFar(0.0, Sum(w), h);
    OwnPosition(w, x, h);
    OwnPosition(w, y, h);
  }

  // ---------------------------------------------------------------------------------------------
  // The planner is right
  // ---------------------------------------------------------------------------------------------

  lemma AnglesInRange(mask: Bits)
    requires mask != [] && |mask| % 2 == 0
    ensures var (a, h) := (OccludedAngles(mask), |mask| / 2); -h <= Min(a) <= 0 <= Max(a) < h
  {
    var (a, h) := (OccludedAngles(mask), |mask| / 2);
    assert a[0] == 0 && a[0] in a;
    forall v | v in a ensures -h <= v < h {
      var i :| 0 <= i < |a| && a[i] == v;
    }
  }

  /** The planner fails exactly if the number of bearings is odd, or the extremes lie opposite each
      other, not both straight ahead, and at most half a turn apart. */
  lemma PlanFails(mask: Bits)
    requires mask != []
    ensures var (x, y) := (Min(OccludedAngles(mask)), Max(OccludedAngles(mask)));
            Plan(mask) == None <==> |mask| % 2 == 1 || (x == -y && y != 0 && y - x <= |mask| / 2)
  {
    if |mask| % 2 == 0 { AnglesInRange(mask); }
  }

  /** With occlusions at one bearing to either side, it does. */
  lemma PlanFailsWitness()
    ensures Plan([true, false, true, true, true, true, true, false]) == None
  {
    var mask := [true, false, true, true, true, true, true, false];
    var a := OccludedAngles(mask);
    assert a == [0, 1, 0, 0, 0, 0, 0, -1];
    assert a[7] in a && a[1] in a;
    PlanFails(mask);
  }

  /** A walk that goes on by one more rotation. */
  lemma OneMore(w: seq<real>, a: real)
    ensures var r := w + [a];
            && Sum(r) == Sum(w) + a && Length(r) == Length(w) + Abs(a)
            && Highest(r) == Larger(Highest(w), Sum(r)) && Lowest(r) == Smaller(Lowest(w), Sum(r))
  {
    assert (w + [a])[..|w|] == w;
  }

  lemma TwoRotations(a: real, b: real)
    ensures Sum([a, b]) == a + b && Length([a, b]) == Abs(a) + Abs(b)
    ensures Highest([a, b]) == Larger(Larger(0.0, a), a + b) && Lowest([a, b]) == Smaller(Smaller(0.0, a), a + b)
  {
    OneMore([], a);
    OneMore([a], b);
    assert [] + [a] == [a] && [a] + [b] == [a, b];
  }

  lemma ThreeRotations(a: real, b: real, c: real)
    ensures Sum([a, b, c]) == a + b + c && Length([a, b, c]) == Abs(a) + Abs(b) + Abs(c)
    ensures Highest([a, b, c]) == Larger(Larger(Larger(0.0, a), a + b), a + b + c)
    ensures Lowest([a, b, c]) == Smaller(Smaller(Smaller(0.0, a), a + b), a + b + c)
  {
    TwoRotations(a, b);
    OneMore([a, b], c);
    assert [a, b] + [c] == [a, b, c];
  }

  /** The extremes are so far apart that a full turn is planned. */
  predicate Whole(x: int, y: int, h: int) { y - x > h && x < 0 < y }

  /** What the rotations for extremes `x` and `y` do. */
  /** A plan of three rotations goes to the farther extreme first, then to the other one, and back. */
  lemma FartherFirst(x: int, y: int, h: int)
    requires 0 < h && -h <= x < 0 < y < h
    ensures var r := Rotations(x, y, h);
            r.Some? && |r.value| == 3 <==> y - x <= h && x + y != 0
    ensures var r := Rotations(x, y, h);
            r.Some? && |r.value| == 3 ==>
              && {r.value[0], r.value[0] + r.value[1]} == {x, y} && Magnitude(r.value[0]) > Magnitude(r.value[0] + r.value[1])
              && r.value[0] + r.value[1] + r.value[2] == 0
  {
  }

  lemma RotationsShape(x: int, y: int, h: int)
    requires 0 < h && -h <= x <= 0 <= y < h && Rotations(x, y, h).Some?
    ensures var (w, full) := (Walk(Rotations(x, y, h).value), 2.0 * h as real);
            if Whole(x, y, h) then
              Sum(w) == full && Length(w) == full && Lowest(w) == 0.0 && Highest(w) == full
            else
              Sum(w) == 0.0 && Length(w) == 2.0 * (y - x) as real && Lowest(w) == x as real && Highest(w) == y as real
  {
    var w := Walk(Rotations(x, y, h).value);
    var (p, q) := (x as real, y as real);
    if 0 <= x {
      assert w == [q, -q];
      TwoRotations(q, -q);
    } else if y <= 0 {
      assert w == [p, -p];
      TwoRotations(p, -p);
    } else if y - x > h {
      OneMore([], 2.0 * h as real);
      assert w == [] + [2.0 * h as real];
    } else if Magnitude(x) > Magnitude(y) {
      assert w == [p, -p + q, -q];
      ThreeRotations(p, -p + q, -q);
    } else {
      assert w == [q, -q + p, -p];
      ThreeRotations(q, -q + p, -p);
    }
  }

  lemma SweptDirectly(w: seq<real>, b: real, h: real)
    requires Lowest(w) <= b <= Highest(w)
    ensures Sweeps(w, b, h)
  {
    assert b == b + Turns(0, h);
    assert SameBearing(b, b, h);
  }

  lemma FullTurnSweeps(w: seq<real>, b: real, h: real)
    requires Lowest(w) == 0.0 && Highest(w) == 2.0 * h && -h <= b < h
    ensures Sweeps(w, b, h)
  {
    if 0.0 <= b {
      SweptDirectly(w, b, h);
    } else {
      assert b + 2.0 * h == b + Turns(1, h);
      assert SameBearing(b, b + 2.0 * h, h);
    }
  }

  /** What a plan for given extremes passes over. */
  lemma ExtremesSwept(x: int, y: int, h: int, b: real)
    requires 0 < h && -h <= x <= 0 <= y < h && Rotations(x, y, h).Some? && x as real <= b <= y as real
    ensures Sweeps(Walk(Rotations(x, y, h).value), b, h as real)
  {
    var w := Walk(Rotations(x, y, h).value);
    RotationsShape(x, y, h);
    if Whole(x, y, h) { FullTurnSweeps(w, b, h as real); } else { SweptDirectly(w, b, h as real); }
  }

  lemma RotationsClose(x: int, y: int, h: int)
    requires 0 < h && -h <= x <= 0 <= y < h && Rotations(x, y, h).Some?
    ensures Closed(Walk(Rotations(x, y, h).value), h as real)
  {
    RotationsShape(x, y, h);
    if Whole(x, y, h) {
      assert 2.0 * h as real == 0.0 + Turns(1, h as real);
    } else {
      assert 0.0 == 0.0 + Turns(0, h as real);
    }
  }

  /** The rotations for given extremes are the shortest of all walks that pass over both of them. */
  lemma ExtremesShortest(x: int, y: int, h: int, other: seq<real>)
    requires -h <= x <= 0 <= y < h && Rotations(x, y, h).Some?
    requires Closed(other, h as real) && Sweeps(other, x as real, h as real) && Sweeps(other, y as real, h as real)
    ensures Length(Walk(Rotations(x, y, h).value)) == Smaller(2.0 * h as real, 2.0 * (y - x) as real) <= Length(other)
  {
    RotationsShape(x, y, h);
    NoShorterWalk(other, x as real, y as real, h as real);
  }

  lemma OccludedWithin(mask: Bits, i: nat)
    requires mask != [] && i < |mask| && !mask[i]
    ensures Min(OccludedAngles(mask)) <= AngleOf(i, |mask| / 2) <= Max(OccludedAngles(mask))
  {
    assert OccludedAngles(mask)[i] in OccludedAngles(mask);
  }

  /** The walk passes over every occluded bearing; bearing `i` lies `i` base angles from straight ahead. */
  ghost predicate SweepsOccluded(w: seq<real>, mask: Bits, h: int) {
    forall i :: 0 <= i < |mask| && !mask[i] ==> Sweeps(w, i as real, h as real)
  }

  lemma SameFromBoth(b: real, c: real, d: real, h: real)
    requires SameBearing(b, c, h) && SameBearing(b, d, h)
    ensures SameBearing(c, d, h)
  {
    var j: int :| c == b + Turns(j, h);
    var k: int :| d == b + Turns(k, h);
    assert (k - j) as real * (2.0 * h) == k as real * (2.0 * h) - j as real * (2.0 * h);
    assert d == c + Turns(k - j, h);
  }

  /** The signed angle of a bearing is a position at that bearing. */
  lemma AngleIsBearing(w: seq<real>, i: int, h: int)
    ensures Sweeps(w, AngleOf(i, h) as real, h as real) <==> Sweeps(w, i as real, h as real)
  {
    var (a, b, x) := (AngleOf(i, h) as real, i as real, h as real);
    assert b == b + Turns(0, x) && a == a + Turns(0, x);
    assert a == b + Turns(if i < h then 0 else -1, x);
    assert SameBearing(b, a, x) && SameBearing(b, b, x) && SameBearing(a, a, x);
    SameFromBoth(b, a, b, x);
    if Sweeps(w, a, x) {
      var c :| SameBearing(a, c, x) && Lowest(w) <= c <= Highest(w);
      SameFromBoth(a, b, c, x);
    }
    if Sweeps(w, b, x) {
      var c :| SameBearing(b, c, x) && Lowest(w) <= c <= Highest(w);
      SameFromBoth(b, a, c, x);
    }
  }

  /** The plan for a mask is the rotations for its extremes. */
  lemma PlanOf(mask: Bits, x: int, y: int, h: int)
    requires mask != [] && Plan(mask).Some? && x == Min(OccludedAngles(mask)) && y == Max(OccludedAngles(mask)) && h == |mask| / 2
    ensures Plan(mask) == Rotations(x, y, h) && -h <= x <= 0 <= y < h
  {
    AnglesInRange(mask);
  }

  /** A plan brings the robot back where it started and passes over every occluded bearing. */
  lemma PlanIsRight(mask: Bits)
    requires mask != [] && Plan(mask).Some?
    ensures var (w, h) := (Walk(Plan(mask).value), |mask| / 2); Closed(w, h as real) && SweepsOccluded(w, mask, h)
  {
    var (x, y, h) := (Min(OccludedAngles(mask)), Max(OccludedAngles(mask)), |mask| / 2);
    PlanOf(mask, x, y, h);
    RotationsClose(x, y, h);
    forall i | 0 <= i < |mask| && !mask[i] ensures Sweeps(Walk(Plan(mask).value), i as real, h as real) {
      OccludedWithin(mask, i);
      ExtremesSwept(x, y, h, AngleOf(i, h) as real);
      AngleIsBearing(Walk(Plan(mask).value), i, h);
    }
  }

  /** A walk over every occluded bearing passes over the extremes. */
  lemma ExtremeIsSwept(mask: Bits, w: seq<real>, h: int, v: int)
    requires h == |mask| / 2 && SweepsOccluded(w, mask, h) && v in OccludedAngles(mask)
    ensures Sweeps(w, v as real, h as real)
  {
    var i :| 0 <= i < |mask| && OccludedAngles(mask)[i] == v;
    if mask[i] {
      LengthBound(w);
      SweptDirectly(w, 0.0, h as real);
    } else {
      AngleIsBearing(w, i, h);
    }
  }

  /** A plan is as long as a full turn, or as going to both extremes and back if that is shorter, and no
      closed walk over every occluded bearing, by whatever angles, is shorter. */
  lemma PlanIsShortest(mask: Bits, x: int, y: int, h: int, other: seq<real>)
    requires mask != [] && Plan(mask).Some? && x == Min(OccludedAngles(mask)) && y == Max(OccludedAngles(mask)) && h == |mask| / 2
    requires Closed(other, h as real) && SweepsOccluded(other, mask, h)
    ensures Length(Walk(Plan(mask).value)) == Smaller(2.0 * h as real, 2.0 * (y - x) as real) <= Length(other)
  {
    PlanOf(mask, x, y, h);
    ExtremeIsSwept(mask, other, h, x);
    ExtremeIsSwept(mask, other, h, y);
    ExtremesShortest(x, y, h, other);
  }
}
