/** The time dependencies recorded for an expression, and how long they let values be retained. */
module Dependencies {
  import opened Lang
  import opened Solver
  import opened SolverMeaning

  /** A variable that is read, with one time offset. */
  type Dep = (Name, int)

  function Offsets(x: Name, steps: seq<int>): (ds: seq<Dep>)
    ensures |ds| == |steps| && forall k :: 0 <= k < |steps| ==> ds[k] == (x, steps[k])
  {
    seq(|steps|, k requires 0 <= k < |steps| => (x, steps[k]))
  }

  /** What one occurrence of a variable records, given the offsets collected so far. */
  function ReadDeps(x: Name, steps: seq<int>): seq<Dep> { if steps == [] then [(x, 0)] else Offsets(x, steps) }

  /** The dependencies recorded for an expression, and the offsets collected at its end.  An offset is
      pushed at a stream index and never popped. */
  function Deps(e: SExpr, steps: seq<int>): (seq<Dep>, seq<int>)
    decreases e, 0
  {
    match e
    case Var(x) => (ReadDeps(x, steps), steps)
    case SIndex(a, i) => Deps(a, steps + [i])
    case _ => ChildDeps(e, 0, steps)
  }

  function ChildDeps(e: SExpr, k: nat, steps: seq<int>): (seq<Dep>, seq<int>)
    requires k <= |Children(e)| && !e.Var? && !e.SIndex?
    decreases e, 0, |Children(e)| - k
  {
    if k == |Children(e)| then ([], steps)
    else
      var (ds, s1) := Deps(Children(e)[k], steps);
      var (rest, s2) := ChildDeps(e, k + 1, s1);
      (ds + rest, s2)
  }

  // ---------------------------------------------------------------------------------------------
  // Only the order of the text matters
  // ---------------------------------------------------------------------------------------------

  datatype Visit = Read(x: Name) | Index(i: int)

  /** The variables and indices of an expression in the order in which they are visited. */
  function Trace(e: SExpr): seq<Visit>
    decreases e, 0
  {
    match e
    case Var(x) => [Read(x)]
    case SIndex(a, i) => [Index(i)] + Trace(a)
    case _ => ChildTrace(e, 0)
  }

  function ChildTrace(e: SExpr, k: nat): seq<Visit>
    requires k <= |Children(e)| && !e.Var? && !e.SIndex?
    decreases e, 0, |Children(e)| - k
  {
    if k == |Children(e)| then [] else Trace(Children(e)[k]) + ChildTrace(e, k + 1)
  }

  /** The offsets among the visits. */
  function Indices(vs: seq<Visit>): seq<int> {
    if vs == [] then [] else if vs[0].Index? then [vs[0].i] + Indices(vs[1..]) else Indices(vs[1..])
  }

  function TraceDeps(vs: seq<Visit>, steps: seq<int>): seq<Dep>
    decreases |vs|
  {
    if vs == [] then []
    else
      match vs[0]
      case Read(x) => ReadDeps(x, steps) + TraceDeps(vs[1..], steps)
      case Index(i) => TraceDeps(vs[1..], steps + [i])
  }

  lemma {:induction false} IndicesConcat(a: seq<Visit>, b: seq<Visit>)
    ensures Indices(a + b) == Indices(a) + Indices(b)
  {
    if a == [] {
      assert a + b == b;
    } else {
      IndicesConcat(a[1..], b);
      assert (a + b)[1..] == a[1..] + b && (a + b)[0] == a[0];
      if a[0].Index? { assert [a[0].i] + (Indices(a[1..]) + Indices(b)) == [a[0].i] + Indices(a[1..]) + Indices(b); }
    }
  }

  lemma {:induction false} TraceDepsConcat(a: seq<Visit>, b: seq<Visit>, steps: seq<int>)
    ensures TraceDeps(a + b, steps) == TraceDeps(a, steps) + TraceDeps(b, steps + Indices(a))
    decreases |a|
  {
    if a == [] {
      assert a + b == b && steps + [] == steps;
    } else {
      assert (a + b)[1..] == a[1..] + b;
      match a[0]
      case Read(x) =>
        TraceDepsConcat(a[1..], b, steps);
        assert Indices(a) == Indices(a[1..]);
      case Index(i) =>
        TraceDepsConcat(a[1..], b, steps + [i]);
        assert steps + Indices(a) == steps + [i] + Indices(a[1..]);
    }
  }

  /** What is recorded is a function of the order of variables and indices alone: the nesting of the
      expression is lost. */
  lemma {:induction false} DepsFollowTrace(e: SExpr, steps: seq<int>)
    ensures Deps(e, steps) == (TraceDeps(Trace(e), steps), steps + Indices(Trace(e)))
    decreases e, 0
  {
    match e
    case Var(x) => assert steps + [] == steps && [Read(x)][1..] == [] && ReadDeps(x, steps) + [] == ReadDeps(x, steps);
    case SIndex(a, i) =>
      DepsFollowTrace(a, steps + [i]);
      assert Trace(e)[1..] == Trace(a);
      assert steps + ([i] + Indices(Trace(a))) == steps + [i] + Indices(Trace(a));
    case _ => ChildDepsFollowTrace(e, 0, steps);
  }

  lemma {:induction false} ChildDepsFollowTrace(e: SExpr, k: nat, steps: seq<int>)
    requires k <= |Children(e)| && !e.Var? && !e.SIndex?
    ensures ChildDeps(e, k, steps) == (TraceDeps(ChildTrace(e, k), steps), steps + Indices(ChildTrace(e, k)))
    decreases e, 0, |Children(e)| - k
  {
    if k == |Children(e)| {
      assert steps + [] == steps;
    } else {
      var c := Children(e)[k];
      DepsFollowTrace(c, steps);
      ChildDepsFollowTrace(e, k + 1, steps + Indices(Trace(c)));
      TracesJoin(Trace(c), ChildTrace(e, k + 1), steps);
    }
  }

  lemma TracesJoin(a: seq<Visit>, b: seq<Visit>, steps: seq<int>)
    ensures TraceDeps(a + b, steps) == TraceDeps(a, steps) + TraceDeps(b, steps + Indices(a))
    ensures steps + Indices(a + b) == steps + Indices(a) + Indices(b)
  {
    TraceDepsConcat(a, b, steps);
    IndicesConcat(a, b);
    assert steps + (Indices(a) + Indices(b)) == steps + Indices(a) + Indices(b);
  }

  /** `x` is read at a point where the offset `w` is in force. */
  ghost predicate ReadUnder(vs: seq<Visit>, steps: seq<int>, x: Name, w: int, k: nat) {
    && k < |vs| && vs[k] == Read(x)
    && var before := steps + Indices(vs[..k]); if before == [] then w == 0 else w in before
  }

  lemma ReadUnderShift(vs: seq<Visit>, steps: seq<int>, x: Name, w: int, k: nat)
    requires vs != []
    ensures ReadUnder(vs, steps, x, w, k + 1) <==> ReadUnder(vs[1..], steps + Indices([vs[0]]), x, w, k)
  {
    if k < |vs[1..]| {
      assert vs[..k + 1] == [vs[0]] + vs[1..][..k];
      IndicesConcat([vs[0]], vs[1..][..k]);
      assert steps + Indices(vs[..k + 1]) == steps + Indices([vs[0]]) + Indices(vs[1..][..k]);
    }
  }

  lemma {:induction false} TraceDepsExactly(vs: seq<Visit>, steps: seq<int>, x: Name, w: int)
    ensures (x, w) in TraceDeps(vs, steps) <==> exists k: nat :: ReadUnder(vs, steps, x, w, k)
    decreases |vs|
  {
    if vs != [] {
      var steps' := steps + Indices([vs[0]]);
      assert [vs[0]][1..] == [] && steps + [] == steps && TraceDeps(vs[1..], steps) == [] + TraceDeps(vs[1..], steps);
      assert Indices([vs[0]]) == if vs[0].Index? then [vs[0].i] else [];
      assert TraceDeps(vs, steps) == (if vs[0].Read? then ReadDeps(vs[0].x, steps) else []) + TraceDeps(vs[1..], steps');
      TraceDepsExactly(vs[1..], steps', x, w);
      assert ReadUnder(vs, steps, x, w, 0) <==> vs[0] == Read(x) && (x, w) in ReadDeps(x, steps) by {
        assert vs[..0] == [];
        OffsetsHave(x, steps, w);
      }
      if k: nat :| ReadUnder(vs, steps, x, w, k) && k != 0 {
        ReadUnderShift(vs, steps, x, w, k - 1);
      }
      if k: nat :| ReadUnder(vs[1..], steps', x, w, k) {
        ReadUnderShift(vs, steps, x, w, k);
      }
    }
  }

  lemma OffsetsHave(x: Name, steps: seq<int>, w: int)
    ensures (x, w) in Offsets(x, steps) <==> w in steps
  {
    if w in steps {
      var k :| 0 <= k < |steps| && steps[k] == w;
      assert Offsets(x, steps)[k] == (x, w);
    }
  }

  /** The variables and indices of an expression in the order of its text, an index before what it is
      applied to. */
  function Reading(e: SExpr): seq<Visit> {
    match e
    case Var(x) => [Read(x)]
    case SIndex(a, i) => [Index(i)] + Reading(a)
    case Not(a) => Reading(a)
    case Dynamic(a) => Reading(a)
    case RestrictedDynamic(a, _) => Reading(a)
    case Call1(_, a) => Reading(a)
    case BinOp(l, r, _) => Reading(l) + Reading(r)
    case Call2(_, l, r) => Reading(l) + Reading(r)
    case If(c, t, f) => Reading(c) + Reading(t) + Reading(f)
    case List(es) => Readings(es)
    case Val(_) => []
    case MonitoredAt(_, _) => []
    case Dist(_, _) => []
  }

  function Readings(es: seq<SExpr>): seq<Visit> { if es == [] then [] else Reading(es[0]) + Readings(es[1..]) }

  lemma {:induction false} TraceIsReading(e: SExpr)
    ensures Trace(e) == Reading(e)
    decreases e, 0
  {
    match e
    case SIndex(a, _) => TraceIsReading(a);
    case Var(_) =>
    case If(c, t, f) =>
      TraceIsReading(c); TraceIsReading(t); TraceIsReading(f);
      assert ChildTrace(e, 3) == [] && ChildTrace(e, 2) == Trace(f) + [] && ChildTrace(e, 1) == Trace(t) + ChildTrace(e, 2);
    case BinOp(l, r, _) => TraceIsReading(l); TraceIsReading(r); assert ChildTrace(e, 2) == [] && ChildTrace(e, 1) == Trace(r) + [];
    case Call2(_, l, r) => TraceIsReading(l); TraceIsReading(r); assert ChildTrace(e, 2) == [] && ChildTrace(e, 1) == Trace(r) + [];
    case Not(a) => TraceIsReading(a); assert ChildTrace(e, 1) == [];
    case Dynamic(a) => TraceIsReading(a); assert ChildTrace(e, 1) == [];
    case RestrictedDynamic(a, _) => TraceIsReading(a); assert ChildTrace(e, 1) == [];
    case Call1(_, a) => TraceIsReading(a); assert ChildTrace(e, 1) == [];
    case List(es) => ListIsReading(e, 0); assert es[0..] == es;
    case _ =>
  }

  lemma {:induction false} ListIsReading(e: SExpr, k: nat)
    requires e.List? && k <= |e.es|
    ensures ChildTrace(e, k) == Readings(e.es[k..])
    decreases e, 0, |e.es| - k
  {
    if k < |e.es| {
      TraceIsReading(e.es[k]);
      ListIsReading(e, k + 1);
      assert e.es[k..][1..] == e.es[k + 1..];
    }
  }

  /** Exactly what is recorded: an occurrence of `x` records every index that occurs before it in the
      text, whether or not it is inside that index, and the present only if there is none. */
  lemma RecordedExactly(e: SExpr, x: Name, w: int)
    ensures (x, w) in Deps(e, []).0 <==> exists k: nat :: ReadUnder(Reading(e), [], x, w, k)
  {
    DepsFollowTrace(e, []);
    TraceDepsExactly(Trace(e), [], x, w);
    TraceIsReading(e);
  }

  lemma {:induction false} OccursInReading(e: SExpr, x: Name)
    ensures Occurs(e, x) <==> Read(x) in Reading(e)
    decreases e, 0
  {
    match e
    case SIndex(a, _) => OccursInReading(a, x);
    case Not(a) => OccursInReading(a, x);
    case Dynamic(a) => OccursInReading(a, x);
    case RestrictedDynamic(a, _) => OccursInReading(a, x);
    case Call1(_, a) => OccursInReading(a, x);
    case BinOp(l, r, _) => OccursInReading(l, x); OccursInReading(r, x);
    case Call2(_, l, r) => OccursInReading(l, x); OccursInReading(r, x);
    case If(c, t, f) => OccursInReading(c, x); OccursInReading(t, x); OccursInReading(f, x);
    case List(es) => OccursInReadings(es, x);
    case _ =>
  }

  lemma {:induction false} OccursInReadings(es: seq<SExpr>, x: Name)
    ensures (exists i :: 0 <= i < |es| && Occurs(es[i], x)) <==> Read(x) in Readings(es)
    decreases es, 0
  {
    if es != [] {
      OccursInReading(es[0], x);
      OccursInReadings(es[1..], x);
      if i :| 0 <= i < |es| && Occurs(es[i], x) && i != 0 { assert Occurs(es[1..][i - 1], x); }
      if i :| 0 <= i < |es[1..]| && Occurs(es[1..][i], x) { assert Occurs(es[i + 1], x); }
    }
  }

  /** A variable has a recorded dependency if and only if it occurs in the expression, whatever is around
      it. */
  lemma OccursRecorded(e: SExpr, x: Name)
    ensures Occurs(e, x) <==> exists w :: (x, w) in Deps(e, []).0
  {
    OccursInReading(e, x);
    TraceIsReading(e);
    if Occurs(e, x) {
      var vs := Trace(e);
      var k: nat :| k < |vs| && vs[k] == Read(x);
      var before := [] + Indices(vs[..k]);
      var w := if before == [] then 0 else before[0];
      assert ReadUnder(vs, [], x, w, k);
      RecordedExactly(e, x, w);
    }
    if w :| (x, w) in Deps(e, []).0 { RecordedExactly(e, x, w); }
  }

  /** So a dependency within one instant can go unrecorded: in `a[-1] + x` the index leaks to `x`, and
      what is recorded is what `(a + x)[-1]` records. An equation `x = a[-1] + x` has no solution, but
      its graph has no cycle of weight zero. */
  lemma InstantHidden()
    ensures var e := BinOp(SIndex(Var("a"), -1), Var("x"), NOp(Add));
            && Deps(e, []) == Deps(SIndex(BinOp(Var("a"), Var("x"), NOp(Add)), -1), [])
            && ("x", 0) !in Deps(e, []).0 && ("x", -1) in Deps(e, []).0
  {
    var e := BinOp(SIndex(Var("a"), -1), Var("x"), NOp(Add));
    assert Children(e) == [SIndex(Var("a"), -1), Var("x")];
    assert Trace(SIndex(Var("a"), -1)) == [Index(-1), Read("a")];
    assert ChildTrace(e, 1) == [Read("x")];
    assert Trace(e) == [Index(-1), Read("a"), Read("x")];
    var f := BinOp(Var("a"), Var("x"), NOp(Add));
    assert ChildTrace(f, 1) == [Read("x")];
    assert Trace(f) == [Read("a"), Read("x")];
    assert Trace(SIndex(f, -1)) == Trace(e);
    DepsFollowTrace(e, []);
    DepsFollowTrace(SIndex(f, -1), []);
    assert Trace(e)[1..] == [Read("a"), Read("x")] && Trace(e)[1..][1..] == [Read("x")];
    assert [] + [-1] == [-1];
    assert Deps(e, []).0 == [("a", -1)] + ([("x", -1)] + []);
  }

  // ---------------------------------------------------------------------------------------------
  // Retention
  // ---------------------------------------------------------------------------------------------

  ghost predicate Covers(keep: map<Name, nat>, ds: seq<Dep>) { forall d :: d in ds ==> Magnitude(d.1) <= Keep(keep, d.0) }

  /** Every offset collected so far is recorded for every variable of the expression. */
  lemma {:induction false} StepsReachVars(e: SExpr, steps: seq<int>, x: Name, w: int)
    requires Static(e) && x in Vars(e) && w in steps
    ensures (x, w) in Deps(e, steps).0
    decreases e, 1
  {
    match e
    case Var(_) => OffsetsHave(x, steps, w);
    case SIndex(a, i) => assert w in steps + [i]; StepsReachVars(a, steps + [i], x, w);
    case BinOp(l, r, _) => StaticChildren(e, steps); StepsReachPair(e, steps, x, w, l, r);
    case Call2(_, l, r) => StaticChildren(e, steps); StepsReachPair(e, steps, x, w, l, r);
    case If(b, t, f) =>
      StaticChildren(e, steps);
      StepsGrow(b, steps);
      StepsGrow(t, Deps(b, steps).1);
      if x in Vars(b) { StepsReachVars(b, steps, x, w); }
      if x in Vars(t) { StepsReachVars(t, Deps(b, steps).1, x, w); }
      if x in Vars(f) { StepsReachVars(f, Deps(t, Deps(b, steps).1).1, x, w); }
    case Val(_) =>
  }

  lemma {:induction false} StepsReachPair(e: SExpr, steps: seq<int>, x: Name, w: int, l: SExpr, r: SExpr)
    requires l < e && r < e && Static(l) && Static(r) && x in Vars(l) + Vars(r) && w in steps
    ensures (x, w) in Deps(l, steps).0 || (x, w) in Deps(r, Deps(l, steps).1).0
    decreases e, 0
  {
    StepsGrow(l, steps);
    if x in Vars(l) { StepsReachVars(l, steps, x, w); } else { StepsReachVars(r, Deps(l, steps).1, x, w); }
  }

  lemma StepsGrow(e: SExpr, steps: seq<int>)
    ensures steps <= Deps(e, steps).1
  {
    DepsFollowTrace(e, steps);
  }

  /** The traversal of the operators of the static fragment, spelled out. */
  lemma StaticChildren(e: SExpr, steps: seq<int>)
    requires Static(e)
    ensures e.BinOp? || e.Call2? ==> Deps(e, steps).0 == Deps(e.lhs, steps).0 + Deps(e.rhs, Deps(e.lhs, steps).1).0
    ensures e.If? ==>
              var s1 := Deps(e.cond, steps).1;
              Deps(e, steps).0 == Deps(e.cond, steps).0 + Deps(e.thn, s1).0 + Deps(e.els, Deps(e.thn, s1).1).0
  {
    match e
    case BinOp(l, r, _) => PairDeps(e, l, r, steps);
    case Call2(_, l, r) => PairDeps(e, l, r, steps);
    case If(b, t, f) =>
      var s1 := Deps(b, steps).1;
      var s2 := Deps(t, s1).1;
      assert Children(e) == [b, t, f] && ChildDeps(e, 3, Deps(f, s2).1).0 == [];
      assert ChildDeps(e, 2, s2).0 == Deps(f, s2).0;
      assert ChildDeps(e, 1, s1).0 == Deps(t, s1).0 + Deps(f, s2).0;
    case _ =>
  }

  lemma PairDeps(e: SExpr, l: SExpr, r: SExpr, steps: seq<int>)
    requires Children(e) == [l, r] && !e.Var? && !e.SIndex?
    ensures Deps(e, steps).0 == Deps(l, steps).0 + Deps(r, Deps(l, steps).1).0
  {
    var s1 := Deps(l, steps).1;
    assert ChildDeps(e, 2, Deps(r, s1).1).0 == [];
    assert ChildDeps(e, 1, s1).0 == Deps(r, s1).0;
  }

  /** A retention that covers what is recorded for an expression retains all that its indices, taken
      one by one, look back at. */
  lemma {:induction false} RecordedIsRetained(e: SExpr, steps: seq<int>, keep: map<Name, nat>)
    requires Static(e) && Covers(keep, Deps(e, steps).0)
    ensures Retained(e, keep)
  {
    StaticChildren(e, steps);
    match e
    case SIndex(a, i) =>
      RecordedIsRetained(a, steps + [i], keep);
      forall x | x in Vars(a) ensures Magnitude(i) <= Keep(keep, x) {
        assert i in steps + [i];
        StepsReachVars(a, steps + [i], x, i);
        assert Covers(keep, Deps(a, steps + [i]).0);
      }
    case BinOp(l, r, _) => RecordedIsRetained(l, steps, keep); RecordedIsRetained(r, Deps(l, steps).1, keep);
    case Call2(_, l, r) => RecordedIsRetained(l, steps, keep); RecordedIsRetained(r, Deps(l, steps).1, keep);
    case If(b, t, f) =>
      RecordedIsRetained(b, steps, keep);
      RecordedIsRetained(t, Deps(b, steps).1, keep);
      RecordedIsRetained(f, Deps(t, Deps(b, steps).1).1, keep);
    case _ =>
  }

  // ---------------------------------------------------------------------------------------------
  // Chains of indices
  // ---------------------------------------------------------------------------------------------

  /** `x[xs[0]]...[xs[n-1]]`, the last index outermost. */
  function Chain(x: Name, xs: seq<int>): SExpr {
    if xs == [] then Var(x) else SIndex(Chain(x, xs[..|xs| - 1]), xs[|xs| - 1])
  }

  function Sum(xs: seq<int>): int { if xs == [] then 0 else Sum(xs[..|xs| - 1]) + xs[|xs| - 1] }

  /** A chain denotes its variable shifted by the sum of its offsets. */
  lemma {:induction false} ChainDenotes(x: Name, xs: seq<int>, t: nat, env: Env)
    requires (forall k :: 0 <= k < |xs| ==> xs[k] <= 0) && 0 <= t + Sum(xs)
    ensures Static(Chain(x, xs)) && Eval(Chain(x, xs), t, env) == env(x, t + Sum(xs))
  {
    if xs != [] {
      var rest, i := xs[..|xs| - 1], xs[|xs| - 1];
      SumNegative(rest);
      ChainDenotes(x, rest, t + i, env);
    }
  }

  lemma {:induction false} SumNegative(xs: seq<int>)
    requires forall k :: 0 <= k < |xs| ==> xs[k] <= 0
    ensures Sum(xs) <= 0 && forall k :: 0 <= k < |xs| ==> Sum(xs) <= xs[k]
  {
    if xs != [] { SumNegative(xs[..|xs| - 1]); }
  }

  lemma {:induction false} ChainDeps(x: Name, xs: seq<int>, steps: seq<int>)
    ensures forall d :: d in Deps(Chain(x, xs), steps).0 <==>
                        d.0 == x && (if xs == [] && steps == [] then d.1 == 0 else d.1 in xs || d.1 in steps)
  {
    if xs == [] {
      forall d: Dep ensures d in ReadDeps(x, steps) <==> d.0 == x && (if steps == [] then d.1 == 0 else d.1 in steps) {
        if d.0 == x { OffsetsHave(x, steps, d.1); }
      }
    } else {
      var rest, i := xs[..|xs| - 1], xs[|xs| - 1];
      ChainDeps(x, rest, steps + [i]);
      assert xs == rest + [i];
    }
  }

  ghost predicate AtMostOneShift(xs: seq<int>) { forall j, k :: 0 <= j < k < |xs| ==> xs[j] == 0 || xs[k] == 0 }

  lemma {:induction false} OneShift(xs: seq<int>)
    requires forall k :: 0 <= k < |xs| ==> xs[k] <= 0
    ensures AtMostOneShift(xs) <==> Sum(xs) == 0 || Sum(xs) in xs
  {
    if xs != [] {
      var rest, i := xs[..|xs| - 1], xs[|xs| - 1];
      OneShift(rest);
      SumNegative(rest);
      assert xs == rest + [i];
      if i < 0 && Sum(rest) < 0 {
        SumIsShift(rest);
        var j :| 0 <= j < |rest| && rest[j] != 0;
        assert xs[j] != 0 && xs[|xs| - 1] != 0;
        forall k | 0 <= k < |xs| ensures xs[k] != Sum(xs) { if k < |rest| { assert Sum(rest) <= rest[k]; } }
      } else if i < 0 {
        forall k | 0 <= k < |rest| ensures rest[k] == 0 { assert Sum(rest) <= rest[k]; }
      } else {
        assert AtMostOneShift(xs) <==> AtMostOneShift(rest) by {
          if AtMostOneShift(xs) {
            forall j, k | 0 <= j < k < |rest| ensures rest[j] == 0 || rest[k] == 0 { assert xs[j] == rest[j] && xs[k] == rest[k]; }
          }
        }
      }
    }
  }

  lemma {:induction false} SumIsShift(xs: seq<int>)
    requires Sum(xs) != 0
    ensures exists j :: 0 <= j < |xs| && xs[j] != 0
  {
    var rest := xs[..|xs| - 1];
    if xs[|xs| - 1] == 0 {
      SumIsShift(rest);
      var j :| 0 <= j < |rest| && rest[j] != 0;
      assert xs[j] != 0;
    }
  }

  /** The tightest retention that covers a chain reaches what the chain denotes if and only if at most
      one of its offsets is not zero; `(a[-1])[-1]` is the smallest case where it does not. */
  lemma ChainRetention(x: Name, xs: seq<int>)
    requires forall k :: 0 <= k < |xs| ==> xs[k] <= 0
    ensures (forall keep :: Covers(keep, Deps(Chain(x, xs), []).0) ==> Magnitude(Sum(xs)) <= Keep(keep, x)) <==> AtMostOneShift(xs)
  {
    ChainDeps(x, xs, []);
    OneShift(xs);
    SumNegative(xs);
    var ds := Deps(Chain(x, xs), []).0;
    if AtMostOneShift(xs) {
      forall keep | Covers(keep, ds) ensures Magnitude(Sum(xs)) <= Keep(keep, x) {
        if Sum(xs) != 0 { assert (x, Sum(xs)) in ds; }
      }
    } else {
      var keep := map[x := -Sum(xs) - 1];
      forall d | d in ds ensures Magnitude(d.1) <= Keep(keep, d.0) {
        var k :| 0 <= k < |xs| && xs[k] == d.1;
        assert Sum(xs) <= xs[k];
      }
      assert Covers(keep, ds) && Keep(keep, x) < Magnitude(Sum(xs));
    }
  }

  /** Pinned to a time, a chain reads its variable at the innermost offset, whatever the others are. */
  lemma {:induction false} ChainPinned(x: Name, xs: seq<int>, t: nat, base: nat, env: Env)
    requires forall k :: 0 <= k < |xs| ==> xs[k] <= 0 <= t + xs[k]
    ensures Static(Chain(x, xs)) && EvalA(ToAbsolute(Chain(x, xs), t), base, env) == env(x, if xs == [] then base else t + xs[0])
  {
    if xs != [] {
      var rest, i := xs[..|xs| - 1], xs[|xs| - 1];
      ChainPinned(x, rest, t, t + i, env);
    }
  }

  ghost predicate InnermostOnly(xs: seq<int>) { forall k :: 1 <= k < |xs| ==> xs[k] == 0 }

  lemma {:induction false} ChainReadable(x: Name, xs: seq<int>)
    requires InnermostOnly(xs)
    ensures Static(Chain(x, xs)) && Readable(Chain(x, xs))
  {
    if xs != [] { ChainReadable(x, xs[..|xs| - 1]); }
  }

  lemma {:induction false} OuterShift(xs: seq<int>)
    requires xs != [] && (forall k :: 0 <= k < |xs| ==> xs[k] <= 0) && !InnermostOnly(xs)
    ensures Sum(xs) < xs[0]
  {
    var rest := xs[..|xs| - 1];
    SumNegative(rest);
    if xs[|xs| - 1] == 0 {
      var k :| 1 <= k < |xs| && xs[k] != 0;
      assert rest[k] != 0;
      OuterShift(rest);
    } else {
      assert |rest| > 0 && Sum(rest) <= rest[0];
    }
  }

  ghost predicate PinnedRight(e: SExpr)
    requires Static(e)
  {
    forall env: Env, t: nat :: EvalA(ToAbsolute(e, t), t, env) == Eval(e, t, env)
  }

  /** So pinning keeps the meaning of a chain if and only if no offset but the innermost one shifts. */
  lemma ChainMisread(x: Name, xs: seq<int>)
    requires forall k :: 0 <= k < |xs| ==> xs[k] <= 0
    ensures Static(Chain(x, xs)) && (PinnedRight(Chain(x, xs)) <==> InnermostOnly(xs))
  {
    ChainStatic(x, xs);
    if InnermostOnly(xs) {
      ChainReadable(x, xs);
      forall env: Env, t: nat ensures EvalA(ToAbsolute(Chain(x, xs), t), t, env) == Eval(Chain(x, xs), t, env) {
        AbsoluteCorrect(Chain(x, xs), t, env);
      }
    } else {
      SumNegative(xs);
      OuterShift(xs);
      var t: nat, env: Env := -Sum(xs), (y: Name, u: nat) => Some(Int(u));
      ChainDenotes(x, xs, t, env);
      ChainPinned(x, xs, t, t, env);
      assert EvalA(ToAbsolute(Chain(x, xs), t), t, env) != Eval(Chain(x, xs), t, env);
    }
  }

  lemma {:induction false} ChainStatic(x: Name, xs: seq<int>)
    ensures Static(Chain(x, xs))
  {
    if xs != [] { ChainStatic(x, xs[..|xs| - 1]); }
  }
}
