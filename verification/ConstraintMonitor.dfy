/** The constraint-based monitor put together: the dependency graph of the specification decides how
    long the runtime keeps its values. */
module ConstraintMonitors {
  import opened Lang
  import opened Solver
  import opened Dependencies
  import opened DepGraphs
  import opened ConstraintRuntimes
  import opened GarbageCollection
  import opened ConstraintDenotations
  import opened RuntimeObject
  import opened SendCounters

  type Equations = seq<(Name, SExpr)>

  predicate DistinctNames(spec: Equations) { forall i, j :: 0 <= i < j < |spec| ==> spec[i].0 != spec[j].0 }

  function Order(spec: Equations): (order: seq<Name>)
    ensures |order| == |spec|
  {
    seq(|spec|, i requires 0 <= i < |spec| => spec[i].0)
  }

  function ExprOf(spec: Equations, y: Name): SExpr {
    if spec == [] then Val(Unit) else if spec[0].0 == y then spec[0].1 else ExprOf(spec[1..], y)
  }

  function Exprs(spec: Equations): map<Name, SExpr> { map y | y in Order(spec) :: ExprOf(spec, y) }

  lemma {:induction false} ExprOfAt(spec: Equations, k: nat)
    requires DistinctNames(spec) && k < |spec|
    ensures ExprOf(spec, spec[k].0) == spec[k].1
  {
    if k != 0 {
      assert spec[1..][k - 1] == spec[k];
      ExprOfAt(spec[1..], k - 1);
    }
  }

  /** The equations have different names and only what the solver implements. */
  predicate Solvable(spec: Equations) { DistinctNames(spec) && forall k :: 0 <= k < |spec| ==> Static(spec[k].1) }

  /** Moreover, they look at the present and the past only, without nesting indices. */
  predicate LooksBack(spec: Equations) {
    Solvable(spec) && forall k :: 0 <= k < |spec| ==> PastOnly(spec[k].1) && Unnested(spec[k].1)
  }

  /** Moreover, no output depends on itself within one instant, as `rank` witnesses. */
  ghost predicate Runnable(spec: Equations, rank: map<Name, nat>) {
    && LooksBack(spec) && (forall y :: y in rank <==> y in Order(spec))
    && forall k :: 0 <= k < |spec| ==> spec[k].0 in rank && Below(spec[k].1, rank, rank[spec[k].0])
  }

  lemma ExprsStatic(spec: Equations)
    requires Solvable(spec)
    ensures (forall y :: y in Order(spec) <==> y in Exprs(spec)) && forall y :: y in Exprs(spec) ==> Static(Exprs(spec)[y])
  {
    forall y | y in Exprs(spec) ensures Static(Exprs(spec)[y]) {
      var k :| 0 <= k < |spec| && Order(spec)[k] == y;
      ExprOfAt(spec, k);
    }
  }

  /** The graph's longest time dependencies retain all that the specification can read. */
  lemma GraphRetains(spec: Equations, longest: map<Name, nat>)
    requires LooksBack(spec)
    requires forall k :: 0 <= k < |SpecLabels(spec)| ==> SpecLabels(spec)[k].1 in longest
    requires forall x :: x in longest ==> Longest(SpecLabels(spec), x, longest[x])
    ensures Retaining(Exprs(spec), Order(spec), longest)
  {
    var exprs, ls := Exprs(spec), SpecLabels(spec);
    forall y | y in exprs
      ensures Static(exprs[y]) && PastOnly(exprs[y]) && Unnested(exprs[y]) && Retained(exprs[y], longest)
    {
      var k :| 0 <= k < |spec| && Order(spec)[k] == y;
      ExprOfAt(spec, k);
      var e := spec[k].1;
      forall d | d in Deps(e, []).0 ensures Magnitude(d.1) <= Keep(longest, d.0) {
        SpecLabelsHave(spec, k, d);
        var i :| 0 <= i < |ls| && ls[i] == (y, d.0, d.1);
      }
      RecordedIsRetained(e, [], longest);
    }
  }

  lemma RunnableIsProductive(spec: Equations, keep: map<Name, nat>, rank: map<Name, nat>)
    requires Runnable(spec, rank) && Retaining(Exprs(spec), Order(spec), keep)
    ensures Productive(Exprs(spec), Order(spec), keep, rank)
  {
    var exprs := Exprs(spec);
    forall y | y in exprs ensures Below(exprs[y], rank, rank[y]) {
      var k :| 0 <= k < |spec| && Order(spec)[k] == y;
      ExprOfAt(spec, k);
    }
  }

  /** Where a label of the specification leads is a node of its graph. */
  lemma LabelTargets(g: DepGraph)
    requires g.Valid()
    ensures forall k :: 0 <= k < |g.Labels()| ==> g.Labels()[k].1 in g.nodes
  {
  }

  /** Builds the dependency graph of a specification and monitors an input with it. */
  method RunMonitor(spec: Equations, ins: seq<seq<(Name, Value)>>)
    returns (ok: bool, sent: seq<seq<Option<Value>>>, ghost longest: map<Name, nat>)
    requires Solvable(spec)
    ensures (forall y :: y in Order(spec) ==> y in Exprs(spec)) && (LooksBack(spec) ==> Retaining(Exprs(spec), Order(spec), longest))
    ensures var m := Counting(Start(Exprs(spec)), Order(spec), ins, longest, true, SendCounters.At(Order(spec), 0));
            ok == m.Some? && (ok ==> sent == m.value.0)
  {
    ExprsStatic(spec);
    var graph := new DepGraph(spec);
    var dependencies := graph.LongestTimeDependencies();
    longest := dependencies;
    LabelTargets(graph);
    if LooksBack(spec) { GraphRetains(spec, longest); }
    var runtime := new Runtime(Order(spec), Exprs(spec), dependencies);
    ok, sent := runtime.Monitor(ins);
  }

  /** What is sent is what a monitor sends that never forgets, if in that one nothing outlives its step. */
  method MonitorSpec(spec: Equations, ins: seq<seq<(Name, Value)>>) returns (ok: bool, sent: seq<seq<Option<Value>>>)
    requires LooksBack(spec)
    ensures forall y :: y in Order(spec) ==> y in Exprs(spec)
    ensures Prompt(Start(Exprs(spec)), Order(spec), ins, map[], false) ==>
              var all := Counting(Start(Exprs(spec)), Order(spec), ins, map[], false, SendCounters.At(Order(spec), 0));
              ok == all.Some? && (ok ==> sent == all.value.0)
  {
    ghost var longest;
    ok, sent, longest := RunMonitor(spec, ins);
    if Prompt(Start(Exprs(spec)), Order(spec), ins, map[], false) {
      KeepUnused(Start(Exprs(spec)), Order(spec), ins, longest, map[], SendCounters.At(Order(spec), 0));
      SendingIsUnaffected(Exprs(spec), Order(spec), ins, longest);
    }
  }

  /** If no output depends on itself within one instant, no operator's operands can change sides and
      constant folding does not panic, what is sent is what the specification denotes; and if the monitor
      panics, some output has no value. */
  method MonitorDenotation(spec: Equations, ins: seq<seq<(Name, Value)>>, ghost rank: map<Name, nat>, ghost top: nat)
    returns (ok: bool, sent: seq<seq<Option<Value>>>)
    requires Runnable(spec, rank) && AllOrdered(Exprs(spec), Order(spec)) && Foldable(Exprs(spec))
    requires (forall y :: y in rank ==> rank[y] < top) && forall i :: 0 <= i < |ins| ==> OnlyInputs(ins[i], Exprs(spec))
    ensures Solves(Meaning(Exprs(spec), rank, ins, top), Exprs(spec), ins, 0)
    ensures !ok ==> UndefinedWithin(Exprs(spec), Meaning(Exprs(spec), rank, ins, top), 0, |ins|)
    ensures ok ==> |sent| == |ins| && RightRows(sent, Order(spec), Meaning(Exprs(spec), rank, ins, top), 0)
  {
    ghost var longest;
    ok, sent, longest := RunMonitor(spec, ins);
    RunnableIsProductive(spec, longest, rank);
    ProductiveIsPrompt(Start(Exprs(spec)), Order(spec), ins, longest, rank, true);
    CountersAreTheClock(Start(Exprs(spec)), Order(spec), ins, longest, true);
    MeaningSolves(Exprs(spec), Order(spec), ins, longest, rank, top);
    MonitorComputesDenotation(Exprs(spec), Order(spec), ins, longest, rank, top);
  }

  /** A monitor that never forgets has no use for the retention. */
  lemma {:induction false} KeepUnused(s: State, order: seq<Name>, ins: seq<seq<(Name, Value)>>, a: map<Name, nat>, b: map<Name, nat>, next: seq<nat>)
    requires |next| == |order| && forall y :: y in order ==> y in s.exprs
    ensures Counting(s, order, ins, a, false, next) == Counting(s, order, ins, b, false, next)
    ensures Prompt(s, order, ins, a, false) <==> Prompt(s, order, ins, b, false)
    decreases |ins|
  {
    if ins != [] && Step(s, order, ins[0]).Some? {
      var s1 := Step(s, order, ins[0]).value.1;
      KeepUnused(s1, order, ins[1..], a, b, Advance(next, EmitNext(s1, order, next)));
    }
  }
}
