/** The dependency graph: a directed multigraph of time offsets between variables, merged and
    diffed in place as dependencies come and go. */
module DepGraphs {
  import opened Lang
  import opened Dependencies

  datatype Edge = Edge(source: nat, target: nat, weight: int)

  /** An edge by the names at its ends: where it comes from, where it goes, and its weight. */
  type Label = (Name, Name, int)

  ghost predicate WellFormed(nodes: seq<Name>, edges: seq<Edge>) {
    forall k :: 0 <= k < |edges| ==> edges[k].source < |nodes| && edges[k].target < |nodes|
  }

  ghost function LabelsOf(nodes: seq<Name>, edges: seq<Edge>): (ls: seq<Label>)
    requires WellFormed(nodes, edges)
    ensures |ls| == |edges|
  {
    seq(|edges|, k requires 0 <= k < |edges| => (nodes[edges[k].source], nodes[edges[k].target], edges[k].weight))
  }

  ghost function From(root: Name, ds: seq<Dep>): (ls: seq<Label>)
    ensures |ls| == |ds|
  {
    seq(|ds|, k requires 0 <= k < |ds| => (root, ds[k].0, ds[k].1))
  }

  lemma FromConcat(root: Name, a: seq<Dep>, b: seq<Dep>)
    ensures From(root, a + b) == From(root, a) + From(root, b)
  {
  }

  /** The variables that are read, in order, with repetitions. */
  ghost function ReadsOf(vs: seq<Visit>): seq<Name> {
    if vs == [] then [] else if vs[0].Read? then [vs[0].x] + ReadsOf(vs[1..]) else ReadsOf(vs[1..])
  }

  lemma {:induction false} ReadsConcat(a: seq<Visit>, b: seq<Visit>)
    ensures ReadsOf(a + b) == ReadsOf(a) + ReadsOf(b)
  {
    if a == [] {
      assert a + b == b;
    } else {
      ReadsConcat(a[1..], b);
      assert (a + b)[1..] == a[1..] + b && (a + b)[0] == a[0];
      if a[0].Read? { assert [a[0].x] + (ReadsOf(a[1..]) + ReadsOf(b)) == [a[0].x] + ReadsOf(a[1..]) + ReadsOf(b); }
    }
  }

  lemma WithoutOne<T>(s: seq<T>, i: nat)
    requires i < |s|
    ensures multiset(s[..i] + s[i + 1..]) == multiset(s) - multiset{s[i]}
  {
    assert s == s[..i] + ([s[i]] + s[i + 1..]);
    assert multiset([s[i]] + s[i + 1..]) == multiset{s[i]} + multiset(s[i + 1..]);
  }

  /** Removing the element at `i` by moving the last one into its place. */
  lemma SwapRemove<T>(s: seq<T>, i: nat)
    requires i < |s|
    ensures multiset(s[i := s[|s| - 1]][..|s| - 1]) == multiset(s) - multiset{s[i]}
  {
    var last := |s| - 1;
    var body := s[..last];
    assert s == body + [s[last]];
    if i == last {
      assert s[i := s[last]] == s;
    } else {
      assert s[i := s[last]][..last] == body[i := s[last]];
      assert s[i] == body[i] && s[i] in multiset(body);
    }
  }

  lemma TakeOneMore<T>(m: multiset<T>, s: seq<T>, i: nat)
    requires i < |s|
    ensures m - multiset(s[..i]) - multiset{s[i]} == m - multiset(s[..i + 1])
  {
    assert s[..i + 1] == s[..i] + [s[i]];
  }

  /** `n` is the longest of the weights into `x`, or 0 if there are none. */
  ghost predicate Longest(ls: seq<Label>, x: Name, n: nat) {
    && (forall k :: 0 <= k < |ls| && ls[k].1 == x ==> Magnitude(ls[k].2) <= n)
    && (n == 0 || exists k :: 0 <= k < |ls| && ls[k].1 == x && Magnitude(ls[k].2) == n)
  }

  class DepGraph {
    var nodes: seq<Name>
    var edges: seq<Edge>

    ghost predicate Valid()
      reads this
    {
      WellFormed(nodes, edges)
    }

    ghost function Labels(): seq<Label>
      reads this
      requires Valid()
    {
      LabelsOf(nodes, edges)
    }

    constructor Empty()
      ensures Valid() && nodes == [] && Labels() == []
    {
      nodes, edges := [], [];
    }

    method AddNode(name: Name) returns (index: nat)
      requires Valid()
      modifies this`nodes
      ensures Valid() && nodes == old(nodes) + [name] && index == |old(nodes)| && Labels() == old(Labels())
    {
      index := |nodes|;
      nodes := nodes + [name];
    }

    method AddEdge(source: nat, target: nat, weight: int)
      requires Valid() && source < |nodes| && target < |nodes|
      modifies this`edges
      ensures Valid() && Labels() == old(Labels()) + [(nodes[source], nodes[target], weight)]
      ensures edges == old(edges) + [Edge(source, target, weight)]
    {
      edges := edges + [Edge(source, target, weight)];
    }

    /** The last edge takes the index of the one that is removed. */
    method RemoveEdge(index: nat)
      requires Valid() && index < |edges|
      modifies this`edges
      ensures Valid() && multiset(Labels()) == old(multiset(Labels())) - multiset{old(Labels()[index])}
    {
      ghost var was := Labels();
      edges := edges[index := edges[|edges| - 1]][..|edges| - 1];
      assert Labels() == was[index := was[|was| - 1]][..|was| - 1];
      SwapRemove(was, index);
    }

    method FindEdgeWithWeight(source: nat, target: nat, weight: int) returns (index: Option<nat>)
      ensures index.Some? ==> index.value < |edges| && edges[index.value] == Edge(source, target, weight)
      ensures index.None? ==> Edge(source, target, weight) !in edges
    {
      for i := 0 to |edges|
        invariant Edge(source, target, weight) !in edges[..i]
      {
        if edges[i] == Edge(source, target, weight) { return Some(i); }
      }
      assert edges[..|edges|] == edges;
      return None;
    }

    /** The index of every name, adding the nodes of `other` that are not there yet. */
    method MapNodes(other: DepGraph) returns (index: map<Name, nat>)
      requires Valid() && Distinct(nodes) && other != this
      modifies this`nodes
      ensures Valid() && Distinct(nodes) && old(nodes) <= nodes && Labels() == old(Labels())
      ensures forall x :: x in nodes <==> x in old(nodes) || x in other.nodes
      ensures forall x :: x in index <==> x in nodes
      ensures forall x :: x in index ==> index[x] < |nodes| && nodes[index[x]] == x
    {
      index := map[];
      for i := 0 to |nodes|
        invariant forall x :: x in index <==> x in nodes[..i]
        invariant forall x :: x in index ==> index[x] < |nodes| && nodes[index[x]] == x
      {
        index := index[nodes[i] := i];
      }
      assert nodes[..|nodes|] == nodes;
      for i := 0 to |other.nodes|
        invariant Valid() && Distinct(nodes) && old(nodes) <= nodes && Labels() == old(Labels())
        invariant forall x :: x in nodes <==> x in old(nodes) || x in other.nodes[..i]
        invariant forall x :: x in index <==> x in nodes
        invariant forall x :: x in index ==> index[x] < |nodes| && nodes[index[x]] == x
      {
        var name := other.nodes[i];
        if name !in index {
          var k := AddNode(name);
          index := index[name := k];
        }
      }
      assert other.nodes[..|other.nodes|] == other.nodes;
    }

    /** Adds the nodes that are missing, once each, and every edge of `other`. */
    method MergeGraphs(other: DepGraph)
      requires Valid() && Distinct(nodes) && other != this && other.Valid()
      modifies this
      ensures Valid() && Distinct(nodes) && old(nodes) <= nodes
      ensures forall x :: x in nodes <==> x in old(nodes) || x in other.nodes
      ensures Labels() == old(Labels()) + other.Labels()
    {
      var index := MapNodes(other);
      ghost var ls := other.Labels();
      for i := 0 to |other.edges|
        invariant Valid() && Labels() == old(Labels()) + ls[..i]
        modifies this`edges
      {
        var edge := other.edges[i];
        AddEdge(index[other.nodes[edge.source]], index[other.nodes[edge.target]], edge.weight);
        assert ls[..i + 1] == ls[..i] + [ls[i]];
      }
      assert ls[..|other.edges|] == ls;
    }

    method RemoveIfPresent(source: nat, target: nat, weight: int)
      requires Valid() && Distinct(nodes) && source < |nodes| && target < |nodes|
      modifies this`edges
      ensures Valid() && multiset(Labels()) == old(multiset(Labels())) - multiset{(nodes[source], nodes[target], weight)}
    {
      var found := FindEdgeWithWeight(source, target, weight);
      match found
      case Some(k) =>
        assert Labels()[k] == (nodes[source], nodes[target], weight);
        RemoveEdge(k);
      case None =>
        NoSuchEdge(nodes, edges, source, target, weight);
    }

    /** Adds the nodes that are missing and takes every edge of `other` away once, if it is there. */
    method DiffGraphs(other: DepGraph)
      requires Valid() && Distinct(nodes) && other != this && other.Valid()
      modifies this
      ensures Valid() && Distinct(nodes) && old(nodes) <= nodes
      ensures forall x :: x in nodes <==> x in old(nodes) || x in other.nodes
      ensures multiset(Labels()) == old(multiset(Labels())) - multiset(other.Labels())
    {
      var index := MapNodes(other);
      ghost var ls := other.Labels();
      for i := 0 to |other.edges|
        invariant Valid() && multiset(Labels()) == old(multiset(Labels())) - multiset(ls[..i])
        modifies this`edges
      {
        var edge := other.edges[i];
        var source, target := index[other.nodes[edge.source]], index[other.nodes[edge.target]];
        RemoveIfPresent(source, target, edge.weight);
        assert ls[i] == (nodes[source], nodes[target], edge.weight);
        TakeOneMore(old(multiset(Labels())), ls, i);
      }
      assert ls[..|other.edges|] == ls;
    }

    method RecordRead(name: Name, steps: seq<int>, current: nat)
      requires Valid() && current < |nodes|
      modifies this
      ensures Valid() && nodes == old(nodes) + [name]
      ensures Labels() == old(Labels()) + From(nodes[current], ReadDeps(name, steps))
    {
      var node := AddNode(name);
      if steps == [] {
        AddEdge(current, node, 0);
      } else {
        ghost var ds := Offsets(name, steps);
        for i := 0 to |steps|
          invariant Valid() && Labels() == old(Labels()) + From(nodes[current], ds[..i])
          modifies this`edges
        {
          AddEdge(current, node, steps[i]);
          assert ds[..i + 1] == ds[..i] + [(name, steps[i])];
        }
        assert ds[..|steps|] == ds;
      }
    }

    /** The recursive traversal of an expression whose root is `current`. */
    method DepsImpl(e: SExpr, steps: seq<int>, current: nat) returns (steps': seq<int>)
      requires Valid() && current < |nodes|
      modifies this
      ensures Valid() && nodes == old(nodes) + ReadsOf(Trace(e))
      ensures Labels() == old(Labels()) + From(nodes[current], Deps(e, steps).0) && steps' == Deps(e, steps).1
      decreases e, 1
    {
      match e
      case Var(name) =>
        RecordRead(name, steps, current);
        steps' := steps;
        assert ReadsOf([Read(name)][1..]) == [];
      case SIndex(a, i) =>
        steps' := DepsImpl(a, steps + [i], current);
        assert Trace(e)[0] == Index(i) && Trace(e)[1..] == Trace(a);
      case _ =>
        steps' := ChildDepsImpl(e, steps, current);
    }

    method ChildDepsImpl(e: SExpr, steps: seq<int>, current: nat) returns (steps': seq<int>)
      requires Valid() && current < |nodes| && !e.Var? && !e.SIndex?
      modifies this
      ensures Valid() && nodes == old(nodes) + ReadsOf(ChildTrace(e, 0))
      ensures Labels() == old(Labels()) + From(nodes[current], ChildDeps(e, 0, steps).0) && steps' == ChildDeps(e, 0, steps).1
      decreases e, 0
    {
      steps' := steps;
      var es := Children(e);
      ghost var root, total := nodes[current], ReadsOf(ChildTrace(e, 0));
      for k := 0 to |es|
        invariant Valid() && current < |nodes| && nodes[current] == root
        invariant nodes + ReadsOf(ChildTrace(e, k)) == old(nodes) + total
        invariant Labels() + From(root, ChildDeps(e, k, steps').0) == old(Labels()) + From(root, ChildDeps(e, 0, steps).0)
        invariant ChildDeps(e, k, steps').1 == ChildDeps(e, 0, steps).1
      {
        ghost var s, before, ls := steps', nodes, Labels();
        steps' := DepsImpl(es[k], steps', current);
        ChildStep(e, k, s, root, before, ls);
      }
    }

    /** The dependencies of one equation, as a graph of its own; a variable read twice has two nodes. */
    static method SexprDependencies(e: SExpr, root: Name) returns (g: DepGraph)
      ensures fresh(g) && g.Valid() && g.nodes == [root] + ReadsOf(Trace(e)) && g.Labels() == From(root, Deps(e, []).0)
    {
      g := new DepGraph.Empty();
      var current := g.AddNode(root);
      var _ := g.DepsImpl(e, [], current);
    }

    /** The graph of a specification, given as its equations in order. */
    constructor (spec: seq<(Name, SExpr)>)
      ensures Valid() && Distinct(nodes) && Labels() == SpecLabels(spec)
      ensures forall x :: x in nodes <==> x in SpecNames(spec)
    {
      nodes, edges := [], [];
      new;
      for i := 0 to |spec|
        invariant Valid() && Distinct(nodes) && Labels() == SpecLabels(spec[..i])
        invariant forall x :: x in nodes <==> x in SpecNames(spec[..i])
      {
        var deps := SexprDependencies(spec[i].1, spec[i].0);
        MergeGraphs(deps);
        SpecGrows(spec, i);
      }
      assert spec[..|spec|] == spec;
    }

    method AddDependency(name: Name, e: SExpr)
      requires Valid() && Distinct(nodes)
      modifies this
      ensures Valid() && Distinct(nodes) && old(nodes) <= nodes
      ensures forall x :: x in nodes <==> x in old(nodes) || x in [name] + ReadsOf(Trace(e))
      ensures multiset(Labels()) == After(old(multiset(Labels())), Added(name, e))
    {
      var deps := SexprDependencies(e, name);
      MergeGraphs(deps);
    }

    method RemoveDependency(name: Name, e: SExpr)
      requires Valid() && Distinct(nodes)
      modifies this
      ensures Valid() && Distinct(nodes) && old(nodes) <= nodes
      ensures forall x :: x in nodes <==> x in old(nodes) || x in [name] + ReadsOf(Trace(e))
      ensures multiset(Labels()) == After(old(multiset(Labels())), Removed(name, e))
    {
      var deps := SexprDependencies(e, name);
      DiffGraphs(deps);
    }

    /** The longest weight into node `k`. */
    method LongestInto(k: nat) returns (longest: nat)
      requires Valid() && Distinct(nodes) && k < |nodes|
      ensures Longest(Labels(), nodes[k], longest)
    {
      longest := 0;
      for i := 0 to |edges|
        invariant forall j :: 0 <= j < i && edges[j].target == k ==> Magnitude(edges[j].weight) <= longest
        invariant longest == 0 || exists j :: 0 <= j < i && edges[j].target == k && Magnitude(edges[j].weight) == longest
      {
        if edges[i].target == k && longest < Magnitude(edges[i].weight) { longest := Magnitude(edges[i].weight); }
      }
      forall j | 0 <= j < |edges| && Labels()[j].1 == nodes[k] ensures edges[j].target == k {
        SameNode(nodes, edges[j].target, k);
      }
      if longest != 0 {
        var j :| 0 <= j < |edges| && edges[j].target == k && Magnitude(edges[j].weight) == longest;
        assert Labels()[j].1 == nodes[k] && Magnitude(Labels()[j].2) == longest;
      }
    }

    method LongestTimeDependency(name: Name) returns (longest: Option<nat>)
      requires Valid() && Distinct(nodes)
      ensures longest.None? <==> name !in nodes
      ensures longest.Some? ==> Longest(Labels(), name, longest.value)
    {
      for i := 0 to |nodes|
        invariant name !in nodes[..i]
      {
        if nodes[i] == name {
          var n := LongestInto(i);
          return Some(n);
        }
      }
      assert nodes[..|nodes|] == nodes;
      return None;
    }

    method LongestTimeDependencies() returns (longest: map<Name, nat>)
      requires Valid() && Distinct(nodes)
      ensures forall x :: x in longest <==> x in nodes
      ensures forall x :: x in longest ==> Longest(Labels(), x, longest[x])
    {
      longest := map[];
      for i := 0 to |nodes|
        invariant forall x :: x in longest <==> x in nodes[..i]
        invariant forall x :: x in longest ==> Longest(Labels(), x, longest[x])
      {
        var n := LongestInto(i);
        longest := longest[nodes[i] := n];
      }
      assert nodes[..|nodes|] == nodes;
    }
  }

  lemma AppendAssociates<T>(a: seq<T>, b: seq<T>, c: seq<T>)
    ensures a + b + c == a + (b + c)
  {
  }

  lemma ChildStep(e: SExpr, k: nat, steps: seq<int>, root: Name, nodes: seq<Name>, ls: seq<Label>)
    requires !e.Var? && !e.SIndex? && k < |Children(e)|
    ensures var (c, s) := (Children(e)[k], Deps(Children(e)[k], steps).1);
            && nodes + ReadsOf(Trace(c)) + ReadsOf(ChildTrace(e, k + 1)) == nodes + ReadsOf(ChildTrace(e, k))
            && ls + From(root, Deps(c, steps).0) + From(root, ChildDeps(e, k + 1, s).0) == ls + From(root, ChildDeps(e, k, steps).0)
            && ChildDeps(e, k + 1, s).1 == ChildDeps(e, k, steps).1
  {
    var c := Children(e)[k];
    var s := Deps(c, steps).1;
    ReadsConcat(Trace(c), ChildTrace(e, k + 1));
    FromConcat(root, Deps(c, steps).0, ChildDeps(e, k + 1, s).0);
    AppendAssociates(nodes, ReadsOf(Trace(c)), ReadsOf(ChildTrace(e, k + 1)));
    AppendAssociates(ls, From(root, Deps(c, steps).0), From(root, ChildDeps(e, k + 1, s).0));
  }

  lemma NoSuchEdge(nodes: seq<Name>, edges: seq<Edge>, source: nat, target: nat, weight: int)
    requires WellFormed(nodes, edges) && Distinct(nodes) && source < |nodes| && target < |nodes|
    requires Edge(source, target, weight) !in edges
    ensures (nodes[source], nodes[target], weight) !in LabelsOf(nodes, edges)
  {
    forall k | 0 <= k < |edges| ensures LabelsOf(nodes, edges)[k] != (nodes[source], nodes[target], weight) {
      if nodes[edges[k].source] == nodes[source] { SameNode(nodes, edges[k].source, source); }
      if nodes[edges[k].target] == nodes[target] { SameNode(nodes, edges[k].target, target); }
    }
  }

  lemma SameNode(nodes: seq<Name>, i: nat, j: nat)
    requires Distinct(nodes) && i < |nodes| && j < |nodes| && nodes[i] == nodes[j]
    ensures i == j
  {
  }

  // ---------------------------------------------------------------------------------------------
  // Specifications and runs of changes
  // ---------------------------------------------------------------------------------------------

  ghost function SpecLabels(spec: seq<(Name, SExpr)>): seq<Label> {
    if spec == [] then [] else
      var n := |spec| - 1;
      SpecLabels(spec[..n]) + From(spec[n].0, Deps(spec[n].1, []).0)
  }

  ghost function SpecNames(spec: seq<(Name, SExpr)>): seq<Name> {
    if spec == [] then [] else
      var n := |spec| - 1;
      SpecNames(spec[..n]) + ([spec[n].0] + ReadsOf(Trace(spec[n].1)))
  }

  lemma SpecGrows(spec: seq<(Name, SExpr)>, i: nat)
    requires i < |spec|
    ensures SpecLabels(spec[..i + 1]) == SpecLabels(spec[..i]) + From(spec[i].0, Deps(spec[i].1, []).0)
    ensures SpecNames(spec[..i + 1]) == SpecNames(spec[..i]) + ([spec[i].0] + ReadsOf(Trace(spec[i].1)))
  {
    assert spec[..i + 1][..i] == spec[..i];
  }

  lemma {:induction false} SpecLabelsHave(spec: seq<(Name, SExpr)>, k: nat, d: Dep)
    requires k < |spec| && d in Deps(spec[k].1, []).0
    ensures (spec[k].0, d.0, d.1) in SpecLabels(spec)
  {
    var n := |spec| - 1;
    if k == n {
      var ds := Deps(spec[n].1, []).0;
      var i :| 0 <= i < |ds| && ds[i] == d;
      assert From(spec[n].0, ds)[i] == (spec[n].0, d.0, d.1);
    } else {
      SpecLabelsHave(spec[..n], k, d);
    }
  }

  datatype Change = Added(name: Name, e: SExpr) | Removed(name: Name, e: SExpr)

  ghost function Weighing(name: Name, e: SExpr): multiset<Label> { multiset(From(name, Deps(e, []).0)) }

  /** The edges after a change: removing takes away what is there, and no more. */
  ghost function After(edges: multiset<Label>, c: Change): multiset<Label> {
    match c
    case Added(name, e) => edges + Weighing(name, e)
    case Removed(name, e) => edges - Weighing(name, e)
  }

  ghost function AfterAll(edges: multiset<Label>, cs: seq<Change>): multiset<Label> {
    if cs == [] then edges else After(AfterAll(edges, cs[..|cs| - 1]), cs[|cs| - 1])
  }

  /** How often the changes add an edge, less how often they remove it. */
  ghost function Net(cs: seq<Change>, l: Label): int {
    if cs == [] then 0 else Net(cs[..|cs| - 1], l) + Delta(cs[|cs| - 1], l)
  }

  ghost function Delta(c: Change, l: Label): int {
    var n: int := Weighing(c.name, c.e)[l];
    if c.Added? then n else -n
  }

  /** The account of a whole run is exact, at every point and for every edge, if and only if the run
      never removes an edge more often than it is there. */
  lemma RunIsNet(edges: multiset<Label>, cs: seq<Change>)
    ensures (forall n: nat, l: Label :: n <= |cs| ==> AfterAll(edges, cs[..n])[l] == edges[l] + Net(cs[..n], l))
       <==> (forall n: nat, l: Label :: n <= |cs| ==> 0 <= edges[l] + Net(cs[..n], l))
  {
    if forall n: nat, l: Label :: n <= |cs| ==> 0 <= edges[l] + Net(cs[..n], l) {
      forall n: nat, l: Label | n <= |cs| ensures AfterAll(edges, cs[..n])[l] == edges[l] + Net(cs[..n], l) {
        NetPrefix(edges, cs, n, l);
      }
    } else {
      var n: nat, l: Label :| n <= |cs| && edges[l] + Net(cs[..n], l) < 0;
      assert 0 <= AfterAll(edges, cs[..n])[l];
    }
  }

  lemma {:induction false} NetPrefix(edges: multiset<Label>, cs: seq<Change>, n: nat, l: Label)
    requires n <= |cs| && forall m: nat, k: Label :: m <= |cs| ==> 0 <= edges[k] + Net(cs[..m], k)
    ensures AfterAll(edges, cs[..n])[l] == edges[l] + Net(cs[..n], l)
  {
    if n != 0 {
      NetPrefix(edges, cs, n - 1, l);
      assert cs[..n][..n - 1] == cs[..n - 1];
      assert 0 <= edges[l] + Net(cs[..n], l);
    }
  }

  /** Removing a dependency before it is added is not undone by adding it. */
  lemma RemoveFirst(name: Name, x: Name)
    ensures var (add, remove) := (Added(name, Var(x)), Removed(name, Var(x)));
            After(After(multiset{}, remove), add) != After(After(multiset{}, add), remove)
  {
    assert Deps(Var(x), []).0 == [(x, 0)];
    assert From(name, Deps(Var(x), []).0) == [(name, x, 0)];
  }

  // Dependencies that are added and later removed, in whatever order, leave the edges as they were.

  type Equation = (Name, SExpr)

  ghost function Adding(qs: seq<Equation>, edges: multiset<Label>): multiset<Label> {
    if qs == [] then edges else Adding(qs[1..], After(edges, Added(qs[0].0, qs[0].1)))
  }

  ghost function Removing(qs: seq<Equation>, edges: multiset<Label>): multiset<Label> {
    if qs == [] then edges else Removing(qs[1..], After(edges, Removed(qs[0].0, qs[0].1)))
  }

  ghost function Total(qs: seq<Equation>): multiset<Label> {
    if qs == [] then multiset{} else Weighing(qs[0].0, qs[0].1) + Total(qs[1..])
  }

  lemma {:induction false} AddingTotal(qs: seq<Equation>, edges: multiset<Label>)
    ensures Adding(qs, edges) == edges + Total(qs)
  {
    if qs != [] { AddingTotal(qs[1..], After(edges, Added(qs[0].0, qs[0].1))); }
  }

  lemma {:induction false} RemovingTotal(qs: seq<Equation>, edges: multiset<Label>)
    ensures Removing(qs, edges) == edges - Total(qs)
  {
    if qs != [] { RemovingTotal(qs[1..], After(edges, Removed(qs[0].0, qs[0].1))); }
  }

  lemma {:induction false} TotalWithout(qs: seq<Equation>, k: nat)
    requires k < |qs|
    ensures Total(qs) == Weighing(qs[k].0, qs[k].1) + Total(qs[..k] + qs[k + 1..])
  {
    if k == 0 {
      assert qs[..0] + qs[1..] == qs[1..];
    } else {
      TotalWithout(qs[1..], k - 1);
      assert (qs[..k] + qs[k + 1..])[1..] == qs[1..][..k - 1] + qs[1..][k..];
    }
  }

  lemma {:induction false} TotalReordered(ps: seq<Equation>, qs: seq<Equation>)
    requires multiset(ps) == multiset(qs)
    ensures Total(ps) == Total(qs)
    decreases |ps|
  {
    if ps == [] {
      assert |multiset(qs)| == 0;
    } else {
      assert ps[0] in multiset(qs);
      var k :| 0 <= k < |qs| && qs[k] == ps[0];
      WithoutOne(qs, k);
      WithoutOne(ps, 0);
      assert ps[..0] + ps[1..] == ps[1..];
      TotalReordered(ps[1..], qs[..k] + qs[k + 1..]);
      TotalWithout(qs, k);
    }
  }

  lemma RemovingRestores(adds: seq<Equation>, removes: seq<Equation>, edges: multiset<Label>)
    requires multiset(adds) == multiset(removes)
    ensures Removing(removes, Adding(adds, edges)) == edges
  {
    AddingTotal(adds, edges);
    RemovingTotal(removes, Adding(adds, edges));
    TotalReordered(adds, removes);
  }
}
