/** The enumeration of all placements of variables on locations, and of the labelled distribution
    graphs that they give. */
module Assignments {
  import opened Lang
  import opened Sublists

  type Assignment = map<Name, Name>

  /** The state of the iterator: exhausted, holding at most the empty assignment, or extending what an
      iterator over the remaining variables yields by all locations of its first variable. */
  datatype Iter =
    | Done
    | Base(item: Option<Assignment>)
    | Rec(rest: Iter, locations: seq<Name>, first: Name, current: Option<Assignment>, locs: seq<Name>)

  function Depth(it: Iter): nat { if it.Rec? then 1 + Depth(it.rest) else 0 }

  function New(locations: seq<Name>, vars: seq<Name>): Iter {
    if vars == [] then Base(Some(map[])) else Rec(New(locations, vars[1..]), locations, vars[0], None, [])
  }

  // ---------------------------------------------------------------------------------------------
  // What is still to come
  // ---------------------------------------------------------------------------------------------

  ghost function Extend(a: Assignment, first: Name, locs: seq<Name>): (r: seq<Assignment>)
    ensures |r| == |locs|
  {
    seq(|locs|, i requires 0 <= i < |locs| => a[first := locs[i]])
  }

  ghost function ExtendAll(as_: seq<Assignment>, first: Name, locs: seq<Name>): seq<Assignment> {
    if as_ == [] then [] else Extend(as_[0], first, locs) + ExtendAll(as_[1..], first, locs)
  }

  ghost function Remaining(it: Iter): seq<Assignment> {
    match it
    case Done => []
    case Base(item) => if item.Some? then [item.value] else []
    case Rec(rest, locations, first, current, locs) =>
      (if current.Some? then Extend(current.value, first, locs) else []) + ExtendAll(Remaining(rest), first, locations)
  }

  /** The next assignment, with the state after it. */
  method NextOf(it: Iter) returns (item: Option<Assignment>, after: Iter)
    ensures Depth(after) <= Depth(it)
    ensures Remaining(it) == [] ==> item == None && Remaining(after) == []
    ensures Remaining(it) != [] ==> item == Some(Remaining(it)[0]) && Remaining(after) == Remaining(it)[1..]
    decreases Depth(it)
  {
    match it
    case Done => return None, Done;
    case Base(i) => return i, Base(None);
    case Rec(rest0, locations, first, current0, locs0) =>
      var rest, current, locs := rest0, current0, locs0;
      while true
        invariant Depth(rest) < Depth(it) && Remaining(Rec(rest, locations, first, current, locs)) == Remaining(it)
        decreases |Remaining(rest)|
      {
        if current.Some? && locs != [] {
          ExtendStep(current.value, first, locs);
          ghost var more := ExtendAll(Remaining(rest), first, locations);
          assert (Extend(current.value, first, locs) + more)[1..] == Extend(current.value, first, locs[1..]) + more;
          return Some(current.value[first := locs[0]]), Rec(rest, locations, first, current, locs[1..]);
        }
        ghost var before := Remaining(rest);
        assert Remaining(it) == ExtendAll(before, first, locations);
        var next, rest' := NextOf(rest);
        rest := rest';
        match next
        case Some(a) =>
          current, locs := Some(a), locations;
        case None =>
          return None, Done;
      }
  }

  lemma ExtendStep(a: Assignment, first: Name, locs: seq<Name>)
    requires locs != []
    ensures Extend(a, first, locs) == [a[first := locs[0]]] + Extend(a, first, locs[1..])
  {
  }

  class VarAssignmentsIter {
    var it: Iter

    constructor (locations: seq<Name>, vars: seq<Name>)
      ensures it == New(locations, vars)
    {
      it := New(locations, vars);
    }

    method Next() returns (item: Option<Assignment>)
      modifies this
      ensures item == if old(Remaining(it)) == [] then None else Some(old(Remaining(it))[0])
      ensures Remaining(it) == if old(Remaining(it)) == [] then [] else old(Remaining(it))[1..]
    {
      item, it := NextOf(it);
    }

    /** Takes items until there are none; there are none ever after. */
    method Collect() returns (items: seq<Assignment>)
      modifies this
      ensures items == old(Remaining(it)) && Remaining(it) == []
    {
      items := [];
      ghost var all := Remaining(it);
      var item := Next();
      while item.Some?
        invariant item.Some? ==> items + ([item.value] + Remaining(it)) == all
        invariant item.None? ==> items == all && Remaining(it) == []
        decreases |Remaining(it)| + if item.Some? then 1 else 0
      {
        Shift(items, item.value, Remaining(it));
        items := items + [item.value];
        item := Next();
      }
    }
  }

  lemma Shift(items: seq<Assignment>, a: Assignment, rest: seq<Assignment>)
    ensures items + ([a] + rest) == items + [a] + rest
    ensures rest == [] ==> items + [a] + rest == items + [a]
    ensures rest != [] ==> rest == [rest[0]] + rest[1..]
  {
  }

  // ---------------------------------------------------------------------------------------------
  // Every placement, exactly once
  // ---------------------------------------------------------------------------------------------

  /** `a` places exactly the variables `vars`, each on one of the locations. */
  ghost predicate Places(a: Assignment, vars: seq<Name>, locations: seq<Name>) {
    (forall v :: v in a <==> v in vars) && forall v :: v in a ==> a[v] in locations
  }

  ghost predicate NoRepeats(s: seq<Assignment>) { forall i, j :: 0 <= i < j < |s| ==> s[i] != s[j] }

  lemma {:induction false} ExtendAllHas(as_: seq<Assignment>, first: Name, locs: seq<Name>, b: Assignment)
    ensures b in ExtendAll(as_, first, locs) <==> exists a, l :: a in as_ && l in locs && b == a[first := l]
  {
    if as_ != [] {
      var head, tail := Extend(as_[0], first, locs), ExtendAll(as_[1..], first, locs);
      ExtendAllHas(as_[1..], first, locs, b);
      if b in head {
        var i :| 0 <= i < |head| && head[i] == b;
        assert as_[0] in as_ && locs[i] in locs && b == as_[0][first := locs[i]];
      }
      if a, l :| a in as_[1..] && l in locs && b == a[first := l] { assert a in as_; }
      if a, l :| a in as_ && l in locs && b == a[first := l] {
        if a == as_[0] {
          var i :| 0 <= i < |locs| && locs[i] == l;
          assert head[i] == b;
        } else {
          assert a in as_[1..];
        }
      }
    }
  }

  /** Placing the variables is placing all but the first of them, and then the first. */
  lemma PlacesSplit(a: Assignment, vars: seq<Name>, locations: seq<Name>)
    requires vars != [] && Distinct(vars)
    ensures Places(a, vars, locations) <==>
            exists b, l :: Places(b, vars[1..], locations) && l in locations && a == b[vars[0] := l]
  {
    var (first, rest) := (vars[0], vars[1..]);
    assert vars == [first] + rest && first !in rest;
    if Places(a, vars, locations) {
      var b := a - {first};
      assert Places(b, rest, locations) && a == b[first := a[first]];
    }
    if b, l :| Places(b, rest, locations) && l in locations && a == b[first := l] {
      forall v ensures v in a <==> v in vars { assert v in a <==> v in b || v == first; }
    }
  }

  /** What a new iterator yields is what places the variables on the locations. */
  lemma {:induction false} YieldsPlacements(locations: seq<Name>, vars: seq<Name>, a: Assignment)
    requires Distinct(vars)
    ensures a in Remaining(New(locations, vars)) <==> Places(a, vars, locations)
  {
    if vars == [] {
      assert Places(a, vars, locations) ==> a == map[];
    } else {
      NewExtends(locations, vars);
      ExtendAllHas(Remaining(New(locations, vars[1..])), vars[0], locations, a);
      forall b ensures b in Remaining(New(locations, vars[1..])) <==> Places(b, vars[1..], locations) {
        YieldsPlacements(locations, vars[1..], b);
      }
      PlacesSplit(a, vars, locations);
    }
  }

  lemma NewExtends(locations: seq<Name>, vars: seq<Name>)
    requires vars != []
    ensures Remaining(New(locations, vars)) == ExtendAll(Remaining(New(locations, vars[1..])), vars[0], locations)
  {
  }

  lemma ExtendInjective(a: Assignment, b: Assignment, first: Name, l: Name, m: Name)
    requires first !in a && first !in b && a[first := l] == b[first := m]
    ensures a == b && l == m
  {
    assert a[first := l][first] == l && b[first := m][first] == m;
    assert a == a[first := l] - {first} && b == b[first := m] - {first};
  }

  /** Extending different assignments, or one by different locations, gives different results. */
  lemma ExtendDiffers(a: Assignment, b: Assignment, first: Name, l: Name, m: Name)
    requires first !in a && first !in b && (a != b || l != m)
    ensures a[first := l] != b[first := m]
  {
    if a[first := l] == b[first := m] { ExtendInjective(a, b, first, l, m); }
  }

  lemma {:induction false} ExtendAllNoRepeats(as_: seq<Assignment>, first: Name, locs: seq<Name>)
    requires NoRepeats(as_) && Distinct(locs) && forall a :: a in as_ ==> first !in a
    ensures NoRepeats(ExtendAll(as_, first, locs))
  {
    if as_ != [] {
      var head, tail := Extend(as_[0], first, locs), ExtendAll(as_[1..], first, locs);
      ExtendAllNoRepeats(as_[1..], first, locs);
      forall i, j | 0 <= i < j < |head| ensures head[i] != head[j] {
        ExtendDiffers(as_[0], as_[0], first, locs[i], locs[j]);
      }
      forall i, j | 0 <= i < |head| && 0 <= j < |tail| ensures head[i] != tail[j] {
        ExtendAllHas(as_[1..], first, locs, tail[j]);
        var a, l :| a in as_[1..] && l in locs && tail[j] == a[first := l];
        var k :| 0 <= k < |as_[1..]| && as_[1..][k] == a;
        assert as_[0] != as_[k + 1];
        ExtendDiffers(as_[0], a, first, locs[i], l);
      }
      Join(head, tail);
    }
  }

  lemma Join(a: seq<Assignment>, b: seq<Assignment>)
    requires NoRepeats(a) && NoRepeats(b) && forall i, j :: 0 <= i < |a| && 0 <= j < |b| ==> a[i] != b[j]
    ensures NoRepeats(a + b)
  {
  }

  lemma {:induction false} YieldsOnce(locations: seq<Name>, vars: seq<Name>)
    requires Distinct(vars) && Distinct(locations)
    ensures NoRepeats(Remaining(New(locations, vars)))
  {
    if vars != [] {
      var (first, rest) := (vars[0], vars[1..]);
      var as_ := Remaining(New(locations, rest));
      NewExtends(locations, vars);
      YieldsOnce(locations, rest);
      forall a | a in as_ ensures first !in a {
        YieldsPlacements(locations, rest, a);
        assert vars == [first] + rest && first !in rest;
      }
      ExtendAllNoRepeats(as_, first, locations);
    }
  }

  function Power(b: nat, n: nat): nat { if n == 0 then 1 else b * Power(b, n - 1) }

  lemma {:induction false} ExtendAllSize(as_: seq<Assignment>, first: Name, locs: seq<Name>)
    ensures |ExtendAll(as_, first, locs)| == |locs| * |as_|
  {
    if as_ != [] {
      ExtendAllSize(as_[1..], first, locs);
      assert |locs| * |as_| == |locs| + |locs| * (|as_| - 1);
    }
  }

  lemma {:induction false} YieldsPower(locations: seq<Name>, vars: seq<Name>)
    ensures |Remaining(New(locations, vars))| == Power(|locations|, |vars|)
  {
    if vars != [] {
      YieldsPower(locations, vars[1..]);
      ExtendAllSize(Remaining(New(locations, vars[1..])), vars[0], locations);
    }
  }

  lemma DivIs(k: nat, n: nat, q: nat, r: nat)
    requires r < n && k == q * n + r
    ensures k / n == q && k % n == r
  {
    var p := k / n;
    assert k == p * n + k % n;
    if p < q { AtLeast(q - p, n); } else if q < p { AtLeast(p - q, n); }
  }

  lemma AtLeast(d: nat, n: nat)
    requires 0 < d
    ensures n <= d * n
  {
  }

  lemma DivNext(k: nat, n: nat)
    requires 0 < n
    ensures if k < n then k / n == 0 && k % n == k else k / n == (k - n) / n + 1 && k % n == (k - n) % n
  {
    if k < n {
      DivIs(k, n, 0, k);
    } else {
      var q := (k - n) / n;
      assert k - n == q * n + (k - n) % n;
      DivIs(k, n, q + 1, (k - n) % n);
    }
  }

  lemma {:induction false} ExtendAllAt(as_: seq<Assignment>, first: Name, locs: seq<Name>, k: nat)
    requires locs != [] && k < |ExtendAll(as_, first, locs)|
    ensures k / |locs| < |as_| && ExtendAll(as_, first, locs)[k] == as_[k / |locs|][first := locs[k % |locs|]]
  {
    DivNext(k, |locs|);
    if |locs| <= k { ExtendAllAt(as_[1..], first, locs, k - |locs|); }
  }

  /** The `i`-th digit of `k`, written in base `n` with the lowest digit first. */
  function Digit(k: nat, n: nat, i: nat): nat
    requires 0 < n
    decreases i
  {
    if i == 0 then k % n else Digit(k / n, n, i - 1)
  }

  /** The order in which they come: like numbers that are counted up, the first variable as the lowest
      digit. */
  lemma {:induction false} YieldsInOrder(locations: seq<Name>, vars: seq<Name>, k: nat, i: nat)
    requires Distinct(vars) && locations != [] && k < |Remaining(New(locations, vars))| && i < |vars|
    ensures var (a, d) := (Remaining(New(locations, vars))[k], Digit(k, |locations|, i));
            d < |locations| && vars[i] in a && a[vars[i]] == locations[d]
    decreases |vars|
  {
    var (first, rest) := (vars[0], vars[1..]);
    NewExtends(locations, vars);
    ExtendAllAt(Remaining(New(locations, rest)), first, locations, k);
    if i > 0 {
      assert vars[0] != vars[i] && rest[i - 1] == vars[i];
      YieldsInOrder(locations, rest, k / |locations|, i - 1);
    }
  }

  /** All placements of the variables on the locations, each exactly once: also for no variables, with
      one placement, and for no locations, with none unless there are no variables either. */
  method PossibleVarAssignments(locations: seq<Name>, vars: seq<Name>) returns (all: seq<Assignment>)
    requires Distinct(vars) && Distinct(locations)
    ensures forall a :: a in all <==> Places(a, vars, locations)
    ensures NoRepeats(all) && |all| == Power(|locations|, |vars|)
    ensures forall k: nat, i: nat :: k < |all| && i < |vars| && locations != [] ==>
              Digit(k, |locations|, i) < |locations| && vars[i] in all[k] && all[k][vars[i]] == locations[Digit(k, |locations|, i)]
  {
    var iter := new VarAssignmentsIter(locations, vars);
    all := iter.Collect();
    forall a ensures a in all <==> Places(a, vars, locations) { YieldsPlacements(locations, vars, a); }
    YieldsOnce(locations, vars);
    YieldsPower(locations, vars);
    forall k: nat, i: nat | k < |all| && i < |vars| && locations != []
      ensures Digit(k, |locations|, i) < |locations| && vars[i] in all[k] && all[k][vars[i]] == locations[Digit(k, |locations|, i)]
    {
      YieldsInOrder(locations, vars, k, i);
    }
  }

  // ---------------------------------------------------------------------------------------------
  // Labelled graphs
  // ---------------------------------------------------------------------------------------------

  /** The nodes of a distribution graph, by name, and which of them is the central one. */
  datatype Graph = Graph(nodes: seq<Name>, central: nat)

  function IndexOf(nodes: seq<Name>, name: Name): Option<nat> {
    if nodes == [] then None
    else if nodes[0] == name then Some(0)
    else match IndexOf(nodes[1..], name) case None => None case Some(i) => Some(i + 1)
  }

  function At(vars: seq<Name>, a: Assignment, loc: Name): seq<Name>
    requires forall v :: v in vars ==> v in a
  {
    if vars == [] then [] else if a[vars[0]] == loc then [vars[0]] + At(vars[1..], a, loc) else At(vars[1..], a, loc)
  }

  /** The labels of the locations in order, later ones overwriting earlier ones. */
  function LabelsOf(g: Graph, locations: seq<Name>, vars: seq<Name>, a: Assignment): map<nat, seq<Name>>
    requires (forall l :: l in locations ==> l in g.nodes) && forall v :: v in vars ==> v in a
  {
    if locations == [] then map[]
    else
      var n := |locations| - 1;
      IndexFound(g.nodes, locations[n]);
      LabelsOf(g, locations[..n], vars, a)[IndexOf(g.nodes, locations[n]).value := At(vars, a, locations[n])]
  }

  /** The labels of the graph for an assignment, the central node's own variables chained at the end. */
  function NodeLabels(g: Graph, central: seq<Name>, vars: seq<Name>, a: Assignment): map<nat, seq<Name>>
    requires forall v :: v in vars ==> v in a
  {
    LabelsOf(g, g.nodes, vars, a)[g.central := central]
  }

  lemma {:induction false} IndexFound(nodes: seq<Name>, name: Name)
    ensures IndexOf(nodes, name).Some? <==> name in nodes
    ensures IndexOf(nodes, name).Some? ==> IndexOf(nodes, name).value < |nodes| && nodes[IndexOf(nodes, name).value] == name
  {
    if nodes != [] { IndexFound(nodes[1..], name); }
  }

  lemma {:induction false} IndexIsOwn(nodes: seq<Name>, i: nat)
    requires Distinct(nodes) && i < |nodes|
    ensures IndexOf(nodes, nodes[i]) == Some(i)
  {
    if i != 0 { IndexIsOwn(nodes[1..], i - 1); }
  }

  lemma {:induction false} LabelsPrefix(g: Graph, n: nat, vars: seq<Name>, a: Assignment)
    requires Distinct(g.nodes) && n <= |g.nodes| && forall v :: v in vars ==> v in a
    ensures var ls := LabelsOf(g, g.nodes[..n], vars, a);
            (forall i: nat :: i in ls <==> i < n) && forall i: nat :: i in ls ==> ls[i] == At(vars, a, g.nodes[i])
  {
    if n != 0 {
      assert g.nodes[..n][..n - 1] == g.nodes[..n - 1] && g.nodes[..n][n - 1] == g.nodes[n - 1];
      LabelsPrefix(g, n - 1, vars, a);
      IndexIsOwn(g.nodes, n - 1);
    }
  }

  lemma {:induction false} AtHas(vars: seq<Name>, a: Assignment, loc: Name, v: Name)
    requires forall w :: w in vars ==> w in a
    ensures v in At(vars, a, loc) <==> v in vars && a[v] == loc
  {
    if vars != [] { AtHas(vars[1..], a, loc, v); }
  }

  /** The variables placed on a location. */
  ghost function PlacedOn(a: Assignment, vars: seq<Name>, loc: Name): set<Name> { set v | v in vars && v in a && a[v] == loc }

  lemma {:induction false} AtPicks(vars: seq<Name>, a: Assignment, loc: Name, placed: set<Name>)
    requires forall v :: v in vars ==> v in a && (v in placed <==> a[v] == loc)
    ensures Picks(vars, placed, At(vars, a, loc))
  {
    if vars == [] {
      PicksNone(placed);
    } else {
      AtPicks(vars[1..], a, loc, placed);
      PicksOne(vars, placed, At(vars[1..], a, loc));
    }
  }

  /** Every node has a label, the central one exactly its own variables; the label of any other node lists
      the variables placed there, in their order, each as often as it occurs among the variables, and so
      contains a variable if and only if it is placed there. */
  lemma LabelsAreRight(g: Graph, central: seq<Name>, vars: seq<Name>, a: Assignment, i: nat, v: Name)
    requires Distinct(g.nodes) && g.central < |g.nodes| && Places(a, vars, g.nodes)
    ensures var ls := NodeLabels(g, central, vars, a);
            && (i in ls <==> i < |g.nodes|) && ls[g.central] == central
            && (i < |g.nodes| && i != g.central ==>
                && Picks(vars, PlacedOn(a, vars, g.nodes[i]), ls[i])
                && (v in ls[i] <==> v in vars && a[v] == g.nodes[i]))
  {
    assert g.nodes[..|g.nodes|] == g.nodes;
    LabelsPrefix(g, |g.nodes|, vars, a);
    if i < |g.nodes| {
      AtHas(vars, a, g.nodes[i], v);
      AtPicks(vars, a, g.nodes[i], PlacedOn(a, vars, g.nodes[i]));
    }
  }

  /** A variable placed on another node than the central one is in that node's label, and in no other
      label than perhaps the central one's. */
  lemma PlacedOnce(g: Graph, central: seq<Name>, vars: seq<Name>, a: Assignment, v: Name, i: nat, j: nat)
    requires Distinct(g.nodes) && g.central < |g.nodes| && Places(a, vars, g.nodes) && v in vars
    requires i < |g.nodes| && a[v] == g.nodes[i] && i != g.central && j < |g.nodes| && j != g.central
    ensures var ls := NodeLabels(g, central, vars, a); j in ls && (v in ls[j] <==> j == i)
  {
    LabelsAreRight(g, central, vars, a, j, v);
    IndexIsOwn(g.nodes, i);
    IndexIsOwn(g.nodes, j);
  }

  /** The labels are those of some placement. */
  ghost predicate Labelling(g: Graph, central: seq<Name>, vars: seq<Name>, labels: map<nat, seq<Name>>) {
    exists a :: Places(a, vars, g.nodes) && labels == NodeLabels(g, central, vars, a)
  }

  function AllLabels(g: Graph, central: seq<Name>, vars: seq<Name>, all: seq<Assignment>): (r: seq<map<nat, seq<Name>>>)
    requires forall k :: 0 <= k < |all| ==> Places(all[k], vars, g.nodes)
    ensures |r| == |all|
  {
    seq(|all|, k requires 0 <= k < |all| && Places(all[k], vars, g.nodes) => NodeLabels(g, central, vars, all[k]))
  }

  lemma AllLabelsHave(g: Graph, central: seq<Name>, vars: seq<Name>, all: seq<Assignment>, labels: map<nat, seq<Name>>)
    requires forall k :: 0 <= k < |all| ==> Places(all[k], vars, g.nodes)
    requires forall a :: a in all <==> Places(a, vars, g.nodes)
    ensures labels in AllLabels(g, central, vars, all) <==> Labelling(g, central, vars, labels)
  {
    var r := AllLabels(g, central, vars, all);
    if labels in r {
      var k :| 0 <= k < |r| && r[k] == labels;
      assert all[k] in all && Places(all[k], vars, g.nodes);
    }
    if Labelling(g, central, vars, labels) {
      var a :| Places(a, vars, g.nodes) && labels == NodeLabels(g, central, vars, a);
      var k :| 0 <= k < |all| && all[k] == a;
      assert r[k] == labels;
    }
  }

  /** All labelled graphs: one for each placement, and no others. */
  method PossibleLabelledDistGraphs(g: Graph, central: seq<Name>, vars: seq<Name>) returns (labels: seq<map<nat, seq<Name>>>)
    requires Distinct(g.nodes) && Distinct(vars) && g.central < |g.nodes|
    ensures |labels| == Power(|g.nodes|, |vars|)
    ensures forall ls :: ls in labels <==> Labelling(g, central, vars, ls)
  {
    var all := PossibleVarAssignments(g.nodes, vars);
    labels := AllLabels(g, central, vars, all);
    forall ls ensures ls in labels <==> Labelling(g, central, vars, ls) { AllLabelsHave(g, central, vars, all, ls); }
  }
}
