/** The rewrite that keeps dynamic expressions from reading the variable they are assigned to, and the
    restricted contexts that they are evaluated in. */
module FixDynamics {
  import opened Lang
  import opened Sublists

  function Filter(xs: seq<Name>, keep: seq<Name>): seq<Name> {
    if xs == [] then [] else if xs[0] in keep then [xs[0]] + Filter(xs[1..], keep) else Filter(xs[1..], keep)
  }

  function Without(xs: seq<Name>, x: Name): seq<Name> {
    if xs == [] then [] else if xs[0] != x then [xs[0]] + Without(xs[1..], x) else Without(xs[1..], x)
  }

  /** Restricts every dynamic expression, at any depth, to the variables `vars`. */
  function Traverse(e: SExpr, vars: seq<Name>): SExpr {
    match e
    case Dynamic(a) => RestrictedDynamic(Traverse(a, vars), vars)
    case RestrictedDynamic(a, names) => RestrictedDynamic(Traverse(a, vars), Filter(names, vars))
    case Var(_) => e
    case Val(_) => e
    case MonitoredAt(_, _) => e
    case Dist(_, _) => e
    case Not(a) => SExpr.Not(Traverse(a, vars))
    case SIndex(a, i) => SIndex(Traverse(a, vars), i)
    case Call1(f, a) => Call1(f, Traverse(a, vars))
    case BinOp(l, r, op) => BinOp(Traverse(l, vars), Traverse(r, vars), op)
    case Call2(g, l, r) => Call2(g, Traverse(l, vars), Traverse(r, vars))
    case If(c, a, b) => If(Traverse(c, vars), Traverse(a, vars), Traverse(b, vars))
    case List(es) => List(seq(|es|, i requires 0 <= i < |es| => Traverse(es[i], vars)))
  }

  /** The variables that the equation of `name` may refer to dynamically: all declared ones but itself. */
  function VarsFor(inputs: seq<Name>, outputs: seq<Name>, name: Name): seq<Name> { Without(inputs + outputs, name) }

  function FixDynamic(inputs: seq<Name>, outputs: seq<Name>, exprs: map<Name, SExpr>): map<Name, SExpr> {
    map name | name in exprs :: Traverse(exprs[name], VarsFor(inputs, outputs, name))
  }

  // ---------------------------------------------------------------------------------------------
  // What the rewrite achieves
  // ---------------------------------------------------------------------------------------------

  /** Every dynamic expression in `e` is restricted, and to variables of `vars` only. */
  predicate Restricted(e: SExpr, vars: seq<Name>) {
    match e
    case Dynamic(_) => false
    case RestrictedDynamic(a, names) => Restricted(a, vars) && forall x :: x in names ==> x in vars
    case Not(a) => Restricted(a, vars)
    case SIndex(a, _) => Restricted(a, vars)
    case Call1(_, a) => Restricted(a, vars)
    case BinOp(l, r, _) => Restricted(l, vars) && Restricted(r, vars)
    case Call2(_, l, r) => Restricted(l, vars) && Restricted(r, vars)
    case If(c, a, b) => Restricted(c, vars) && Restricted(a, vars) && Restricted(b, vars)
    case List(es) => forall i :: 0 <= i < |es| ==> Restricted(es[i], vars)
    case _ => true
  }

  lemma {:induction false} FilterHas(xs: seq<Name>, keep: seq<Name>, x: Name)
    ensures x in Filter(xs, keep) <==> x in xs && x in keep
  {
    if xs != [] { FilterHas(xs[1..], keep, x); }
  }

  lemma {:induction false} WithoutHas(xs: seq<Name>, y: Name, x: Name)
    ensures x in Without(xs, y) <==> x in xs && x != y
  {
    if xs != [] { WithoutHas(xs[1..], y, x); }
  }

  lemma {:induction false} FilterAll(xs: seq<Name>, keep: seq<Name>)
    requires forall x :: x in xs ==> x in keep
    ensures Filter(xs, keep) == xs
  {
    if xs != [] { FilterAll(xs[1..], keep); }
  }

  lemma {:induction false} TraverseRestricts(e: SExpr, vars: seq<Name>)
    ensures Restricted(Traverse(e, vars), vars)
  {
    match e
    case Dynamic(a) => TraverseRestricts(a, vars);
    case RestrictedDynamic(a, names) =>
      TraverseRestricts(a, vars);
      forall x | x in Filter(names, vars) ensures x in vars { FilterHas(names, vars, x); }
    case Not(a) => TraverseRestricts(a, vars);
    case SIndex(a, _) => TraverseRestricts(a, vars);
    case Call1(_, a) => TraverseRestricts(a, vars);
    case BinOp(l, r, _) => TraverseRestricts(l, vars); TraverseRestricts(r, vars);
    case Call2(_, l, r) => TraverseRestricts(l, vars); TraverseRestricts(r, vars);
    case If(c, a, b) => TraverseRestricts(c, vars); TraverseRestricts(a, vars); TraverseRestricts(b, vars);
    case List(es) => forall i | 0 <= i < |es| ensures Restricted(Traverse(es[i], vars), vars) { TraverseRestricts(es[i], vars); }
    case _ =>
  }

  /** The rewrite changes nothing exactly if there is nothing to be done. */
  lemma {:induction false} TraverseKeeps(e: SExpr, vars: seq<Name>)
    ensures Traverse(e, vars) == e <==> Restricted(e, vars)
  {
    match e
    case RestrictedDynamic(a, names) =>
      TraverseKeeps(a, vars);
      if forall x :: x in names ==> x in vars {
        FilterAll(names, vars);
      } else {
        var x :| x in names && x !in vars;
        FilterHas(names, vars, x);
      }
    case Not(a) => TraverseKeeps(a, vars);
    case SIndex(a, _) => TraverseKeeps(a, vars);
    case Call1(_, a) => TraverseKeeps(a, vars);
    case BinOp(l, r, _) => TraverseKeeps(l, vars); TraverseKeeps(r, vars);
    case Call2(_, l, r) => TraverseKeeps(l, vars); TraverseKeeps(r, vars);
    case If(c, a, b) => TraverseKeeps(c, vars); TraverseKeeps(a, vars); TraverseKeeps(b, vars);
    case List(es) =>
      var fs := seq(|es|, i requires 0 <= i < |es| => Traverse(es[i], vars));
      forall i | 0 <= i < |es| ensures fs[i] == es[i] <==> Restricted(es[i], vars) { TraverseKeeps(es[i], vars); }
      assert fs == es <==> forall i :: 0 <= i < |es| ==> fs[i] == es[i];
    case _ =>
  }

  /** After the rewrite, no dynamic expression of any equation, at any depth, is unrestricted, and none
      may read an undeclared variable or the one it is assigned to; rewriting again changes nothing, and
      apart from the restrictions the equation is what it was. */
  lemma FixDynamicIsRight(inputs: seq<Name>, outputs: seq<Name>, exprs: map<Name, SExpr>, name: Name)
    requires name in exprs
    ensures var fixed := FixDynamic(inputs, outputs, exprs);
            && fixed.Keys == exprs.Keys && Restricted(fixed[name], VarsFor(inputs, outputs, name))
            && FixDynamic(inputs, outputs, fixed) == fixed
            && Erase(fixed[name]) == Erase(exprs[name])
    ensures forall x :: x in VarsFor(inputs, outputs, name) <==> x in inputs + outputs && x != name
  {
    var fixed := FixDynamic(inputs, outputs, exprs);
    forall y | y in exprs
      ensures Restricted(fixed[y], VarsFor(inputs, outputs, y)) && Traverse(fixed[y], VarsFor(inputs, outputs, y)) == fixed[y]
    {
      TraverseRestricts(exprs[y], VarsFor(inputs, outputs, y));
      TraverseKeeps(fixed[y], VarsFor(inputs, outputs, y));
    }
    forall x ensures x in VarsFor(inputs, outputs, name) <==> x in inputs + outputs && x != name {
      WithoutHas(inputs + outputs, name, x);
    }
    TraverseErases(exprs[name], VarsFor(inputs, outputs, name));
  }

  // ---------------------------------------------------------------------------------------------
  // What it installs, place by place
  // ---------------------------------------------------------------------------------------------

  lemma {:induction false} TraverseAt(e: SExpr, vars: seq<Name>, place: seq<nat>)
    ensures PartAt(e, place).None? ==> PartAt(Traverse(e, vars), place).None?
    ensures PartAt(e, place).Some? ==> PartAt(Traverse(e, vars), place) == Some(Traverse(PartAt(e, place).value, vars))
    decreases |place|
  {
    assert |Children(Traverse(e, vars))| == |Children(e)|;
    if place != [] && place[0] < |Children(e)| {
      assert Children(Traverse(e, vars))[place[0]] == Traverse(Children(e)[place[0]], vars);
      TraverseAt(Children(e)[place[0]], vars, place[1..]);
    }
  }

  /** The expression without its restrictions. */
  function Erase(e: SExpr): SExpr {
    match e
    case If(c, a, b) => If(Erase(c), Erase(a), Erase(b))
    case BinOp(l, r, op) => BinOp(Erase(l), Erase(r), op)
    case Call2(g, l, r) => Call2(g, Erase(l), Erase(r))
    case SIndex(a, i) => SIndex(Erase(a), i)
    case Dynamic(a) => Dynamic(Erase(a))
    case RestrictedDynamic(a, _) => Dynamic(Erase(a))
    case Not(a) => SExpr.Not(Erase(a))
    case Call1(f, a) => Call1(f, Erase(a))
    case List(es) => List(seq(|es|, i requires 0 <= i < |es| => Erase(es[i])))
    case _ => e
  }

  lemma {:induction false} TraverseErases(e: SExpr, vars: seq<Name>)
    ensures Erase(Traverse(e, vars)) == Erase(e)
  {
    match e
    case Dynamic(a) => TraverseErases(a, vars);
    case RestrictedDynamic(a, _) => TraverseErases(a, vars);
    case Not(a) => TraverseErases(a, vars);
    case SIndex(a, _) => TraverseErases(a, vars);
    case Call1(_, a) => TraverseErases(a, vars);
    case BinOp(l, r, _) => TraverseErases(l, vars); TraverseErases(r, vars);
    case Call2(_, l, r) => TraverseErases(l, vars); TraverseErases(r, vars);
    case If(c, a, b) => TraverseErases(c, vars); TraverseErases(a, vars); TraverseErases(b, vars);
    case List(es) =>
      var fs := seq(|es|, i requires 0 <= i < |es| => Traverse(es[i], vars));
      forall i | 0 <= i < |es| ensures Erase(fs[i]) == Erase(es[i]) { TraverseErases(es[i], vars); }
      assert Erase(List(fs)).es == Erase(List(es)).es;
    case _ =>
  }

  lemma {:induction false} WithoutPicks(xs: seq<Name>, x: Name, keep: set<Name>)
    requires forall y :: y in xs ==> (y in keep <==> y != x)
    ensures Picks(xs, keep, Without(xs, x))
  {
    if xs == [] {
      PicksNone(keep);
    } else {
      WithoutPicks(xs[1..], x, keep);
      PicksOne(xs, keep, Without(xs[1..], x));
    }
  }

  lemma {:induction false} FilterPicks(xs: seq<Name>, allowed: seq<Name>, keep: set<Name>)
    requires forall y :: y in allowed <==> y in keep
    ensures Picks(xs, keep, Filter(xs, allowed))
  {
    if xs == [] {
      PicksNone(keep);
    } else {
      FilterPicks(xs[1..], allowed, keep);
      PicksOne(xs, keep, Filter(xs[1..], allowed));
    }
  }

  /** The declared variables other than `name`. */
  function Allowed(inputs: seq<Name>, outputs: seq<Name>, name: Name): set<Name> {
    set x | x in inputs + outputs && x != name
  }

  lemma VarsAllowed(inputs: seq<Name>, outputs: seq<Name>, name: Name)
    ensures forall x :: x in VarsFor(inputs, outputs, name) <==> x in Allowed(inputs, outputs, name)
  {
    forall x ensures x in VarsFor(inputs, outputs, name) <==> x in Allowed(inputs, outputs, name) {
      WithoutHas(inputs + outputs, name, x);
    }
  }

  /** At every place of an equation, at any depth: where it has a plain dynamic expression, the rewritten
      one lists the declared variables other than its own, in the order of their declaration, and with
      these each is bound to its own stream; where it has a written list, the rewritten one has the names
      of that list that are allowed, in their order, and these are bound to their own streams if and only
      if they are in the order of the declarations, each once. */
  lemma InstalledAt(inputs: seq<Name>, outputs: seq<Name>, exprs: map<Name, SExpr>, name: Name, place: seq<nat>)
    requires name in exprs && PartAt(exprs[name], place).Some?
    ensures var (e, fixed) := (PartAt(exprs[name], place).value, PartAt(FixDynamic(inputs, outputs, exprs)[name], place));
            var (all, allowed) := (inputs + outputs, Allowed(inputs, outputs, name));
            && fixed.Some?
            && (e.Dynamic? ==>
                && fixed.value.RestrictedDynamic? && Picks(all, allowed, fixed.value.names)
                && (Distinct(all) ==> BindsOwn(RestrictedSubcontext(all, fixed.value.names), fixed.value.names)))
            && (e.RestrictedDynamic? ==>
                && fixed.value.RestrictedDynamic? && Picks(e.names, allowed, fixed.value.names)
                && (Distinct(all) ==>
                    (BindsOwn(RestrictedSubcontext(all, fixed.value.names), fixed.value.names) <==>
                     Picks(all, SetOf(fixed.value.names), fixed.value.names))))
  {
    var (e, vars, allowed) := (PartAt(exprs[name], place).value, VarsFor(inputs, outputs, name), Allowed(inputs, outputs, name));
    TraverseAt(exprs[name], vars, place);
    VarsAllowed(inputs, outputs, name);
    if e.Dynamic? {
      WithoutPicks(inputs + outputs, name, allowed);
      if Distinct(inputs + outputs) { InstalledBinds(inputs, outputs, name); }
    } else if e.RestrictedDynamic? {
      FilterPicks(e.names, vars, allowed);
      if Distinct(inputs + outputs) { ListBinds(inputs + outputs, Filter(e.names, vars)); }
    }
  }

  lemma ListBinds(all: seq<Name>, names: seq<Name>)
    requires Distinct(all)
    ensures BindsOwn(RestrictedSubcontext(all, names), names) <==> Picks(all, SetOf(names), names)
  {
    RestrictionBinds(all, names);
    FilterPicks(all, names, SetOf(names));
    if Picks(all, SetOf(names), names) { PicksUnique(all, SetOf(names), names, Filter(all, names)); }
  }

  // ---------------------------------------------------------------------------------------------
  // Restricted contexts
  // ---------------------------------------------------------------------------------------------

  /** A stream, by the variable it belongs to. */
  type Stream = Name

  /** The names are zipped with the streams of the context's variables that are among them; building
      the context fails if their numbers differ, and a name that occurs twice has its last stream. */
  function Bind(names: seq<Name>, streams: seq<Stream>): map<Name, Stream>
    requires |names| == |streams|
  {
    if names == [] then map[]
    else
      var n := |names| - 1;
      Bind(names[..n], streams[..n])[names[n] := streams[n]]
  }

  function RestrictedSubcontext(vars: seq<Name>, names: seq<Name>): Option<map<Name, Stream>> {
    var streams := Filter(vars, names);
    if |names| != |streams| then None else Some(Bind(names, streams))
  }

  function SetOf(xs: seq<Name>): set<Name> { set x | x in xs }

  lemma {:induction false} DistinctSize(xs: seq<Name>)
    ensures |SetOf(xs)| <= |xs| && (Distinct(xs) <==> |SetOf(xs)| == |xs|)
  {
    if xs != [] {
      var (n, init) := (|xs| - 1, xs[..|xs| - 1]);
      DistinctSize(init);
      assert xs == init + [xs[n]];
      if xs[n] in init {
        assert SetOf(xs) == SetOf(init);
        var i :| 0 <= i < |init| && init[i] == xs[n];
        assert xs[i] == xs[n];
      } else {
        assert SetOf(xs) == SetOf(init) + {xs[n]};
        DistinctAppend(init, xs[n]);
      }
    }
  }

  lemma DistinctAppend(xs: seq<Name>, x: Name)
    requires x !in xs
    ensures Distinct(xs + [x]) <==> Distinct(xs)
  {
    if Distinct(xs + [x]) {
      forall i, j | 0 <= i < j < |xs| ensures xs[i] != xs[j] { assert (xs + [x])[i] != (xs + [x])[j]; }
    }
  }

  lemma {:induction false} FilterDistinct(xs: seq<Name>, keep: seq<Name>)
    requires Distinct(xs)
    ensures Distinct(Filter(xs, keep))
  {
    if xs != [] {
      FilterDistinct(xs[1..], keep);
      if xs[0] in keep {
        FilterHas(xs[1..], keep, xs[0]);
        var rest := Filter(xs[1..], keep);
        forall j | 0 <= j < |rest| ensures rest[j] != xs[0] { assert rest[j] in rest; }
      }
    }
  }

  lemma {:induction false} BindAt(names: seq<Name>, streams: seq<Stream>, i: nat)
    requires |names| == |streams| && Distinct(names) && i < |names|
    ensures names[i] in Bind(names, streams) && Bind(names, streams)[names[i]] == streams[i]
  {
    var n := |names| - 1;
    if i < n { BindAt(names[..n], streams[..n], i); }
  }

  /** As many streams as names: then no name occurs twice. */
  lemma SameNumber(vars: seq<Name>, names: seq<Name>)
    requires Distinct(vars) && |Filter(vars, names)| == |names|
    ensures Distinct(names)
  {
    var streams := Filter(vars, names);
    FilterDistinct(vars, names);
    DistinctSize(streams);
    DistinctSize(names);
    forall x | x in SetOf(streams) ensures x in SetOf(names) { FilterHas(vars, names, x); }
    SubsetSize(SetOf(streams), SetOf(names));
  }

  lemma {:induction false} SubsetSize(a: set<Name>, b: set<Name>)
    requires a <= b
    ensures |a| <= |b|
  {
    if a != {} {
      var x :| x in a;
      SubsetSize(a - {x}, b - {x});
    }
  }

  ghost predicate BindsOwn(context: Option<map<Name, Stream>>, names: seq<Name>) {
    context.Some? && forall x :: x in names ==> x in context.value && context.value[x] == x
  }

  /** A restricted context is built and gives every name its own stream if and only if the names are
      listed in the order in which the context has them, each once. */
  lemma RestrictionBinds(vars: seq<Name>, names: seq<Name>)
    requires Distinct(vars)
    ensures BindsOwn(RestrictedSubcontext(vars, names), names) <==> names == Filter(vars, names)
  {
    var streams := Filter(vars, names);
    if |names| == |streams| {
      SameNumber(vars, names);
      forall i | 0 <= i < |names| ensures names[i] in Bind(names, streams) && Bind(names, streams)[names[i]] == streams[i] {
        BindAt(names, streams, i);
      }
      if BindsOwn(RestrictedSubcontext(vars, names), names) {
        forall i | 0 <= i < |names| ensures names[i] == streams[i] { assert names[i] in names; }
      }
    }
  }

  lemma {:induction false} WithoutIsFilter(xs: seq<Name>, x: Name, keep: seq<Name>)
    requires forall y :: y in xs ==> (y in keep <==> y != x)
    ensures Filter(xs, keep) == Without(xs, x)
  {
    if xs != [] { WithoutIsFilter(xs[1..], x, keep); }
  }

  /** The list installed on a plain dynamic expression is such a list, in a context of all the inputs
      and outputs in order; so every name is bound to its own stream. */
  lemma InstalledBinds(inputs: seq<Name>, outputs: seq<Name>, name: Name)
    requires Distinct(inputs + outputs)
    ensures BindsOwn(RestrictedSubcontext(inputs + outputs, VarsFor(inputs, outputs, name)), VarsFor(inputs, outputs, name))
  {
    var (all, vars) := (inputs + outputs, VarsFor(inputs, outputs, name));
    forall y | y in all ensures y in vars <==> y != name { WithoutHas(all, name, y); }
    WithoutIsFilter(all, name, vars);
    RestrictionBinds(all, vars);
  }

  /** A list written in another order stays in that order, and gives two variables each other's streams. */
  lemma WrittenOrderSwaps(x: Name, y: Name, s: SExpr)
    requires x != y
    ensures Traverse(RestrictedDynamic(s, [y, x]), [x, y]) == RestrictedDynamic(Traverse(s, [x, y]), [y, x])
    ensures RestrictedSubcontext([x, y], [y, x]) == Some(map[y := x, x := y])
  {
    FilterAll([y, x], [x, y]);
    assert [x, y][1..] == [y] && [y][1..] == [];
    assert Filter([y], [y, x]) == [y];
    assert Filter([x, y], [y, x]) == [x, y];
    assert [y, x][..1] == [y] && [x, y][..1] == [x] && [y][..0] == [] && [x][..0] == [];
    assert Bind([y], [x]) == map[y := x];
  }
}
