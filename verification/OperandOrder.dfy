/** When the solver exchanges operands at run time: `x = a op y` with `y = b` is resolved to `b op a` if `x`
    is kept before `y`, and to `a op b` if it is kept after it.

    Kept first, `x` is looked at when `a` is known and `y` still waits: the known operand goes to the right,
    the item of `y` to the left, and the next pass resolves what is left of `x` with the value of `b`. */
module OperandOrder {
  import opened Lang
  import opened Solver
  import opened SolverMeaning
  import opened ConstraintRuntimes
  import opened GarbageCollection
  import opened ConstraintDenotations

  function Two(op: BinOp): map<Name, SExpr> { map["x" := BinOp(Var("a"), Var("y"), op), "y" := Var("b")] }

  function TwoRank(): map<Name, nat> { map["x" := 1, "y" := 0] }

  lemma NamesDiffer()
    ensures "a" != "b" && "a" != "x" && "a" != "y" && "b" != "x" && "b" != "y" && "x" != "y"
  {
    assert "a"[0] == 'a' && "b"[0] == 'b' && "x"[0] == 'x' && "y"[0] == 'y';
  }

  lemma TwoParts(op: BinOp)
    ensures Static(Var("a")) && Static(Var("y")) && Static(Var("b")) && Static(Two(op)["x"])
    ensures Fold(Var("a")) == Unresolved(Var("a")) && Fold(Var("y")) == Unresolved(Var("y")) && Fold(Var("b")) == Unresolved(Var("b"))
    ensures Fold(Two(op)["x"]) == Unresolved(Two(op)["x"])
  {
  }

  lemma TwoFolds(op: BinOp)
    ensures Foldable(Two(op)) && FoldAll(Two(op)) == Two(op)
  {
    TwoParts(op);
  }

  lemma TwoShape(op: BinOp)
    ensures var e := BinOp(Var("a"), Var("y"), op);
            && Static(Var("a")) && Static(Var("y")) && Static(e)
            && PastOnly(e) && Unnested(e) && Retained(e, map[]) && Below(e, TwoRank(), 1)
            && (Commutative(op) || Within(Var("y"), {"x", "y"}, {"y"})) && Ordered(e, {"x", "y"}, {"y"}) && FoldSafe(e)
            && (Commutative(op) ==> Ordered(e, {"x", "y"}, {}))
  {
    var (a, y) := (Var("a"), Var("y"));
    assert Static(a) && Static(y);
    assert PastOnly(a) && PastOnly(y) && Unnested(a) && Unnested(y) && Retained(a, map[]) && Retained(y, map[]);
    assert Below(a, TwoRank(), 1) && Below(y, TwoRank(), 1) && FoldSafe(a) && FoldSafe(y);
    assert Fold(a) == Unresolved(a) && Fold(y) == Unresolved(y);
    assert Ordered(a, {"x", "y"}, {"y"}) && Ordered(y, {"x", "y"}, {"y"}) && Ordered(a, {"x", "y"}, {}) && Ordered(y, {"x", "y"}, {});
  }

  lemma TwoProductive(op: BinOp, order: seq<Name>)
    requires order == ["x", "y"] || order == ["y", "x"]
    ensures Productive(Two(op), order, map[], TwoRank())
  {
    TwoShape(op);
    assert order[0] in order && order[1] in order;
    assert Static(Var("b")) && PastOnly(Var("b")) && Unnested(Var("b")) && Retained(Var("b"), map[]) && Below(Var("b"), TwoRank(), 0);
  }

  // ---------------------------------------------------------------------------------------------
  // The first step
  // ---------------------------------------------------------------------------------------------

  function Values(v: Value, w: Value): seq<(Name, Value)> { [("a", v), ("b", w)] }

  lemma ValuesProvided(v: Value, w: Value, x: Name)
    ensures Provided(Values(v, w), x) == if x == "a" then Some(v) else if x == "b" then Some(w) else None
  {
    NamesDiffer();
    assert Values(v, w)[1..] == [("b", w)] && [("b", w)][1..] == [];
    assert Provided([("b", w)], x) == if x == "b" then Some(w) else None;
  }

  lemma PassOne(it: Item, st: Store, now: nat)
    ensures Simplify(it.expr, now, st).Panic? ==> Pass([it], st, now) == None
    ensures Simplify(it.expr, now, st).Resolved? ==>
              Pass([it], st, now) == Some(PassResult([Entry(it.name, it.time, Simplify(it.expr, now, st).v)], []))
  {
    assert [it][1..] == [];
    if Simplify(it.expr, now, st).Resolved? {
      var v := Simplify(it.expr, now, st).v;
      var st' := st.(resolved := Push(st.resolved, it.name, it.time, v));
      assert Pass([it][1..], st', now) == Some(PassResult([], []));
      assert [Entry(it.name, it.time, v)] + [] == [Entry(it.name, it.time, v)];
    }
  }

  lemma PassTwo(it: Item, jt: Item, st: Store, now: nat, a: AbsExpr, w: Value)
    requires Simplify(it.expr, now, st) == Unresolved(a) && Simplify(jt.expr, now, st) == Resolved(w)
    ensures Pass([it, jt], st, now) == Some(PassResult([Entry(jt.name, jt.time, w)], [it.(expr := a)]))
  {
    assert [it, jt][1..] == [jt];
    PassOne(jt, st, now);
    assert [it.(expr := a)] + [] == [it.(expr := a)];
  }

  /** The items of the first step, and what becomes of the first of them when its operands change sides. */
  function ItemX(op: BinOp): Item { Item("x", 0, ABinOp(AVar(0, "a"), AVar(0, "y"), op)) }

  function ItemY(): Item { Item("y", 0, AVar(0, "b")) }

  function Exchanged(op: BinOp, v: Value): Item { Item("x", 0, ABinOp(AVar(0, "b"), AVal(v), op)) }

  lemma FirstItems(op: BinOp)
    ensures Static(Two(op)["x"]) && Static(Two(op)["y"]) && AddItems(["x", "y"], [], Two(op), 0) == [ItemX(op), ItemY()]
  {
    TwoParts(op);
    assert ["x", "y"][1..] == ["y"] && ["y"][1..] == [];
    assert ToAbsolute(Two(op)["x"], 0) == ItemX(op).expr && ToAbsolute(Two(op)["y"], 0) == AVar(0, "b");
    assert AddItems([], [], Two(op), 0) == [];
    assert AddItems(["y"], [], Two(op), 0) == [] + [ItemY()] + [];
    assert AddItems(["x", "y"], [], Two(op), 0) == [] + [ItemX(op)] + AddItems(["y"], [], Two(op), 0);
  }

  /** What the store knows in the first step: the inputs, and `known` of the outputs. */
  ghost predicate Knows(st: Store, v: Value, w: Value, y: Option<Value>) {
    st.Read("a", 0) == Some(v) && st.Read("b", 0) == Some(w) && st.Read("y", 0) == y
  }

  lemma FirstReceive(op: BinOp, v: Value, w: Value)
    ensures Foldable(Two(op)) && (forall y :: y in ["x", "y"] ==> y in Two(op))
    ensures var r := Receive(Start(Two(op)), ["x", "y"], Values(v, w));
            r.exprs == Two(op) && r.store.unresolved == [ItemX(op), ItemY()] && r.store.resolved == map[] && Knows(r.store, v, w, None)
  {
    TwoFolds(op);
    FirstItems(op);
    ValuesProvided(v, w, "a");
    ValuesProvided(v, w, "b");
    ValuesProvided(v, w, "y");
    LookupRecord(map[], Values(v, w), 0, "a", 0);
    LookupRecord(map[], Values(v, w), 0, "b", 0);
    LookupRecord(map[], Values(v, w), 0, "y", 0);
  }

  /** In the first pass, the left operand is known and the right one is not: they change sides. */
  lemma FirstPass(op: BinOp, v: Value, w: Value, st: Store)
    requires st.unresolved == [ItemX(op), ItemY()] && Knows(st, v, w, None)
    ensures Pass(st.unresolved, st, 0) == Some(PassResult([Entry("y", 0, w)], [Exchanged(op, v)]))
  {
    NamesDiffer();
    assert st.unresolved[1..] == [ItemY()] && FindItem([ItemY()], "y", 0) == Some(AVar(0, "b"));
    assert st.Pending("y", 0) == Some(AVar(0, "b"));
    assert Simplify(AVar(0, "a"), 0, st) == Resolved(v) && Simplify(AVar(0, "y"), 0, st) == Unresolved(AVar(0, "b"));
    assert Simplify(ItemX(op).expr, 0, st) == Unresolved(Exchanged(op, v).expr);
    assert Simplify(ItemY().expr, 0, st) == Resolved(w);
    PassTwo(ItemX(op), ItemY(), st, 0, Exchanged(op, v).expr, w);
  }

  /** In the second one, what has changed sides is resolved. */
  lemma SecondPass(op: BinOp, v: Value, w: Value, st: Store)
    requires st.unresolved == [Exchanged(op, v)] && st.Read("b", 0) == Some(w)
    ensures Pass(st.unresolved, st, 0) == (match Table(w, v, op) case None => None case Some(u) => Some(PassResult([Entry("x", 0, u)], [])))
  {
    PassOne(Exchanged(op, v), st, 0);
    assert Simplify(AVar(0, "b"), 0, st) == Resolved(w) && Simplify(AVal(v), 0, st) == Resolved(v);
  }

  lemma ResolveLast(st: Store, now: nat, e: Entry)
    requires Pass(st.unresolved, st, now) == Some(PassResult([e], []))
    ensures Resolve(st, now).Some? && Resolve(st, now).value.1.resolved == Push(st.resolved, e.name, e.time, e.value)
  {
    var st1 := AfterPass(st, PassResult([e], []));
    assert [e][1..] == [] && st1.resolved == PushAll(Push(st.resolved, e.name, e.time, e.value), []);
    assert Pass(st1.unresolved, st1, now) == Some(PassResult([], []));
    assert Resolve(st1, now) == Some(([], AfterPass(st1, PassResult([], []))));
  }

  lemma ResolveFirst(st: Store, now: nat, p: PassResult)
    requires Pass(st.unresolved, st, now) == Some(p) && p.log != []
    ensures Resolve(st, now).Some? <==> Resolve(AfterPass(st, p), now).Some?
    ensures Resolve(st, now).Some? ==> Resolve(st, now).value.1 == Resolve(AfterPass(st, p), now).value.1
  {
    PassSizes(st.unresolved, st, now);
  }

  lemma AfterFirst(op: BinOp, v: Value, w: Value, st: Store)
    requires Knows(st, v, w, None) && st.resolved == map[]
    ensures var st1 := AfterPass(st, PassResult([Entry("y", 0, w)], [Exchanged(op, v)]));
            st1.unresolved == [Exchanged(op, v)] && st1.Read("b", 0) == Some(w) && st1.resolved == Push(map[], "y", 0, w)
  {
    assert [Entry("y", 0, w)][1..] == [];
    assert PushAll(map[], [Entry("y", 0, w)]) == PushAll(Push(map[], "y", 0, w), []);
    LookupPush(map[], "y", 0, w, "b", 0);
  }

  /** So `x` is resolved to `b op a`, or the solver panics if that has no value. */
  lemma FirstResolve(op: BinOp, v: Value, w: Value, st: Store)
    requires st.unresolved == [ItemX(op), ItemY()] && st.resolved == map[] && Knows(st, v, w, None)
    ensures Resolve(st, 0).Some? <==> Table(w, v, op).Some?
    ensures Resolve(st, 0).Some? ==> Lookup(Resolve(st, 0).value.1.resolved, "x", 0) == Table(w, v, op)
  {
    var p := PassResult([Entry("y", 0, w)], [Exchanged(op, v)]);
    var st1 := AfterPass(st, p);
    FirstPass(op, v, w, st);
    AfterFirst(op, v, w, st);
    SecondPass(op, v, w, st1);
    ResolveFirst(st, 0, p);
    if Table(w, v, op).Some? {
      ResolveLast(st1, 0, Entry("x", 0, Table(w, v, op).value));
      NamesDiffer();
      LookupPush(st1.resolved, "x", 0, Table(w, v, op).value, "x", 0);
      LookupPush(map[], "y", 0, w, "x", 0);
    }
  }

  lemma FirstStep(op: BinOp, v: Value, w: Value)
    ensures forall y :: y in ["x", "y"] ==> y in Two(op)
    ensures var r := Step(Start(Two(op)), ["x", "y"], Values(v, w));
            && (r.Some? <==> Table(w, v, op).Some?)
            && (r.Some? ==> Lookup(r.value.1.store.resolved, "x", 0) == Table(w, v, op))
  {
    FirstReceive(op, v, w);
    FirstResolve(op, v, w, Receive(Start(Two(op)), ["x", "y"], Values(v, w)).store);
  }

  lemma OneStep(exprs: map<Name, SExpr>, order: seq<Name>, ins: seq<(Name, Value)>)
    requires forall y :: y in order ==> y in exprs
    ensures var (m, r) := (Monitor(Start(exprs), order, [ins], map[], true), Step(Start(exprs), order, ins));
            (m.Some? <==> r.Some?) && (m.Some? ==> m.value.0 == [Emit(r.value.1, order, 0)])
  {
    assert [ins][1..] == [];
  }

  // ---------------------------------------------------------------------------------------------
  // Right on all inputs
  // ---------------------------------------------------------------------------------------------

  /** Kept in this order, the monitor has a right outcome for every input. */
  ghost predicate AlwaysRight(op: BinOp, order: seq<Name>)
    requires forall y :: y in order ==> y in Two(op)
  {
    forall ins: seq<seq<(Name, Value)>> :: (forall i :: 0 <= i < |ins| ==> OnlyInputs(ins[i], Two(op))) ==>
      RightOutcome(Monitor(Start(Two(op)), order, ins, map[], true), Two(op), order, TwoMeaning(op, ins), 0, |ins|)
  }

  ghost function TwoMeaning(op: BinOp, ins: seq<seq<(Name, Value)>>): Env {
    TwoParts(op);
    Meaning(Two(op), TwoRank(), ins, 2)
  }

  lemma OrderedIsRight(op: BinOp, order: seq<Name>)
    requires (order == ["x", "y"] || order == ["y", "x"]) && AllOrdered(Two(op), order)
    ensures AlwaysRight(op, order)
  {
    TwoFolds(op);
    TwoProductive(op, order);
    forall ins: seq<seq<(Name, Value)>> | forall i :: 0 <= i < |ins| ==> OnlyInputs(ins[i], Two(op))
      ensures RightOutcome(Monitor(Start(Two(op)), order, ins, map[], true), Two(op), order, TwoMeaning(op, ins), 0, |ins|)
    {
      MonitorComputesDenotation(Two(op), order, ins, map[], TwoRank(), 2);
    }
  }

  lemma KeptAfterOrdered(op: BinOp)
    ensures AllOrdered(Two(op), ["y", "x"])
  {
    var order := ["y", "x"];
    NamesDiffer();
    TwoShape(op);
    assert Two(op).Keys == {"x", "y"} && FoldSafe(Var("b"));
    assert order[..0] == [] && order[..1] == ["y"] && SetOf(["y"]) == {"y"};
    assert Within(Var("b"), Two(op).Keys, {} + SetOf(order[..0]));
    assert Within(Var("a"), Two(op).Keys, {} + SetOf(order[..1])) && Within(Var("y"), Two(op).Keys, {} + SetOf(order[..1]));
    KeptInTurn(order, Two(op), {});
  }

  /** If `y` is kept first, it is, whatever the operator. */
  lemma KeptAfter(op: BinOp)
    ensures (forall y :: y in ["y", "x"] ==> y in Two(op)) && AlwaysRight(op, ["y", "x"])
  {
    KeptAfterOrdered(op);
    OrderedIsRight(op, ["y", "x"]);
  }

  lemma CommutingOrdered(op: BinOp)
    requires Commutative(op)
    ensures AllOrdered(Two(op), ["x", "y"])
  {
    TwoShape(op);
    assert Two(op).Keys == {"x", "y"} && FoldSafe(Var("b")) && Ordered(Var("b"), {"x", "y"}, {});
    AnyTurn(["x", "y"], Two(op), {});
  }

  /** What the two outputs mean at time 0. */
  lemma MeaningAtStart(op: BinOp, v: Value, w: Value)
    ensures TwoMeaning(op, [Values(v, w)])("x", 0) == Table(v, w, op) && TwoMeaning(op, [Values(v, w)])("y", 0) == Some(w)
  {
    var ins := [Values(v, w)];
    TwoParts(op);
    ValuesProvided(v, w, "a");
    ValuesProvided(v, w, "b");
    assert InputAt(ins, "a", 0) == Some(v) && InputAt(ins, "b", 0) == Some(w);
    assert Denote(Two(op), TwoRank(), ins, 2, Var("b"), 0, 0) == Some(w);
    assert Denote(Two(op), TwoRank(), ins, 2, Var("a"), 0, 1) == Some(v) && Denote(Two(op), TwoRank(), ins, 2, Var("y"), 0, 1) == Some(w);
  }

  /** An outcome for one step in which `x` has not its value. */
  lemma WrongOutcome(m: Outcomes, op: BinOp, order: seq<Name>, env: Env, u: Option<Value>)
    requires order == ["x", "y"] && env("x", 0) != u && env("y", 0).Some?
    requires m.Some? ==> |m.value.0| == 1 && |m.value.0[0]| == 2 && m.value.0[0][0] == u
    requires m.None? ==> u == None
    ensures !RightOutcome(m, Two(op), order, env, 0, 1)
  {
    if m.None? {
      if t :| 0 <= t < 0 + 1 && UndefinedAt(Two(op), env, t) { assert t == 0; }
    } else {
      assert !RightRow(m.value.0[0], order, env, 0 + 0);
    }
  }

  /** With a first input that tells the two orders of operands apart, it is not. */
  lemma ExchangeIsWrong(op: BinOp, v: Value, w: Value)
    requires Table(v, w, op) != Table(w, v, op)
    ensures (forall y :: y in ["x", "y"] ==> y in Two(op)) && !AlwaysRight(op, ["x", "y"])
  {
    var (order, ins) := (["x", "y"], [Values(v, w)]);
    FirstStep(op, v, w);
    MeaningAtStart(op, v, w);
    OneStep(Two(op), order, Values(v, w));
    forall x: Name ensures Provided(ins[0], x).Some? ==> x !in Two(op) { NamesDiffer(); ValuesProvided(v, w, x); }
    WrongOutcome(Monitor(Start(Two(op)), order, ins, map[], true), op, order, TwoMeaning(op, ins), Table(w, v, op));
  }

  /** For example, `x = a - y` with `y = b`: with 5 and 1 for `a` and `b`, the monitor sends -4 for `x`,
      which means 4. */
  lemma LateOperandExchanged()
    ensures forall y :: y in ["x", "y"] ==> y in Two(NOp(Sub))
    ensures var (op, order, ins) := (NOp(Sub), ["x", "y"], [Values(Int(5), Int(1))]);
            var m := Monitor(Start(Two(op)), order, ins, map[], true);
            && m.Some? && |m.value.0| == 1 && |m.value.0[0]| == 2 && m.value.0[0][0] == Some(Int(-4))
            && TwoMeaning(op, ins)("x", 0) == Some(Int(4))
  {
    FirstStep(NOp(Sub), Int(5), Int(1));
    MeaningAtStart(NOp(Sub), Int(5), Int(1));
    OneStep(Two(NOp(Sub)), ["x", "y"], Values(Int(5), Int(1)));
  }

  /** If `x` is kept first, the monitor is right on all inputs if and only if the operator commutes. */
  lemma KeptBefore(op: BinOp)
    ensures (forall y :: y in ["x", "y"] ==> y in Two(op)) && (AlwaysRight(op, ["x", "y"]) <==> Commutative(op))
  {
    if Commutative(op) {
      CommutingOrdered(op);
      OrderedIsRight(op, ["x", "y"]);
    } else {
      var v := if op.SOp? then Str("a") else Int(0);
      TellingDiffers(v, op);
      ExchangeIsWrong(op, v, Telling(v, op));
    }
  }
}
