/** Items that outlive their step, because an output waits for itself, as in `x = if c then x else a[-1]`.

    While `c` is true, the item of every past time waits for the one of the present and takes over its
    expression; when `c` becomes false, all of them are resolved at once, reading `a` where the present item
    of their last step would have read it. */
module LateItems {
  import opened Lang
  import opened Solver
  import opened ConstraintRuntimes
  import opened GarbageCollection
  import opened ConstraintDenotations

  /** `x = if c then x else a[-1]`. */
  function Circular(): map<Name, SExpr> { map["x" := If(Var("c"), Var("x"), SIndex(Var("a"), -1))] }

  /** `a` is kept for one step, which is as far as the equation looks back. */
  function Longest(): map<Name, nat> { map["a" := 1] }

  /** The equation, pinned to time `t`. */
  function Pinned(t: nat): AbsExpr {
    AIf(AVar(t, "c"), AVar(t, "x"), if t == 0 then AVal(Unknown) else AIndex(AVar(t, "a"), t - 1))
  }

  /** What waits at time `n` if `c` was true in the last `p` steps: every item has become the last one. */
  function Late(n: nat, p: nat): (items: seq<Item>)
    requires p <= n
    ensures |items| == p
  {
    if p == 0 then [] else [Item("x", n - p, Pinned(n - 1))] + Late(n, p - 1)
  }

  function Present(n: nat): Item { Item("x", n, Pinned(n)) }

  lemma NamesDiffer()
    ensures "a" != "c" && "a" != "x" && "c" != "x"
  {
    assert "a"[0] == 'a' && "c"[0] == 'c' && "x"[0] == 'x';
  }

  lemma CircularRetained()
    ensures Retaining(Circular(), ["x"], Longest()) && Foldable(Circular()) && FoldAll(Circular()) == Circular()
  {
    var (c, x, a) := (Var("c"), Var("x"), Var("a"));
    assert Static(c) && Static(x) && Static(a) && Static(SIndex(a, -1)) && Static(Circular()["x"]);
    assert Fold(c) == Unresolved(c) && Fold(a) == Unresolved(a) && Fold(SIndex(a, -1)) == Unresolved(SIndex(a, -1));
    assert Vars(a) == {"a"} && Keep(Longest(), "a") == 1 && Magnitude(-1) == 1;
    assert PastOnly(a) && PastOnly(c) && PastOnly(x) && NoIndex(a) && Unnested(c) && Unnested(x);
    assert Retained(a, Longest()) && Retained(c, Longest()) && Retained(x, Longest());
    assert ["x"][0] in ["x"];
  }

  // ---------------------------------------------------------------------------------------------
  // Items
  // ---------------------------------------------------------------------------------------------

  lemma {:induction false} LateOf(n: nat, p: nat)
    requires p <= n
    ensures Of(Late(n, p), "x") == Late(n, p)
  {
    if p != 0 { LateOf(n, p - 1); }
  }

  lemma {:induction false} LateFind(n: nat, p: nat, m: nat)
    requires p <= n
    ensures FindItem(Late(n, p) + [Present(n)], "x", n) == Some(Pinned(n)) && FindItem(Late(n, p) + [Present(n)], "a", m) == None
  {
    NamesDiffer();
    var items := Late(n, p) + [Present(n)];
    if p == 0 {
      assert items == [Present(n)] && items[1..] == [];
    } else {
      LateFind(n, p - 1, m);
      assert items[0] == Item("x", n - p, Pinned(n - 1)) && items[1..] == Late(n, p - 1) + [Present(n)];
    }
  }

  lemma Received(s: State, p: nat, ins: seq<(Name, Value)>)
    requires p <= s.time && s.exprs == Circular() && s.store.unresolved == Late(s.time, p)
    ensures Foldable(Circular())
    ensures Receive(s, ["x"], ins) ==
            State(Store(Record(s.store.inputs, ins, s.time), s.store.resolved, Late(s.time, p) + [Present(s.time)]), s.time, Circular())
  {
    CircularRetained();
    LateOf(s.time, p);
    PinnedNow(s.time);
    assert ["x"][1..] == [] && ["x"][0] == "x";
    assert AddItems(["x"], Late(s.time, p), Circular(), s.time) ==
           Late(s.time, p) + [Present(s.time)] + AddItems([], Late(s.time, p), Circular(), s.time);
  }

  lemma PinnedNow(t: nat)
    ensures Static(Circular()["x"]) && ToAbsolute(Circular()["x"], t) == Pinned(t)
  {
    assert ToAbsolute(Var("a"), t) == AVar(t, "a") && ToAbsolute(Var("c"), t) == AVar(t, "c") && ToAbsolute(Var("x"), t) == AVar(t, "x");
  }

  // ---------------------------------------------------------------------------------------------
  // A pass in which nothing is resolved
  // ---------------------------------------------------------------------------------------------

  ghost predicate Closed(st: Store, n: nat) {
    st.Read("c", n) == Some(Bool(true)) && st.Read("x", n) == None && st.Pending("x", n) == Some(Pinned(n))
  }

  lemma WaitsForX(n: nat, u: nat, st: Store)
    requires Closed(st, n)
    ensures Simplify(Pinned(u), n, st) == Unresolved(Pinned(n))
  {
    assert Simplify(AVar(u, "c"), n, st) == Resolved(Bool(true)) && Simplify(AVar(u, "x"), n, st) == Unresolved(Pinned(n));
  }

  /** While `c` is true, every item becomes the present one. */
  lemma {:induction false} WaitPass(st: Store, n: nat, p: nat)
    requires p <= n && Closed(st, n)
    ensures Pass(Late(n, p) + [Present(n)], st, n) == Some(PassResult([], Late(n + 1, p + 1)))
  {
    var items := Late(n, p) + [Present(n)];
    WaitsForX(n, n, st);
    if p == 0 {
      assert items == [Present(n)] && items[1..] == [] && Late(n + 1, 1) == [Present(n)] + [];
    } else {
      WaitsForX(n, n - 1, st);
      WaitPass(st, n, p - 1);
      assert items[0] == Item("x", n - p, Pinned(n - 1)) && items[1..] == Late(n, p - 1) + [Present(n)];
    }
  }

  // ---------------------------------------------------------------------------------------------
  // A pass in which everything is
  // ---------------------------------------------------------------------------------------------

  /** `c` is false, and of `a` the store has `u` two steps back and `w` one step back. */
  ghost predicate Opened(st: Store, n: nat, u: Option<Value>, w: Option<Value>) {
    && st.Read("c", n) == Some(Bool(false))
    && (2 <= n ==> st.Read("a", n - 2) == u && st.Pending("a", n - 2) == None)
    && (1 <= n ==> st.Read("a", n - 1) == w && st.Pending("a", n - 1) == None)
  }

  /** What the late items are resolved to, and what the present one is. */
  function LateValue(n: nat, u: Option<Value>): Value { if n < 2 || u.None? then Unknown else u.value }
  function PresentValue(n: nat, w: Option<Value>): Value { if n < 1 || w.None? then Unknown else w.value }

  lemma OpenedPinned(st: Store, n: nat, u: Option<Value>, w: Option<Value>)
    requires Opened(st, n, u, w)
    ensures Simplify(Pinned(n), n, st) == Resolved(PresentValue(n, w))
    ensures 1 <= n ==> Simplify(Pinned(n - 1), n, st) == Resolved(LateValue(n, u))
  {
    assert Simplify(AVar(n, "c"), n, st) == Resolved(Bool(false));
    if 1 <= n {
      assert Simplify(AVar(n - 1, "c"), n, st) == Resolved(Bool(false));
      assert Simplify(AVar(n, "a"), n - 1, st) == Resolved(PresentValue(n, w));
    }
    if 2 <= n { assert Simplify(AVar(n - 1, "a"), n - 2, st) == Resolved(LateValue(n, u)); }
  }

  lemma OpenedStill(st: Store, n: nat, u: Option<Value>, w: Option<Value>, t: nat, v: Value)
    requires Opened(st, n, u, w)
    ensures Opened(st.(resolved := Push(st.resolved, "x", t, v)), n, u, w)
  {
    NamesDiffer();
    LookupPush(st.resolved, "x", t, v, "c", n);
    if 1 <= n { LookupPush(st.resolved, "x", t, v, "a", n - 1); }
    if 2 <= n { LookupPush(st.resolved, "x", t, v, "a", n - 2); }
  }

  function Woken(n: nat, p: nat, u: Value, w: Value): (log: seq<Entry>)
    requires p <= n
    ensures |log| == p + 1
  {
    if p == 0 then [Entry("x", n, w)] else [Entry("x", n - p, u)] + Woken(n, p - 1, u, w)
  }

  lemma {:induction false} WakePass(st: Store, n: nat, p: nat, u: Option<Value>, w: Option<Value>)
    requires p <= n && Opened(st, n, u, w)
    ensures Pass(Late(n, p) + [Present(n)], st, n) == Some(PassResult(Woken(n, p, LateValue(n, u), PresentValue(n, w)), []))
    decreases p
  {
    var items := Late(n, p) + [Present(n)];
    OpenedPinned(st, n, u, w);
    if p == 0 {
      assert items == [Present(n)] && items[1..] == [];
      assert [Entry("x", n, PresentValue(n, w))] + [] == [Entry("x", n, PresentValue(n, w))];
    } else {
      OpenedStill(st, n, u, w, n - p, LateValue(n, u));
      WakePass(st.(resolved := Push(st.resolved, "x", n - p, LateValue(n, u))), n, p - 1, u, w);
      assert items[0] == Item("x", n - p, Pinned(n - 1)) && items[1..] == Late(n, p - 1) + [Present(n)];
    }
  }

  /** A pass that resolves everything is the last but one. */
  lemma ResolveAll(st: Store, now: nat, log: seq<Entry>)
    requires Pass(st.unresolved, st, now) == Some(PassResult(log, [])) && log != []
    ensures Resolve(st, now) == Some((log, st.(resolved := PushAll(st.resolved, log), unresolved := [])))
  {
    var st1 := AfterPass(st, PassResult(log, []));
    assert Pass(st1.unresolved, st1, now) == Some(PassResult([], []));
    assert Resolve(st1, now) == Some(([], AfterPass(st1, PassResult([], []))));
    PassSizes(st.unresolved, st, now);
    assert log + [] == log;
  }

  // ---------------------------------------------------------------------------------------------
  // What a step finds
  // ---------------------------------------------------------------------------------------------

  function FirstIn(log: seq<Entry>, x: Name, t: nat): Option<Value> {
    if log == [] then None else if log[0].name == x && log[0].time == t then Some(log[0].value) else FirstIn(log[1..], x, t)
  }

  lemma {:induction false} LookupLog(m: map<Name, Stream>, log: seq<Entry>, x: Name, t: nat)
    ensures Lookup(PushAll(m, log), x, t) == if Lookup(m, x, t).Some? then Lookup(m, x, t) else FirstIn(log, x, t)
    decreases |log|
  {
    if log != [] {
      LookupPush(m, log[0].name, log[0].time, log[0].value, x, t);
      LookupLog(Push(m, log[0].name, log[0].time, log[0].value), log[1..], x, t);
    }
  }

  lemma {:induction false} WokenFirst(n: nat, p: nat, u: Value, w: Value, x: Name, t: nat)
    requires p <= n
    ensures FirstIn(Woken(n, p, u, w), x, t) == if x == "x" && n - p <= t <= n then Some(if t < n then u else w) else None
  {
    if p == 0 {
      assert [Entry("x", n, w)][1..] == [];
    } else {
      WokenFirst(n, p - 1, u, w, x, t);
      assert Woken(n, p, u, w)[1..] == Woken(n, p - 1, u, w);
    }
  }

  /** Inputs that give a boolean for `c` and a value for `a` at every time. */
  ghost predicate Fed(ins: seq<seq<(Name, Value)>>) {
    forall i :: 0 <= i < |ins| ==>
      Provided(ins[i], "c").Some? && Provided(ins[i], "c").value.Bool? && Provided(ins[i], "a").Some? && Provided(ins[i], "x") == None
  }

  predicate C(ins: seq<seq<(Name, Value)>>, t: nat) { t < |ins| && Provided(ins[t], "c") == Some(Bool(true)) }

  function A(ins: seq<seq<(Name, Value)>>, t: nat): Value {
    if t < |ins| && Provided(ins[t], "a").Some? then Provided(ins[t], "a").value else Unknown
  }

  /** The state at time `n` when `x` waits for the last `p` times and is resolved for all before them. */
  ghost predicate Reached(s: State, ins: seq<seq<(Name, Value)>>, n: nat, p: nat, forget: bool) {
    && p <= n <= |ins| && s.exprs == Circular() && s.time == n && s.store.unresolved == Late(n, p)
    && (forall y: Name, t: nat :: Lookup(s.store.inputs, y, t) ==
          if t < n && (forget ==> n <= t + Keep(Longest(), y)) then Provided(ins[t], y) else None)
    && (forall y: Name, t: nat :: Lookup(s.store.resolved, y, t).Some? <==> !forget && y == "x" && t < n - p)
  }

  lemma StartReached(ins: seq<seq<(Name, Value)>>, forget: bool)
    ensures Reached(Start(Circular()), ins, 0, 0, forget)
  {
  }

  /** What has been received for time `n` before it is cleaned up. */
  ghost predicate Filled(m: map<Name, Stream>, ins: seq<seq<(Name, Value)>>, n: nat, forget: bool) {
    && n < |ins|
    && (forall y: Name, t: nat :: Lookup(m, y, t) ==
          if t <= n && (t == n || (forget ==> n <= t + Keep(Longest(), y))) then Provided(ins[t], y) else None)
  }

  lemma RecordFilled(s: State, ins: seq<seq<(Name, Value)>>, n: nat, p: nat, forget: bool)
    requires Reached(s, ins, n, p, forget) && n < |ins|
    ensures Filled(Record(s.store.inputs, ins[n], n), ins, n, forget)
  {
    forall y: Name, t: nat
      ensures Lookup(Record(s.store.inputs, ins[n], n), y, t) ==
              if t <= n && (t == n || (forget ==> n <= t + Keep(Longest(), y))) then Provided(ins[t], y) else None
    {
      LookupRecord(s.store.inputs, ins[n], n, y, t);
    }
  }

  lemma OnwardReached(s1: State, ins: seq<seq<(Name, Value)>>, n: nat, p: nat, forget: bool)
    requires p <= n + 1 && s1.exprs == Circular() && s1.time == n + 1 && s1.store.unresolved == Late(n + 1, p)
    requires Filled(s1.store.inputs, ins, n, forget)
    requires forall y: Name, t: nat :: Lookup(s1.store.resolved, y, t).Some? ==> y == "x" && t < n + 1 - p
    requires !forget ==> forall t: nat :: t < n + 1 - p ==> Lookup(s1.store.resolved, "x", t).Some?
    ensures Reached(Onward(s1, Longest(), forget), ins, n + 1, p, forget)
  {
    NamesDiffer();
    var s2 := Onward(s1, Longest(), forget);
    forall y: Name, t: nat
      ensures Lookup(s2.store.inputs, y, t) ==
              if t < n + 1 && (forget ==> n + 1 <= t + Keep(Longest(), y)) then Provided(ins[t], y) else None
      ensures Lookup(s2.store.resolved, y, t).Some? <==> !forget && y == "x" && t < n + 1 - p
    {
      LookupForget(s1.store.inputs, Longest(), n + 1, y, t);
      LookupForget(s1.store.resolved, Longest(), n + 1, y, t);
    }
  }

  /** A step with `c` true resolves nothing. */
  lemma WaitStep(s: State, ins: seq<seq<(Name, Value)>>, n: nat, p: nat, forget: bool)
    requires Reached(s, ins, n, p, forget) && Fed(ins) && C(ins, n)
    ensures var r := Step(s, ["x"], ins[n]);
            && r.Some? && r.value.0 == [] && r.value.1.store.resolved == s.store.resolved
            && Reached(Onward(r.value.1, Longest(), forget), ins, n + 1, p + 1, forget)
  {
    Received(s, p, ins[n]);
    RecordFilled(s, ins, n, p, forget);
    var st := Receive(s, ["x"], ins[n]).store;
    LateFind(n, p, 0);
    assert Lookup(st.inputs, "c", n) == Provided(ins[n], "c") && Lookup(st.inputs, "x", n) == Provided(ins[n], "x");
    assert Lookup(st.resolved, "c", n) == None && Lookup(st.resolved, "x", n) == None by { NamesDiffer(); }
    assert Closed(st, n);
    WaitPass(st, n, p);
    OnwardReached(Step(s, ["x"], ins[n]).value.1, ins, n, p + 1, forget);
  }

  /** What an item reads that has waited since the last step. */
  function Missed(ins: seq<seq<(Name, Value)>>, n: nat, forget: bool): Value {
    if n < 2 || forget then Unknown else A(ins, n - 2)
  }

  function Current(ins: seq<seq<(Name, Value)>>, n: nat): Value { if n < 1 then Unknown else A(ins, n - 1) }

  lemma StoreOpened(st: Store, ins: seq<seq<(Name, Value)>>, n: nat, p: nat, forget: bool) returns (u: Option<Value>, w: Option<Value>)
    requires Filled(st.inputs, ins, n, forget) && Fed(ins) && !C(ins, n) && p <= n && st.unresolved == Late(n, p) + [Present(n)]
    requires forall y: Name, t: nat :: Lookup(st.resolved, y, t).Some? ==> y == "x"
    ensures Opened(st, n, u, w) && LateValue(n, u) == Missed(ins, n, forget) && PresentValue(n, w) == Current(ins, n)
  {
    NamesDiffer();
    u, w := None, None;
    assert Lookup(st.inputs, "c", n) == Provided(ins[n], "c");
    if 1 <= n {
      LateFind(n, p, n - 1);
      w := Lookup(st.inputs, "a", n - 1);
      assert Keep(Longest(), "a") == 1 && w == Provided(ins[n - 1], "a");
    }
    if 2 <= n {
      LateFind(n, p, n - 2);
      u := Lookup(st.inputs, "a", n - 2);
      assert u == if forget then None else Provided(ins[n - 2], "a");
    }
  }

  /** A step with `c` false resolves all that waits. */
  lemma WakeStep(s: State, ins: seq<seq<(Name, Value)>>, n: nat, p: nat, forget: bool)
    requires Reached(s, ins, n, p, forget) && Fed(ins) && n < |ins| && !C(ins, n)
    ensures var (r, log) := (Step(s, ["x"], ins[n]), Woken(n, p, Missed(ins, n, forget), Current(ins, n)));
            && r.Some? && r.value.0 == log && r.value.1.store.resolved == PushAll(s.store.resolved, log)
            && Reached(Onward(r.value.1, Longest(), forget), ins, n + 1, 0, forget)
  {
    Received(s, p, ins[n]);
    RecordFilled(s, ins, n, p, forget);
    var st := Receive(s, ["x"], ins[n]).store;
    var u, w := StoreOpened(st, ins, n, p, forget);
    var log := Woken(n, p, Missed(ins, n, forget), Current(ins, n));
    WakePass(st, n, p, u, w);
    ResolveAll(st, n, log);
    var s1 := Step(s, ["x"], ins[n]).value.1;
    forall y: Name, t: nat
      ensures Lookup(s1.store.resolved, y, t).Some? ==> y == "x" && t < n + 1
      ensures !forget && y == "x" && t < n + 1 ==> Lookup(s1.store.resolved, y, t).Some?
    {
      LookupLog(s.store.resolved, log, y, t);
      WokenFirst(n, p, Missed(ins, n, forget), Current(ins, n), y, t);
    }
    OnwardReached(s1, ins, n, 0, forget);
  }
}
