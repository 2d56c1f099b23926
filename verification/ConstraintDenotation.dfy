/** The constraint-based runtime computes the streams that a specification denotes, and these exist. */
module ConstraintDenotations {
  import opened Lang
  import opened Solver
  import opened SolverMeaning
  import opened ConstraintRuntimes
  import opened GarbageCollection

  /** The value an input step provides for `x`, if any. */
  function Provided(ins: seq<(Name, Value)>, x: Name): Option<Value> {
    if ins == [] then None else if ins[0].0 == x then Some(ins[0].1) else Provided(ins[1..], x)
  }

  ghost predicate SolvesAt(env: Env, exprs: map<Name, SExpr>, ins: seq<(Name, Value)>, t: nat) {
    && (forall y :: y in exprs ==> Static(exprs[y]) && env(y, t) == Eval(exprs[y], t, env))
    && (forall x: Name :: x !in exprs ==>
          env(x, t) == match Provided(ins, x) case Some(v) => Some(v) case None => Some(Unknown))
    && (forall x: Name :: Provided(ins, x).Some? ==> x !in exprs)
  }

  /** Taken in the order in which they are kept, the outputs are in order given those that are done by
      then: `done`, and whichever before them read no output at the present but such ones. */
  predicate InTurn(order: seq<Name>, exprs: map<Name, SExpr>, done: set<Name>)
    requires forall y :: y in order ==> y in exprs && Static(exprs[y])
  {
    order == []
    || (var e := exprs[order[0]];
        Ordered(e, exprs.Keys, done)
        && InTurn(order[1..], exprs, if Within(e, exprs.Keys, done) then done + {order[0]} else done))
  }

  /** No operands change sides for which it could make a difference, neither when the equations are folded
      nor while they are resolved. */
  ghost predicate AllOrdered(exprs: map<Name, SExpr>, order: seq<Name>) {
    && (forall y :: y in exprs ==> Static(exprs[y]) && FoldSafe(exprs[y]))
    && (forall y :: y in order ==> y in exprs) && InTurn(order, exprs, {})
  }

  function SetOf(xs: seq<Name>): set<Name> { set x | x in xs }

  /** For example, if every output is kept after those it reads at the present. */
  lemma {:induction false} KeptInTurn(order: seq<Name>, exprs: map<Name, SExpr>, done: set<Name>)
    requires forall y :: y in order ==> y in exprs && Static(exprs[y])
    requires forall i :: 0 <= i < |order| ==> Within(exprs[order[i]], exprs.Keys, done + SetOf(order[..i]))
    ensures InTurn(order, exprs, done)
  {
    if order != [] {
      var rest, more := order[1..], done + {order[0]};
      assert done + SetOf(order[..0]) == done;
      WithinIsOrdered(exprs[order[0]], exprs.Keys, done);
      forall i | 0 <= i < |rest| ensures Within(exprs[rest[i]], exprs.Keys, more + SetOf(rest[..i])) {
        assert order[..i + 1] == [order[0]] + rest[..i];
        assert done + SetOf(order[..i + 1]) == more + SetOf(rest[..i]);
        assert Within(exprs[order[i + 1]], exprs.Keys, done + SetOf(order[..i + 1]));
      }
      KeptInTurn(rest, exprs, more);
    }
  }

  /** Or if all operators are in order without any output being done. */
  lemma {:induction false} AnyTurn(order: seq<Name>, exprs: map<Name, SExpr>, done: set<Name>)
    requires forall y :: y in order ==> y in exprs && Static(exprs[y]) && Ordered(exprs[y], exprs.Keys, {})
    ensures InTurn(order, exprs, done)
  {
    if order != [] {
      WithinMore(exprs[order[0]], exprs.Keys, {}, done);
      AnyTurn(order[1..], exprs, if Within(exprs[order[0]], exprs.Keys, done) then done + {order[0]} else done);
    }
  }

  /** What is done once `it` has had its turn. */
  function NextDone(it: Item, now: nat, outs: set<Name>, done: set<Name>): set<Name> {
    if WithinA(it.expr, now, outs, done) then done + {it.name} else done
  }

  /** The same for items. */
  predicate ItemsInTurn(items: seq<Item>, now: nat, outs: set<Name>, done: set<Name>) {
    items == []
    || (OrderedA(items[0].expr, now, outs, done) && ItemsInTurn(items[1..], now, outs, NextDone(items[0], now, outs, done)))
  }

  /** What is done at the end of a pass. */
  function AllDone(items: seq<Item>, now: nat, outs: set<Name>, done: set<Name>): set<Name> {
    if items == [] then done else AllDone(items[1..], now, outs, NextDone(items[0], now, outs, done))
  }

  lemma {:induction false} AllDoneGrows(items: seq<Item>, now: nat, outs: set<Name>, done: set<Name>)
    ensures done <= AllDone(items, now, outs, done)
  {
    if items != [] { AllDoneGrows(items[1..], now, outs, NextDone(items[0], now, outs, done)); }
  }

  /** Items that take their turns are in order at the end of the pass. */
  lemma {:induction false} TurnsOrder(items: seq<Item>, now: nat, outs: set<Name>, done: set<Name>)
    requires ItemsInTurn(items, now, outs, done)
    ensures ItemsOrdered(items, now, outs, AllDone(items, now, outs, done))
  {
    if items != [] {
      AllDoneGrows(items, now, outs, done);
      OrderedMore(items[0].expr, now, outs, done, AllDone(items, now, outs, done));
      TurnsOrder(items[1..], now, outs, NextDone(items[0], now, outs, done));
    }
  }

  /** Items that are in order already can take their turns. */
  lemma {:induction false} OrderTurns(items: seq<Item>, now: nat, outs: set<Name>, done: set<Name>, more: set<Name>)
    requires ItemsOrdered(items, now, outs, done) && done <= more
    ensures ItemsInTurn(items, now, outs, more)
  {
    if items != [] {
      OrderedMore(items[0].expr, now, outs, done, more);
      OrderTurns(items[1..], now, outs, done, NextDone(items[0], now, outs, more));
    }
  }

  lemma {:induction false} LookupRecord(m: map<Name, Stream>, ins: seq<(Name, Value)>, t: nat, x: Name, u: nat)
    ensures Lookup(Record(m, ins, t), x, u) ==
            if Lookup(m, x, u).Some? then Lookup(m, x, u) else if u == t then Provided(ins, x) else None
    decreases |ins|
  {
    if ins != [] {
      LookupPush(m, ins[0].0, t, ins[0].1, x, u);
      LookupRecord(Push(m, ins[0].0, t, ins[0].1), ins[1..], t, x, u);
    }
  }

  lemma PushSound(st: Store, x: Name, now: nat, v: Value, env: Env)
    requires Sound(st, now, env) && env(x, now) == Some(v)
    ensures Sound(st.(resolved := Push(st.resolved, x, now, v)), now, env)
  {
    var st' := st.(resolved := Push(st.resolved, x, now, v));
    forall y: Name, u: nat | u <= now
      ensures match st'.Read(y, u)
              case Some(w) => env(y, u) == Some(w)
              case None => st'.Pending(y, u).None? ==> env(y, u) == Some(Unknown)
    {
      LookupPush(st.resolved, x, now, v, y, u);
      assert match st.Read(y, u)
             case Some(w) => env(y, u) == Some(w)
             case None => st.Pending(y, u).None? ==> env(y, u) == Some(Unknown);
    }
  }

  ghost predicate TrueEntries(log: seq<Entry>, now: nat, env: Env) {
    forall e :: e in log ==> e.time == now && env(e.name, now) == Some(e.value)
  }

  /** Each of the outputs in `items` is in the log or still waits. */
  ghost predicate Covered(items: seq<Item>, log: seq<Entry>, rest: seq<Item>) {
    forall it :: it in items ==> (exists e :: e in log && e.name == it.name) || (exists j :: j in rest && j.name == it.name)
  }

  /** Items that can take their turns, given what is done. */
  ghost predicate Turn(items: seq<Item>, st: Store, now: nat, keep: map<Name, nat>, outs: set<Name>, done: set<Name>, env: Env) {
    && ItemsOf(items, now, outs) && ItemsFit(items, now, keep) && Meant(items, now, env)
    && ItemsInTurn(items, now, outs, done) && DoneAt(st, now, done)
  }

  lemma TurnTail(items: seq<Item>, st: Store, now: nat, keep: map<Name, nat>, outs: set<Name>, done: set<Name>, all: set<Name>, env: Env)
    requires items != [] && Turn(items, st, now, keep, outs, done, env) && Sane(st, now, keep, outs, all, env)
    ensures Simplify(items[0].expr, now, st).Unresolved? ==> Turn(items[1..], st, now, keep, outs, NextDone(items[0], now, outs, done), env)
    ensures Simplify(items[0].expr, now, st).Resolved? ==>
              var st' := st.(resolved := Push(st.resolved, items[0].name, now, Simplify(items[0].expr, now, st).v));
              Turn(items[1..], st', now, keep, outs, NextDone(items[0], now, outs, done), env)
  {
    var it := items[0];
    assert it in items;
    if WithinA(it.expr, now, outs, done) { WithinResolves(it.expr, now, st, keep, outs, done); }
    if Simplify(it.expr, now, st).Resolved? {
      var v := Simplify(it.expr, now, st).v;
      forall x | x in NextDone(it, now, outs, done) ensures Lookup(Push(st.resolved, it.name, now, v), x, now).Some? {
        LookupPush(st.resolved, it.name, now, v, x, now);
      }
    }
  }

  /** A pass resolves items to their true values only, keeps the meaning of the others, and panics
      only over an output that is undefined. */
  lemma {:induction false} PassCorrect(items: seq<Item>, st: Store, now: nat, keep: map<Name, nat>, outs: set<Name>,
                                       done: set<Name>, all: set<Name>, env: Env)
    requires Sane(st, now, keep, outs, all, env) && Turn(items, st, now, keep, outs, done, env)
    requires AllDone(items, now, outs, done) <= all
    ensures Pass(items, st, now).None? ==> exists y :: y in outs && env(y, now) == None
    ensures Pass(items, st, now).Some? ==>
              var p := Pass(items, st, now).value;
              var st' := st.(resolved := PushAll(st.resolved, p.log));
              && TrueEntries(p.log, now, env) && Meant(p.rest, now, env) && ItemsOf(p.rest, now, outs)
              && ItemsOrdered(p.rest, now, outs, all) && Covered(items, p.log, p.rest)
              && Sound(st', now, env) && DoneAt(st', now, AllDone(items, now, outs, done))
  {
    if items != [] {
      var it, tail := items[0], items[1..];
      AllDoneGrows(items, now, outs, done);
      TurnTail(items, st, now, keep, outs, done, all, env);
      SimplifyCorrect(it.expr, now, st, keep, outs, done, all, env);
      match Simplify(it.expr, now, st)
      case Panic => assert it.name in outs && env(it.name, now) == None;
      case Resolved(v) =>
        PushSound(st, it.name, now, v, env);
        var st' := st.(resolved := Push(st.resolved, it.name, it.time, v));
        PassCorrect(tail, st', now, keep, outs, NextDone(it, now, outs, done), all, env);
        if Pass(tail, st', now).Some? {
          var q := Pass(tail, st', now).value;
          assert Entry(it.name, it.time, v) in Pass(items, st, now).value.log;
          assert ([Entry(it.name, it.time, v)] + q.log)[1..] == q.log;
        }
      case Unresolved(a) =>
        PassCorrect(tail, st, now, keep, outs, NextDone(it, now, outs, done), all, env);
        if Pass(tail, st, now).Some? {
          assert it.(expr := a) in Pass(items, st, now).value.rest;
        }
    }
  }

  lemma {:induction false} LookupPushAll(m: map<Name, Stream>, log: seq<Entry>, now: nat, y: Name)
    requires exists e :: e in log && e.name == y && e.time == now
    ensures Lookup(PushAll(m, log), y, now).Some?
    decreases |log|
  {
    LookupPush(m, log[0].name, log[0].time, log[0].value, y, now);
    if log[0].name == y && log[0].time == now {
      LookupGrows(Push(m, log[0].name, log[0].time, log[0].value), log[1..], now, y);
    } else {
      LookupPushAll(Push(m, log[0].name, log[0].time, log[0].value), log[1..], now, y);
    }
  }

  lemma {:induction false} LookupGrows(m: map<Name, Stream>, log: seq<Entry>, now: nat, y: Name)
    requires Lookup(m, y, now).Some?
    ensures Lookup(PushAll(m, log), y, now).Some?
    decreases |log|
  {
    if log != [] {
      LookupPush(m, log[0].name, log[0].time, log[0].value, y, now);
      LookupGrows(Push(m, log[0].name, log[0].time, log[0].value), log[1..], now, y);
    }
  }

  lemma AfterPassSound(st: Store, p: PassResult, now: nat, outs: set<Name>, env: Env)
    requires ItemsOf(st.unresolved, now, outs) && ItemsOf(p.rest, now, outs) && TrueEntries(p.log, now, env)
    requires Sound(st.(resolved := PushAll(st.resolved, p.log)), now, env) && Covered(st.unresolved, p.log, p.rest)
    ensures Sound(AfterPass(st, p), now, env)
  {
    var mid, st' := st.(resolved := PushAll(st.resolved, p.log)), AfterPass(st, p);
    forall x: Name, t: nat | t <= now
      ensures match st'.Read(x, t)
              case Some(v) => env(x, t) == Some(v)
              case None => st'.Pending(x, t).None? ==> env(x, t) == Some(Unknown)
    {
      assert match mid.Read(x, t)
             case Some(v) => env(x, t) == Some(v)
             case None => mid.Pending(x, t).None? ==> env(x, t) == Some(Unknown);
      FindItemIn(st.unresolved, x, t);
      FindItemIn(p.rest, x, t);
      if st.Pending(x, t).Some? && st'.Read(x, t).None? {
        assert Item(x, t, st.Pending(x, t).value) in st.unresolved;
        if e :| e in p.log && e.name == x { LookupPushAll(st.resolved, p.log, now, x); }
      }
    }
  }

  lemma CoveredFurther(items: seq<Item>, log: seq<Entry>, rest: seq<Item>, more: seq<Entry>, left: seq<Item>)
    requires Covered(items, log, rest) && Covered(rest, more, left)
    ensures Covered(items, log + more, left)
  {
    forall it | it in items
      ensures (exists e :: e in log + more && e.name == it.name) || (exists j :: j in left && j.name == it.name)
    {
      if e :| e in log && e.name == it.name {
        assert e in log + more;
      } else {
        var j :| j in rest && j.name == it.name;
        if e :| e in more && e.name == j.name { assert e in log + more; }
      }
    }
  }

  /** A store whose items can take their turns. */
  ghost predicate Resolvable(st: Store, now: nat, keep: map<Name, nat>, outs: set<Name>, done: set<Name>, env: Env) {
    Sound(st, now, env) && Turn(st.unresolved, st, now, keep, outs, done, env)
  }

  /** One pass leaves such a store again, with more that is done. */
  lemma PassResolvable(st: Store, now: nat, keep: map<Name, nat>, outs: set<Name>, done: set<Name>, env: Env)
    requires Resolvable(st, now, keep, outs, done, env)
    ensures Pass(st.unresolved, st, now).None? ==> exists y :: y in outs && env(y, now) == None
    ensures Pass(st.unresolved, st, now).Some? ==>
              var p := Pass(st.unresolved, st, now).value;
              && Resolvable(AfterPass(st, p), now, keep, outs, AllDone(st.unresolved, now, outs, done), env)
              && TrueEntries(p.log, now, env) && Covered(st.unresolved, p.log, p.rest)
  {
    var all := AllDone(st.unresolved, now, outs, done);
    TurnsOrder(st.unresolved, now, outs, done);
    PassCorrect(st.unresolved, st, now, keep, outs, done, all, env);
    if Pass(st.unresolved, st, now).Some? {
      var p := Pass(st.unresolved, st, now).value;
      PassFits(st.unresolved, st, now, keep);
      AfterPassSound(st, p, now, outs, env);
      OrderTurns(p.rest, now, outs, all, all);
    }
  }

  lemma {:induction false} ResolveCorrect(st: Store, now: nat, keep: map<Name, nat>, outs: set<Name>, done: set<Name>, env: Env)
    requires Resolvable(st, now, keep, outs, done, env)
    ensures Resolve(st, now).None? ==> exists y :: y in outs && env(y, now) == None
    ensures Resolve(st, now).Some? ==>
              var (log, st') := Resolve(st, now).value;
              && TrueEntries(log, now, env) && Sound(st', now, env)
              && st'.inputs == st.inputs && st'.resolved == PushAll(st.resolved, log)
              && Covered(st.unresolved, log, st'.unresolved)
    decreases |st.unresolved|
  {
    PassResolvable(st, now, keep, outs, done, env);
    if Pass(st.unresolved, st, now).Some? {
      var p := Pass(st.unresolved, st, now).value;
      PassSizes(st.unresolved, st, now);
      if p.log != [] {
        ResolveCorrect(AfterPass(st, p), now, keep, outs, AllDone(st.unresolved, now, outs, done), env);
        if Resolve(AfterPass(st, p), now).Some? {
          var (log, st') := Resolve(AfterPass(st, p), now).value;
          PushAllConcat(st.resolved, p.log, log);
          CoveredFurther(st.unresolved, p.log, p.rest, log, st'.unresolved);
        }
      }
    }
  }

  /** At the start of a step, the store knows every stream's past and nothing else. */
  ghost predicate Faithful(s: State, env: Env) {
    && s.store.unresolved == []
    && forall x: Name, t: nat ::
         match s.store.Read(x, t)
         case Some(v) => t < s.time && env(x, t) == Some(v)
         case None => t < s.time ==> env(x, t) == Some(Unknown)
  }

  lemma FoldSolves(env: Env, exprs: map<Name, SExpr>, ins: seq<(Name, Value)>, t: nat)
    requires Foldable(exprs) && (forall y :: y in exprs ==> FoldSafe(exprs[y])) && SolvesAt(env, exprs, ins, t)
    ensures SolvesAt(env, FoldAll(exprs), ins, t)
  {
    forall y | y in exprs ensures Static(FoldAll(exprs)[y]) && env(y, t) == Eval(FoldAll(exprs)[y], t, env) {
      FoldCorrect(exprs[y], t, env);
    }
  }

  lemma {:induction false} FoldInTurn(order: seq<Name>, exprs: map<Name, SExpr>, done: set<Name>, more: set<Name>)
    requires Foldable(exprs) && (forall y :: y in order ==> y in exprs) && InTurn(order, exprs, done) && done <= more
    ensures (forall y :: y in order ==> Static(FoldAll(exprs)[y])) && InTurn(order, FoldAll(exprs), more)
  {
    FoldAllStatic(exprs);
    if order != [] {
      var e := exprs[order[0]];
      WithinMore(e, exprs.Keys, done, more);
      if Fold(e).Unresolved? {
        FoldKeepsOrdered(e, exprs.Keys, more);
        if Within(e, exprs.Keys, more) { FoldKeepsWithin(e, exprs.Keys, more); }
      }
      assert FoldAll(exprs).Keys == exprs.Keys;
      var f := FoldAll(exprs)[order[0]];
      FoldInTurn(order[1..], exprs, if Within(e, exprs.Keys, done) then done + {order[0]} else done,
                 if Within(f, exprs.Keys, more) then more + {order[0]} else more);
    }
  }

  lemma FoldOrdered(exprs: map<Name, SExpr>, order: seq<Name>)
    requires Foldable(exprs) && AllOrdered(exprs, order)
    ensures AllOrdered(FoldAll(exprs), order)
  {
    FoldInTurn(order, exprs, {}, {});
    forall y | y in exprs ensures Static(FoldAll(exprs)[y]) && FoldSafe(FoldAll(exprs)[y]) {
      if Fold(exprs[y]).Unresolved? { FoldKeepsSafe(exprs[y]); }
    }
  }

  lemma {:induction false} AddItemsMeant(order: seq<Name>, exprs: map<Name, SExpr>, t: nat, env: Env)
    requires forall y :: y in order ==> y in exprs && Static(exprs[y]) && Unnested(exprs[y]) && env(y, t) == Eval(exprs[y], t, env)
    ensures var items := AddItems(order, [], exprs, t);
            Meant(items, t, env) && ItemsOf(items, t, exprs.Keys) && forall y :: y in order <==> FindItem(items, y, t).Some?
  {
    if order != [] {
      UnnestedIsReadable(exprs[order[0]]);
      AbsoluteCorrect(exprs[order[0]], t, env);
      AddItemsMeant(order[1..], exprs, t, env);
    }
  }

  lemma {:induction false} AddItemsInTurn(order: seq<Name>, exprs: map<Name, SExpr>, t: nat, done: set<Name>, more: set<Name>)
    requires (forall y :: y in order ==> y in exprs && Static(exprs[y]) && PastOnly(exprs[y])) && InTurn(order, exprs, done) && done <= more
    ensures ItemsInTurn(AddItems(order, [], exprs, t), t, exprs.Keys, more)
  {
    if order != [] {
      var e := exprs[order[0]];
      var items := AddItems(order, [], exprs, t);
      assert items == [Item(order[0], t, ToAbsolute(e, t))] + AddItems(order[1..], [], exprs, t);
      WithinMore(e, exprs.Keys, done, more);
      AbsoluteReads(e, t, exprs.Keys, more);
      AddItemsInTurn(order[1..], exprs, t, if Within(e, exprs.Keys, done) then done + {order[0]} else done,
                     NextDone(items[0], t, exprs.Keys, more));
    }
  }

  lemma RecordSound(s: State, st: Store, ins: seq<(Name, Value)>, env: Env)
    requires Faithful(s, env) && st.inputs == Record(s.store.inputs, ins, s.time) && st.resolved == s.store.resolved
    requires forall y :: st.Pending(y, s.time).None? ==>
               env(y, s.time) == match Provided(ins, y) case Some(v) => Some(v) case None => Some(Unknown)
    requires forall y :: Provided(ins, y).Some? ==> env(y, s.time) == Provided(ins, y)
    ensures Sound(st, s.time, env)
  {
    forall x: Name, t: nat | t <= s.time
      ensures match st.Read(x, t)
              case Some(v) => env(x, t) == Some(v)
              case None => st.Pending(x, t).None? ==> env(x, t) == Some(Unknown)
    {
      LookupRecord(s.store.inputs, ins, s.time, x, t);
      assert match s.store.Read(x, t)
             case Some(v) => t < s.time && env(x, t) == Some(v)
             case None => t < s.time ==> env(x, t) == Some(Unknown);
    }
  }

  lemma FoldedTurn(exprs: map<Name, SExpr>, order: seq<Name>, ins: seq<(Name, Value)>, st: Store, t: nat, keep: map<Name, nat>, env: Env)
    requires Retaining(exprs, order, keep) && AllOrdered(exprs, order) && SolvesAt(env, exprs, ins, t)
    requires st.unresolved == AddItems(order, [], exprs, t)
    ensures Turn(st.unresolved, st, t, keep, exprs.Keys, {}, env)
    ensures forall y :: y in order <==> st.Pending(y, t).Some?
  {
    AddItemsFit(order, [], exprs, t, keep);
    AddItemsMeant(order, exprs, t, env);
    AddItemsInTurn(order, exprs, t, {}, {});
  }

  lemma ReceiveSound(s: State, order: seq<Name>, ins: seq<(Name, Value)>, keep: map<Name, nat>, env: Env)
    requires Retaining(s.exprs, order, keep) && AllOrdered(s.exprs, order) && Foldable(s.exprs)
    requires Faithful(s, env) && SolvesAt(env, s.exprs, ins, s.time)
    ensures var r := Receive(s, order, ins);
            && Resolvable(r.store, s.time, keep, s.exprs.Keys, {}, env)
            && forall y :: y in order ==> FindItem(r.store.unresolved, y, s.time).Some?
  {
    var r := Receive(s, order, ins);
    FoldAllStatic(s.exprs);
    FoldRetaining(s.exprs, order, keep);
    FoldOrdered(s.exprs, order);
    FoldSolves(env, s.exprs, ins, s.time);
    assert r.exprs.Keys == s.exprs.Keys;
    FoldedTurn(r.exprs, order, ins, r.store, s.time, keep, env);
    RecordSound(s, r.store, ins, env);
  }

  ghost predicate UndefinedAt(exprs: map<Name, SExpr>, env: Env, t: nat) { exists y :: y in exprs && env(y, t) == None }

  /** The values sent for time `t` are those of the streams. */
  ghost predicate RightRow(row: seq<Option<Value>>, order: seq<Name>, env: Env, t: nat) {
    |row| == |order| && forall j :: 0 <= j < |order| ==> row[j].Some? && row[j] == env(order[j], t)
  }

  /** If nothing waits any more, every output has been resolved, and to its value. */
  lemma RowCorrect(before: Store, after: Store, order: seq<Name>, log: seq<Entry>, now: nat, outs: set<Name>, env: Env)
    requires ItemsOf(before.unresolved, now, outs) && Covered(before.unresolved, log, []) && TrueEntries(log, now, env)
    requires Sound(after, now, env) && after.resolved == PushAll(before.resolved, log)
    requires forall y :: y in order ==> FindItem(before.unresolved, y, now).Some?
    ensures forall i :: 0 <= i < |order| ==> Lookup(after.resolved, order[i], now).Some? && Lookup(after.resolved, order[i], now) == env(order[i], now)
  {
    forall i | 0 <= i < |order|
      ensures Lookup(after.resolved, order[i], now).Some? && Lookup(after.resolved, order[i], now) == env(order[i], now)
    {
      FindItemIn(before.unresolved, order[i], now);
      assert order[i] in order;
      var it := Item(order[i], now, FindItem(before.unresolved, order[i], now).value);
      assert it in before.unresolved;
      LookupPushAll(before.resolved, log, now, order[i]);
      assert after.Read(order[i], now) == Lookup(after.resolved, order[i], now);
    }
  }

  /** What one step resolves. */
  lemma StepResolves(s: State, order: seq<Name>, ins: seq<(Name, Value)>, keep: map<Name, nat>, rank: map<Name, nat>, env: Env)
    requires Productive(s.exprs, order, keep, rank) && AllOrdered(s.exprs, order) && Foldable(s.exprs)
    requires Faithful(s, env) && SolvesAt(env, s.exprs, ins, s.time)
    ensures var r := Receive(s, order, ins);
            && (Resolve(r.store, s.time).None? ==> UndefinedAt(s.exprs, env, s.time))
            && (Resolve(r.store, s.time).Some? ==>
                  var (log, st) := Resolve(r.store, s.time).value;
                  && TrueEntries(log, s.time, env) && Sound(st, s.time, env) && st.unresolved == []
                  && st.inputs == Record(s.store.inputs, ins, s.time) && st.resolved == PushAll(s.store.resolved, log)
                  && (forall i :: 0 <= i < |order| ==>
                        Lookup(st.resolved, order[i], s.time).Some? && Lookup(st.resolved, order[i], s.time) == env(order[i], s.time)))
  {
    var r := Receive(s, order, ins);
    ReceiveSound(s, order, ins, keep, env);
    FoldAllStatic(s.exprs);
    FoldProductive(s.exprs, order, keep, rank);
    AddItemsInv(order, r.exprs, s.time, keep, rank);
    ResolveCorrect(r.store, s.time, keep, s.exprs.Keys, {}, env);
    if Resolve(r.store, s.time).Some? {
      var (log, st) := Resolve(r.store, s.time).value;
      ResolveCompletes(r.store, s.time, keep, rank);
      RowCorrect(r.store, st, order, log, s.time, s.exprs.Keys, env);
    }
  }

  /** One step computes the denoted value of every output, or panics over one that has none. */
  lemma StepCorrect(s: State, order: seq<Name>, ins: seq<(Name, Value)>, keep: map<Name, nat>, rank: map<Name, nat>, env: Env)
    requires Productive(s.exprs, order, keep, rank) && AllOrdered(s.exprs, order) && Foldable(s.exprs)
    requires Faithful(s, env) && SolvesAt(env, s.exprs, ins, s.time)
    ensures Step(s, order, ins).None? ==> UndefinedAt(s.exprs, env, s.time)
    ensures Step(s, order, ins).Some? ==>
              var s' := Step(s, order, ins).value.1;
              && s'.time == s.time + 1 && s'.exprs == FoldAll(s.exprs) && Faithful(s', env)
              && RightRow(Emit(s', order, s.time), order, env, s.time)
  {
    StepResolves(s, order, ins, keep, rank, env);
    var r := Receive(s, order, ins);
    if Resolve(r.store, s.time).Some? {
      var (log, st) := Resolve(r.store, s.time).value;
      StepFaithful(s, order, ins, log, st, env);
    }
  }

  lemma StepFaithful(s: State, order: seq<Name>, ins: seq<(Name, Value)>, log: seq<Entry>, st: Store, env: Env)
    requires Faithful(s, env) && Sound(st, s.time, env) && st.unresolved == []
    requires st.inputs == Record(s.store.inputs, ins, s.time) && st.resolved == PushAll(s.store.resolved, log)
    requires TrueEntries(log, s.time, env)
    ensures Faithful(State(st, s.time + 1, s.exprs), env)
  {
    forall x: Name, t: nat
      ensures match st.Read(x, t)
              case Some(v) => t < s.time + 1 && env(x, t) == Some(v)
              case None => t < s.time + 1 ==> env(x, t) == Some(Unknown)
    {
      if t <= s.time {
        assert match st.Read(x, t)
               case Some(v) => env(x, t) == Some(v)
               case None => st.Pending(x, t).None? ==> env(x, t) == Some(Unknown);
      } else {
        LookupRecord(s.store.inputs, ins, s.time, x, t);
        LookupPushAllElse(s.store.resolved, log, s.time, x, t);
        assert s.store.Read(x, t) == None by {
          assert match s.store.Read(x, t)
                 case Some(v) => t < s.time && env(x, t) == Some(v)
                 case None => t < s.time ==> env(x, t) == Some(Unknown);
        }
      }
    }
  }

  lemma {:induction false} LookupPushAllElse(m: map<Name, Stream>, log: seq<Entry>, now: nat, x: Name, t: nat)
    requires (forall e :: e in log ==> e.time == now) && t != now
    ensures Lookup(PushAll(m, log), x, t) == Lookup(m, x, t)
    decreases |log|
  {
    if log != [] {
      LookupPush(m, log[0].name, log[0].time, log[0].value, x, t);
      LookupPushAllElse(Push(m, log[0].name, log[0].time, log[0].value), log[1..], now, x, t);
    }
  }

  ghost predicate Solves(env: Env, exprs: map<Name, SExpr>, ins: seq<seq<(Name, Value)>>, from: nat) {
    forall i :: 0 <= i < |ins| ==> SolvesAt(env, exprs, ins[i], from + i)
  }

  ghost predicate RightRows(rows: seq<seq<Option<Value>>>, order: seq<Name>, env: Env, from: nat) {
    forall i :: 0 <= i < |rows| ==> RightRow(rows[i], order, env, from + i)
  }

  ghost predicate UndefinedWithin(exprs: map<Name, SExpr>, env: Env, from: nat, steps: nat) {
    exists t :: from <= t < from + steps && UndefinedAt(exprs, env, t)
  }

  lemma FoldSolvesRest(env: Env, exprs: map<Name, SExpr>, ins: seq<seq<(Name, Value)>>, from: nat)
    requires ins != [] && Foldable(exprs) && (forall y :: y in exprs ==> FoldSafe(exprs[y])) && Solves(env, exprs, ins, from)
    ensures Solves(env, FoldAll(exprs), ins[1..], from + 1)
  {
    forall i | 0 <= i < |ins[1..]| ensures SolvesAt(env, FoldAll(exprs), ins[1..][i], from + 1 + i) {
      assert SolvesAt(env, exprs, ins[i + 1], from + (i + 1));
      FoldSolves(env, exprs, ins[i + 1], from + 1 + i);
    }
  }

  lemma RightRowsCons(row: seq<Option<Value>>, rows: seq<seq<Option<Value>>>, order: seq<Name>, env: Env, from: nat)
    requires RightRow(row, order, env, from) && RightRows(rows, order, env, from + 1)
    ensures RightRows([row] + rows, order, env, from)
  {
    forall i | 0 <= i < |[row] + rows| ensures RightRow(([row] + rows)[i], order, env, from + i) {
      if 0 < i { assert ([row] + rows)[i] == rows[i - 1] && RightRow(rows[i - 1], order, env, from + 1 + (i - 1)); }
    }
  }

  ghost predicate Ready(s: State, order: seq<Name>, keep: map<Name, nat>, rank: map<Name, nat>, env: Env) {
    Productive(s.exprs, order, keep, rank) && AllOrdered(s.exprs, order) && Foldable(s.exprs) && Faithful(s, env)
  }

  lemma StepReady(s: State, order: seq<Name>, ins: seq<(Name, Value)>, keep: map<Name, nat>, rank: map<Name, nat>, env: Env)
    requires Ready(s, order, keep, rank, env) && SolvesAt(env, s.exprs, ins, s.time)
    ensures Step(s, order, ins).None? ==> UndefinedAt(s.exprs, env, s.time)
    ensures Step(s, order, ins).Some? ==>
              var s' := Step(s, order, ins).value.1;
              && Ready(s', order, keep, rank, env) && s'.time == s.time + 1 && s'.exprs == FoldAll(s.exprs)
              && RightRow(Emit(s', order, s.time), order, env, s.time)
  {
    StepCorrect(s, order, ins, keep, rank, env);
    FoldAllStatic(s.exprs);
    FoldProductive(s.exprs, order, keep, rank);
    FoldOrdered(s.exprs, order);
  }

  lemma LaterUndefined(exprs: map<Name, SExpr>, env: Env, from: nat, steps: nat)
    requires Foldable(exprs) && UndefinedWithin(FoldAll(exprs), env, from + 1, steps)
    ensures UndefinedWithin(exprs, env, from, steps + 1)
  {
    var t :| from + 1 <= t < from + 1 + steps && UndefinedAt(FoldAll(exprs), env, t);
    assert UndefinedAt(exprs, env, t);
  }

  /** A monitor's outcome is right from time `from` on: it has sent the value of every output at each
      of `steps` times, or has panicked because some output has none within them. */
  ghost predicate RightOutcome(m: Outcomes, exprs: map<Name, SExpr>, order: seq<Name>,
                               env: Env, from: nat, steps: nat)
  {
    match m
    case None => UndefinedWithin(exprs, env, from, steps)
    case Some((sent, _)) => |sent| == steps && RightRows(sent, order, env, from)
  }

  lemma MonitorUnfold(s: State, order: seq<Name>, ins: seq<seq<(Name, Value)>>, keep: map<Name, nat>)
    requires ins != [] && (forall y :: y in order ==> y in s.exprs)
    ensures Step(s, order, ins[0]).None? ==> Monitor(s, order, ins, keep, false) == None
    ensures Step(s, order, ins[0]).Some? ==>
              var s1 := Step(s, order, ins[0]).value.1;
              (forall y :: y in order ==> y in s1.exprs)
              && Monitor(s, order, ins, keep, false) == Prepend(Emit(s1, order, s.time), Monitor(s1, order, ins[1..], keep, false))
  {
  }

  lemma OutcomeCons(all: Outcomes, first: seq<Option<Value>>, rest: Outcomes, exprs: map<Name, SExpr>, folded: map<Name, SExpr>,
                    order: seq<Name>, env: Env, from: nat, next: nat, steps: nat, left: nat)
    requires steps == left + 1 && next == from + 1 && all == Prepend(first, rest)
    requires Foldable(exprs) && folded == FoldAll(exprs) && RightRow(first, order, env, from)
    requires RightOutcome(rest, folded, order, env, next, left)
    ensures RightOutcome(all, exprs, order, env, from, steps)
  {
    if rest.None? {
      LaterUndefined(exprs, env, from, left);
    } else {
      RightRowsCons(first, rest.value.0, order, env, from);
    }
  }

  lemma OutcomeStep(s: State, s1: State, order: seq<Name>, ins: seq<seq<(Name, Value)>>, keep: map<Name, nat>, env: Env)
    requires ins != [] && (forall y :: y in order ==> y in s.exprs && y in s1.exprs) && Foldable(s.exprs)
    requires Step(s, order, ins[0]).Some? && Step(s, order, ins[0]).value.1 == s1
    requires s1.time == s.time + 1 && s1.exprs == FoldAll(s.exprs) && RightRow(Emit(s1, order, s.time), order, env, s.time)
    requires RightOutcome(Monitor(s1, order, ins[1..], keep, false), s1.exprs, order, env, s1.time, |ins[1..]|)
    ensures RightOutcome(Monitor(s, order, ins, keep, false), s.exprs, order, env, s.time, |ins|)
  {
    MonitorUnfold(s, order, ins, keep);
    OutcomeCons(Monitor(s, order, ins, keep, false), Emit(s1, order, s.time), Monitor(s1, order, ins[1..], keep, false),
                s.exprs, s1.exprs, order, env, s.time, s1.time, |ins|, |ins[1..]|);
  }

  lemma OutcomePanic(s: State, order: seq<Name>, ins: seq<seq<(Name, Value)>>, keep: map<Name, nat>, env: Env)
    requires ins != [] && (forall y :: y in order ==> y in s.exprs) && Step(s, order, ins[0]).None? && UndefinedAt(s.exprs, env, s.time)
    ensures RightOutcome(Monitor(s, order, ins, keep, false), s.exprs, order, env, s.time, |ins|)
  {
    MonitorUnfold(s, order, ins, keep);
  }

  /** From state `s` on, the monitor that keeps everything has a right outcome. */
  ghost predicate EndsRight(s: State, order: seq<Name>, ins: seq<seq<(Name, Value)>>, keep: map<Name, nat>, env: Env) {
    (forall y :: y in order ==> y in s.exprs) && RightOutcome(Monitor(s, order, ins, keep, false), s.exprs, order, env, s.time, |ins|)
  }

  lemma NothingToSend(s: State, order: seq<Name>, keep: map<Name, nat>, env: Env)
    requires forall y :: y in order ==> y in s.exprs
    ensures EndsRight(s, order, [], keep, env)
  {
  }

  lemma SolvesFirst(env: Env, exprs: map<Name, SExpr>, ins: seq<seq<(Name, Value)>>, from: nat)
    requires ins != [] && Solves(env, exprs, ins, from)
    ensures SolvesAt(env, exprs, ins[0], from)
  {
    assert SolvesAt(env, exprs, ins[0], from + 0);
  }

  /** What the first step does, and what is left to be shown. */
  lemma FirstStep(s: State, order: seq<Name>, ins: seq<seq<(Name, Value)>>, keep: map<Name, nat>, rank: map<Name, nat>, env: Env)
    requires Ready(s, order, keep, rank, env) && ins != [] && SolvesAt(env, s.exprs, ins[0], s.time)
    requires Step(s, order, ins[0]).Some? ==> EndsRight(Step(s, order, ins[0]).value.1, order, ins[1..], keep, env)
    ensures EndsRight(s, order, ins, keep, env)
  {
    StepReady(s, order, ins[0], keep, rank, env);
    if Step(s, order, ins[0]).None? {
      OutcomePanic(s, order, ins, keep, env);
    } else {
      OutcomeStep(s, Step(s, order, ins[0]).value.1, order, ins, keep, env);
    }
  }

  lemma {:induction false} MonitorCorrect(s: State, order: seq<Name>, ins: seq<seq<(Name, Value)>>, keep: map<Name, nat>, rank: map<Name, nat>, env: Env)
    requires Ready(s, order, keep, rank, env) && Solves(env, s.exprs, ins, s.time)
    ensures EndsRight(s, order, ins, keep, env)
    decreases |ins|
  {
    if ins == [] {
      NothingToSend(s, order, keep, env);
    } else {
      SolvesFirst(env, s.exprs, ins, s.time);
      FoldSolvesRest(env, s.exprs, ins, s.time);
      StepReady(s, order, ins[0], keep, rank, env);
      if Step(s, order, ins[0]).Some? { MonitorCorrect(Step(s, order, ins[0]).value.1, order, ins[1..], keep, rank, env); }
      FirstStep(s, order, ins, keep, rank, env);
    }
  }

  // ---------------------------------------------------------------------------------------------
  // Productive specifications denote streams
  // ---------------------------------------------------------------------------------------------

  /** The value of an expression at time `t`, reading only outputs of rank below `r` at that time:
      the reference semantics, by recursion over time and rank. `top` exceeds every rank. */
  function Denote(exprs: map<Name, SExpr>, rank: map<Name, nat>, ins: seq<seq<(Name, Value)>>, top: nat, e: SExpr, t: nat, r: nat): Option<Value>
    requires Static(e) && forall y :: y in exprs ==> y in rank && Static(exprs[y])
    decreases t, r, e
  {
    match e
    case Val(v) => Some(v)
    case Var(x) =>
      if x in exprs then
        if rank[x] < r then Denote(exprs, rank, ins, top, exprs[x], t, rank[x]) else None
      else
        InputAt(ins, x, t)
    case SIndex(a, i) =>
      if t + i < 0 then Some(Unknown)
      else if i < 0 then Denote(exprs, rank, ins, top, a, t + i, top)
      else if i == 0 then Denote(exprs, rank, ins, top, a, t, r)
      else None
    case BinOp(p, q, op) => Strict(Denote(exprs, rank, ins, top, p, t, r), Denote(exprs, rank, ins, top, q, t, r), op)
    case If(b, p, q) =>
      (match Denote(exprs, rank, ins, top, b, t, r)
       case Some(Bool(c)) => if c then Denote(exprs, rank, ins, top, p, t, r) else Denote(exprs, rank, ins, top, q, t, r)
       case _ => None)
    case Call2(_, p, q) =>
      (match Denote(exprs, rank, ins, top, p, t, r)
       case Some(Unknown) => Denote(exprs, rank, ins, top, q, t, r)
       case v => v)
  }

  function InputAt(ins: seq<seq<(Name, Value)>>, x: Name, t: nat): Option<Value> {
    if t < |ins| && Provided(ins[t], x).Some? then Provided(ins[t], x) else Some(Unknown)
  }

  ghost function Meaning(exprs: map<Name, SExpr>, rank: map<Name, nat>, ins: seq<seq<(Name, Value)>>, top: nat): Env
    requires forall y :: y in exprs ==> y in rank && Static(exprs[y])
  {
    (x: Name, t: nat) => if x in exprs then Denote(exprs, rank, ins, top, exprs[x], t, rank[x]) else InputAt(ins, x, t)
  }

  lemma BelowTop(e: SExpr, rank: map<Name, nat>, top: nat)
    requires Static(e) && forall y :: y in rank ==> rank[y] < top
    ensures Below(e, rank, top)
  {
  }

  lemma {:induction false} DenoteIsEval(exprs: map<Name, SExpr>, rank: map<Name, nat>, ins: seq<seq<(Name, Value)>>, top: nat, e: SExpr, t: nat, r: nat)
    requires Static(e) && PastOnly(e) && Below(e, rank, r) && forall y :: y in exprs ==> y in rank && Static(exprs[y])
    requires forall y :: y in rank ==> rank[y] < top
    ensures Denote(exprs, rank, ins, top, e, t, r) == Eval(e, t, Meaning(exprs, rank, ins, top))
  {
    match e
    case BinOp(p, q, _) => DenoteIsEval(exprs, rank, ins, top, p, t, r); DenoteIsEval(exprs, rank, ins, top, q, t, r);
    case SIndex(a, i) =>
      if i == 0 {
        DenoteIsEval(exprs, rank, ins, top, a, t, r);
      } else if 0 <= t + i {
        BelowTop(a, rank, top);
        DenoteIsEval(exprs, rank, ins, top, a, t + i, top);
      }
    case If(b, p, q) =>
      DenoteIsEval(exprs, rank, ins, top, b, t, r);
      DenoteIsEval(exprs, rank, ins, top, p, t, r);
      DenoteIsEval(exprs, rank, ins, top, q, t, r);
    case Call2(_, p, q) => DenoteIsEval(exprs, rank, ins, top, p, t, r); DenoteIsEval(exprs, rank, ins, top, q, t, r);
    case _ =>
  }

  lemma MeaningSolves(exprs: map<Name, SExpr>, order: seq<Name>, ins: seq<seq<(Name, Value)>>,
                      keep: map<Name, nat>, rank: map<Name, nat>, top: nat)
    requires Productive(exprs, order, keep, rank) && (forall y :: y in rank ==> rank[y] < top)
    requires forall i :: 0 <= i < |ins| ==> OnlyInputs(ins[i], exprs)
    ensures Solves(Meaning(exprs, rank, ins, top), exprs, ins, 0)
  {
    var env := Meaning(exprs, rank, ins, top);
    forall i | 0 <= i < |ins| ensures SolvesAt(env, exprs, ins[i], 0 + i) {
      forall y | y in exprs ensures env(y, i) == Eval(exprs[y], i, env) {
        DenoteIsEval(exprs, rank, ins, top, exprs[y], i, rank[y]);
      }
    }
  }

  ghost predicate OnlyInputs(ins: seq<(Name, Value)>, exprs: map<Name, SExpr>) {
    forall x: Name :: Provided(ins, x).Some? ==> x !in exprs
  }

  /** The monitor, forgetting all that its dependency manager lets it forget, sends for every time
      and output the value that the specification denotes; if it panics, some output has none. */
  lemma MonitorComputesDenotation(exprs: map<Name, SExpr>, order: seq<Name>, ins: seq<seq<(Name, Value)>>,
                                  keep: map<Name, nat>, rank: map<Name, nat>, top: nat)
    requires Productive(exprs, order, keep, rank) && AllOrdered(exprs, order) && Foldable(exprs)
    requires (forall y :: y in rank ==> rank[y] < top) && forall i :: 0 <= i < |ins| ==> OnlyInputs(ins[i], exprs)
    ensures RightOutcome(Monitor(Start(exprs), order, ins, keep, true), exprs, order, Meaning(exprs, rank, ins, top), 0, |ins|)
  {
    var env := Meaning(exprs, rank, ins, top);
    MeaningSolves(exprs, order, ins, keep, rank, top);
    assert Faithful(Start(exprs), env);
    MonitorCorrect(Start(exprs), order, ins, keep, rank, env);
    ProductiveIsPrompt(Start(exprs), order, ins, keep, rank, false);
    PromptIsLasting(Start(exprs), order, ins, keep);
    ForgettingIsInvisible(exprs, order, ins, keep);
  }
}
