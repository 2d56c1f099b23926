/** The runtime as the object that it is: a store and a clock updated in place by the loops of one
    step and of the clean-up, each proved against the corresponding function on values. */
module RuntimeObject {
  import opened Lang
  import opened Solver
  import opened ConstraintRuntimes
  import opened SendCounters

  class Runtime {
    const order: seq<Name>
    const keep: map<Name, nat>
    var inputs: map<Name, Stream>
    var resolved: map<Name, Stream>
    var unresolved: seq<Item>
    var exprs: map<Name, SExpr>
    var time: nat

    ghost function View(): State
      reads this
    {
      State(Store(inputs, resolved, unresolved), time, exprs)
    }

    ghost predicate Valid()
      reads this
    {
      (forall y :: y in order <==> y in exprs) && forall y :: y in exprs ==> Static(exprs[y])
    }

    /** `longest` are the longest time dependencies that the dependency manager reports. */
    constructor (outputs: seq<Name>, equations: map<Name, SExpr>, longest: map<Name, nat>)
      requires (forall y :: y in outputs <==> y in equations) && forall y :: y in equations ==> Static(equations[y])
      ensures Valid() && View() == Start(equations) && order == outputs && keep == longest
    {
      order, keep := outputs, longest;
      inputs, resolved, unresolved, exprs, time := map[], map[], [], equations, 0;
    }

    method RecordInputs(ins: seq<(Name, Value)>)
      modifies this`inputs
      ensures inputs == Record(old(inputs), ins, time)
    {
      for i := 0 to |ins|
        invariant Record(inputs, ins[i..], time) == Record(old(inputs), ins, time)
      {
        inputs := Push(inputs, ins[i].0, time, ins[i].1);
        assert ins[i..][1..] == ins[i + 1..];
      }
    }

    /** One round of folding over all equations; `changed` tells whether any of them has changed. */
    method FoldRound() returns (ok: bool, changed: bool)
      requires Valid()
      modifies this`exprs
      ensures ok == Foldable(old(exprs))
      ensures ok ==> exprs == FoldAll(old(exprs)) && (!changed ==> exprs == old(exprs))
      ensures ok && FoldAll(old(exprs)) == old(exprs) ==> !changed
      ensures Valid()
    {
      ok, changed := true, false;
      var folded: map<Name, SExpr> := map[];
      for i := 0 to |order|
        invariant forall y :: y in folded <==> y in order[..i]
        invariant forall y :: y in folded ==> FoldOne(exprs[y]) == Some(folded[y]) && (!changed ==> folded[y] == exprs[y])
        invariant changed ==> exists y :: y in folded && folded[y] != exprs[y]
      {
        var y := order[i];
        if exprs[y].Val? {
          folded := folded[y := exprs[y]];
        } else {
          match Fold(exprs[y])
          case Panic =>
            ok := false;
            return;
          case Resolved(v) =>
            changed := true;
            folded := folded[y := Val(v)];
          case Unresolved(e) =>
            if e != exprs[y] { changed := true; }
            folded := folded[y := e];
        }
      }
      assert order[..|order|] == order;
      assert Foldable(exprs);
      assert folded == FoldAll(exprs);
      FoldAllStatic(exprs);
      exprs := folded;
    }

    /** Folds until nothing changes: one round does it, a second one notices. */
    method FoldExprs() returns (ok: bool)
      requires Valid()
      modifies this`exprs
      ensures ok == Foldable(old(exprs)) && (ok ==> exprs == FoldAll(old(exprs)))
      ensures Valid()
    {
      var changed := true;
      ghost var rounds := 0;
      while changed
        invariant Valid() && rounds <= 2
        invariant rounds == 0 ==> exprs == old(exprs) && changed
        invariant rounds != 0 ==> Foldable(old(exprs)) && exprs == FoldAll(old(exprs))
        invariant rounds == 2 ==> !changed
        decreases 2 - rounds
      {
        if rounds != 0 { FoldAllStatic(old(exprs)); }
        ok, changed := FoldRound();
        if !ok { return; }
        rounds := rounds + 1;
      }
      ok := true;
    }

    method AddUnresolved()
      requires Valid()
      modifies this`unresolved
      ensures unresolved == AddItems(order, old(unresolved), exprs, time)
    {
      var all: seq<Item> := [];
      for i := 0 to |order|
        invariant unresolved == old(unresolved)
        invariant all + AddItems(order[i..], unresolved, exprs, time) == AddItems(order, unresolved, exprs, time)
      {
        var y := order[i];
        var added := Of(unresolved, y) + [Item(y, time, ToAbsolute(exprs[y], time))];
        assert order[i..][1..] == order[i + 1..] && order[i..][0] == y;
        assert all + (added + AddItems(order[i + 1..], unresolved, exprs, time)) ==
               all + added + AddItems(order[i + 1..], unresolved, exprs, time);
        all := all + added;
      }
      unresolved := all;
    }

    /** One pass over the unresolved items, which keep their old contents until its end. */
    method ResolveRound() returns (ok: bool, changed: bool)
      modifies this`resolved, this`unresolved
      ensures ok == Pass(old(unresolved), old(View().store), time).Some?
      ensures ok ==>
                var p := Pass(old(unresolved), old(View().store), time).value;
                View().store == AfterPass(old(View().store), p) && changed == (p.log != [])
    {
      ghost var st := View().store;
      ghost var log: seq<Entry> := [];
      var rest: seq<Item> := [];
      ok, changed := true, false;
      FromStart(st, time);
      for i := 0 to |unresolved|
        invariant unresolved == st.unresolved && resolved == PushAll(st.resolved, log) && changed == (log != [])
        invariant PassFrom(st.(resolved := resolved), time, i, log, rest) == Pass(st.unresolved, st, time)
      {
        var it := unresolved[i];
        assert unresolved[i..][0] == it && unresolved[i..][1..] == unresolved[i + 1..];
        PassFromStep(st.(resolved := resolved), time, i, log, rest);
        match Simplify(it.expr, time, Store(inputs, resolved, unresolved))
        case Panic =>
          ok := false;
          return;
        case Resolved(v) =>
          changed := true;
          PushAllConcat(st.resolved, log, [Entry(it.name, it.time, v)]);
          PushAllOne(resolved, Entry(it.name, it.time, v));
          resolved := Push(resolved, it.name, it.time, v);
          log := log + [Entry(it.name, it.time, v)];
        case Unresolved(e) =>
          rest := rest + [it.(expr := e)];
      }
      assert PassFrom(st.(resolved := resolved), time, |unresolved|, log, rest) == Some(PassResult(log, rest)) by {
        assert unresolved[|unresolved|..] == [] && log + [] == log && rest + [] == rest;
      }
      unresolved := rest;
    }

    /** Passes until one of them resolves nothing.  `log` is what has been resolved. */
    method ResolvePossible() returns (ok: bool, ghost log: seq<Entry>)
      modifies this`resolved, this`unresolved
      ensures ok == Resolve(old(View().store), time).Some?
      ensures ok ==> Resolve(old(View().store), time) == Some((log, View().store))
    {
      var changed := true;
      log := [];
      ok := true;
      ghost var st := View().store;
      FromStart(st, time);
      while changed
        invariant changed ==> Resolve(st, time) == ResolveFrom(View().store, time, log)
        invariant !changed ==> Resolve(st, time) == Some((log, View().store))
        decreases changed, |unresolved|
      {
        ghost var before := View().store;
        ok, changed := ResolveRound();
        if !ok { return; }
        ghost var p := Pass(before.unresolved, before, time).value;
        PassSizes(before.unresolved, before, time);
        ResolveFromStep(before, time, log);
        log := log + p.log;
      }
    }

    /** Keeps the values of one stream that are not too old, in order. */
    static method Retain(values: Stream, longest: nat, now: nat) returns (kept: Stream)
      ensures kept == Recent(values, longest, now)
    {
      kept := [];
      for i := 0 to |values|
        invariant kept + Recent(values[i..], longest, now) == Recent(values, longest, now)
      {
        assert values[i..][1..] == values[i + 1..];
        if now <= longest + values[i].0 {
          assert kept + ([values[i]] + Recent(values[i + 1..], longest, now)) ==
                 kept + [values[i]] + Recent(values[i + 1..], longest, now);
          kept := kept + [values[i]];
        }
      }
    }

    method Trim(m: map<Name, Stream>) returns (trimmed: map<Name, Stream>)
      ensures trimmed == Forget(m, keep, time)
    {
      trimmed := m;
      var names := m.Keys;
      while names != {}
        invariant names <= m.Keys && trimmed.Keys == m.Keys
        invariant forall x :: x in m ==> trimmed[x] == if x in names then m[x] else Recent(m[x], Keep(keep, x), time)
        decreases |names|
      {
        var x :| x in names;
        var kept := Retain(trimmed[x], Keep(keep, x), time);
        trimmed := trimmed[x := kept];
        names := names - {x};
      }
    }

    method Cleanup()
      modifies this`inputs, this`resolved
      ensures View() == ConstraintRuntimes.Cleanup(old(View()), keep)
    {
      inputs := Trim(inputs);
      resolved := Trim(resolved);
    }

    /** Everything a step does before resolving; `ok` is false if the solver panics. */
    method ReceiveInputs(ins: seq<(Name, Value)>) returns (ok: bool)
      requires Valid()
      modifies this`inputs, this`exprs, this`unresolved
      ensures ok == Foldable(old(exprs)) && Valid()
      ensures ok ==> View() == Receive(old(View()), order, ins)
    {
      RecordInputs(ins);
      ok := FoldExprs();
      if ok { AddUnresolved(); }
    }

    /** One step. */
    method Step(ins: seq<(Name, Value)>) returns (ok: bool, ghost log: seq<Entry>)
      requires Valid()
      modifies this
      ensures ok == ConstraintRuntimes.Step(old(View()), order, ins).Some?
      ensures ok ==> ConstraintRuntimes.Step(old(View()), order, ins) == Some((log, View())) && Valid()
    {
      log := [];
      ok := ReceiveInputs(ins);
      if !ok { return; }
      ok, log := ResolvePossible();
      if !ok { return; }
      time := time + 1;
    }

    /** The monitor's loop over a finite input, with what it sends after every step: for each output the
        value that its counter asks for, if it is there. */
    method Monitor(ins: seq<seq<(Name, Value)>>) returns (ok: bool, sent: seq<seq<Option<Value>>>)
      requires Valid()
      modifies this
      ensures var m := Counting(old(View()), order, ins, keep, true, SendCounters.At(order, 0));
              ok == m.Some? && (ok ==> m == Some((sent, View())))
    {
      ok, sent := true, [];
      var next := seq(|order|, j requires 0 <= j < |order| => 0);
      ghost var s := View();
      assert ins[0..] == ins;
      MonitorFromStart(s, order, ins, keep, next);
      for i := 0 to |ins|
        invariant Valid() && |next| == |order|
        invariant MonitorFrom(View(), order, ins[i..], keep, next, sent) == Counting(s, order, ins, keep, true, SendCounters.At(order, 0))
      {
        ghost var before := View();
        assert ins[i..][0] == ins[i] && ins[i..][1..] == ins[i + 1..];
        MonitorFromStep(before, order, ins[i..], keep, next, sent);
        ghost var log;
        ok, log := Step(ins[i]);
        if !ok { return; }
        var row;
        row, next := SendResolved(next);
        sent := sent + [row];
        Cleanup();
      }
      assert sent + [] == sent;
    }

    /** One round over the outputs and their counters. */
    method SendResolved(next: seq<nat>) returns (row: seq<Option<Value>>, after: seq<nat>)
      requires |next| == |order|
      ensures row == EmitNext(View(), order, next) && after == Advance(next, row)
    {
      row, after := [], [];
      for j := 0 to |order|
        invariant |row| == |after| == j
        invariant forall i :: 0 <= i < j ==> row[i] == Lookup(resolved, order[i], next[i])
        invariant forall i :: 0 <= i < j ==> after[i] == if row[i].Some? then next[i] + 1 else next[i]
      {
        var value := Lookup(resolved, order[j], next[j]);
        row, after := row + [value], after + [if value.Some? then next[j] + 1 else next[j]];
      }
    }
  }

  // ---------------------------------------------------------------------------------------------
  // Loops in progress
  // ---------------------------------------------------------------------------------------------

  lemma PushAllOne(m: map<Name, Stream>, e: Entry)
    ensures PushAll(m, [e]) == Push(m, e.name, e.time, e.value)
  {
    assert PushAll(Push(m, e.name, e.time, e.value), [e][1..]) == Push(m, e.name, e.time, e.value);
  }

  /** A pass that has dealt with the first `i` items already. */
  ghost function PassFrom(st: Store, now: nat, i: nat, log: seq<Entry>, rest: seq<Item>): Option<PassResult>
    requires i <= |st.unresolved|
  {
    match Pass(st.unresolved[i..], st, now)
    case None => None
    case Some(p) => Some(PassResult(log + p.log, rest + p.rest))
  }

  lemma FromStart(st: Store, now: nat)
    ensures PassFrom(st, now, 0, [], []) == Pass(st.unresolved, st, now) && ResolveFrom(st, now, []) == Resolve(st, now)
  {
    assert st.unresolved[0..] == st.unresolved;
    if Pass(st.unresolved, st, now).Some? {
      var p := Pass(st.unresolved, st, now).value;
      assert [] + p.log == p.log && [] + p.rest == p.rest;
    }
    if Resolve(st, now).Some? {
      var log := Resolve(st, now).value.0;
      assert [] + log == log;
    }
  }

  lemma PassFromStep(st: Store, now: nat, i: nat, log: seq<Entry>, rest: seq<Item>)
    requires i < |st.unresolved|
    ensures var it := st.unresolved[i];
            PassFrom(st, now, i, log, rest) ==
            match Simplify(it.expr, now, st)
            case Panic => None
            case Resolved(v) =>
              PassFrom(st.(resolved := Push(st.resolved, it.name, it.time, v)), now, i + 1, log + [Entry(it.name, it.time, v)], rest)
            case Unresolved(e) => PassFrom(st, now, i + 1, log, rest + [it.(expr := e)])
  {
    var it := st.unresolved[i];
    var tail := st.unresolved[i + 1..];
    assert st.unresolved[i..] == [it] + tail;
    match Simplify(it.expr, now, st)
    case Panic =>
    case Resolved(v) =>
      var e := Entry(it.name, it.time, v);
      var st' := st.(resolved := Push(st.resolved, it.name, it.time, v));
      if Pass(tail, st', now).Some? {
        var p := Pass(tail, st', now).value;
        assert log + ([e] + p.log) == log + [e] + p.log;
      }
    case Unresolved(e) =>
      if Pass(tail, st, now).Some? {
        var p := Pass(tail, st, now).value;
        assert rest + ([it.(expr := e)] + p.rest) == rest + [it.(expr := e)] + p.rest;
      }
  }

  ghost function ResolveFrom(st: Store, now: nat, log: seq<Entry>): Option<(seq<Entry>, Store)> {
    match Resolve(st, now)
    case None => None
    case Some((more, st')) => Some((log + more, st'))
  }

  lemma ResolveFromStep(st: Store, now: nat, log: seq<Entry>)
    requires Pass(st.unresolved, st, now).Some?
    ensures var p := Pass(st.unresolved, st, now).value;
            ResolveFrom(st, now, log) ==
            if p.log == [] then Some((log, AfterPass(st, p))) else ResolveFrom(AfterPass(st, p), now, log + p.log)
  {
    var p := Pass(st.unresolved, st, now).value;
    if p.log == [] {
      assert log + [] == log;
    } else if Resolve(AfterPass(st, p), now).Some? {
      var more := Resolve(AfterPass(st, p), now).value.0;
      assert log + (p.log + more) == log + p.log + more;
    }
  }

  ghost function MonitorFrom(s: State, order: seq<Name>, ins: seq<seq<(Name, Value)>>, keep: map<Name, nat>, next: seq<nat>,
                             sent: seq<seq<Option<Value>>>): Outcomes
    requires |next| == |order| && forall y :: y in order ==> y in s.exprs
  {
    match Counting(s, order, ins, keep, true, next)
    case None => None
    case Some((more, s')) => Some((sent + more, s'))
  }

  lemma MonitorFromStart(s: State, order: seq<Name>, ins: seq<seq<(Name, Value)>>, keep: map<Name, nat>, next: seq<nat>)
    requires |next| == |order| && forall y :: y in order ==> y in s.exprs
    ensures MonitorFrom(s, order, ins, keep, next, []) == Counting(s, order, ins, keep, true, next)
  {
    var m := Counting(s, order, ins, keep, true, next);
    if m.Some? { assert [] + m.value.0 == m.value.0; }
  }

  lemma MonitorFromStep(s: State, order: seq<Name>, ins: seq<seq<(Name, Value)>>, keep: map<Name, nat>, next: seq<nat>,
                        sent: seq<seq<Option<Value>>>)
    requires ins != [] && |next| == |order| && forall y :: y in order ==> y in s.exprs
    ensures Step(s, order, ins[0]).None? ==> MonitorFrom(s, order, ins, keep, next, sent) == None
    ensures Step(s, order, ins[0]).Some? ==>
              var s1 := Step(s, order, ins[0]).value.1;
              var row := EmitNext(s1, order, next);
              (forall y :: y in order ==> y in s1.exprs)
              && MonitorFrom(s, order, ins, keep, next, sent) ==
                 MonitorFrom(Cleanup(s1, keep), order, ins[1..], keep, Advance(next, row), sent + [row])
  {
    if Step(s, order, ins[0]).Some? {
      var s1 := Step(s, order, ins[0]).value.1;
      var row := EmitNext(s1, order, next);
      var rest := Counting(Cleanup(s1, keep), order, ins[1..], keep, true, Advance(next, row));
      if rest.Some? {
        assert sent + ([row] + rest.value.0) == sent + [row] + rest.value.0;
      }
    }
  }
}
