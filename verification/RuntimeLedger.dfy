/** What the constraint-based runtime keeps account of, for every specification, productive or not:
    no output of any time is lost or resolved twice, and the store stays within its bounds. */
module RuntimeLedger {
  import opened Lang
  import opened Solver
  import opened ConstraintRuntimes

  // ---------------------------------------------------------------------------------------------
  // Counting what is recorded for a name and a time
  // ---------------------------------------------------------------------------------------------

  function InStream(s: Stream, t: nat): nat {
    if s == [] then 0 else (if s[0].0 == t then 1 else 0) + InStream(s[1..], t)
  }

  function Recorded(m: map<Name, Stream>, x: Name, t: nat): nat { if x in m then InStream(m[x], t) else 0 }

  function InLog(log: seq<Entry>, x: Name, t: nat): nat {
    if log == [] then 0 else (if log[0].name == x && log[0].time == t then 1 else 0) + InLog(log[1..], x, t)
  }

  function Waiting(items: seq<Item>, x: Name, t: nat): nat {
    if items == [] then 0 else (if items[0].name == x && items[0].time == t then 1 else 0) + Waiting(items[1..], x, t)
  }

  function Given(ins: seq<(Name, Value)>, x: Name): nat {
    if ins == [] then 0 else (if ins[0].0 == x then 1 else 0) + Given(ins[1..], x)
  }

  lemma {:induction false} InStreamAppend(s: Stream, v: Value, t: nat, u: nat)
    ensures InStream(s + [(t, v)], u) == InStream(s, u) + if u == t then 1 else 0
  {
    if s == [] {
      assert s + [(t, v)] == [(t, v)];
    } else {
      InStreamAppend(s[1..], v, t, u);
      assert (s + [(t, v)])[1..] == s[1..] + [(t, v)];
    }
  }

  lemma RecordedPush(m: map<Name, Stream>, x: Name, t: nat, v: Value, y: Name, u: nat)
    ensures Recorded(Push(m, x, t, v), y, u) == Recorded(m, y, u) + if y == x && u == t then 1 else 0
  {
    if y == x { InStreamAppend(if x in m then m[x] else [], v, t, u); }
  }

  lemma {:induction false} RecordedPushAll(m: map<Name, Stream>, log: seq<Entry>, y: Name, u: nat)
    ensures Recorded(PushAll(m, log), y, u) == Recorded(m, y, u) + InLog(log, y, u)
    decreases |log|
  {
    if log != [] {
      RecordedPush(m, log[0].name, log[0].time, log[0].value, y, u);
      RecordedPushAll(Push(m, log[0].name, log[0].time, log[0].value), log[1..], y, u);
    }
  }

  lemma {:induction false} RecordedRecord(m: map<Name, Stream>, ins: seq<(Name, Value)>, t: nat, y: Name, u: nat)
    ensures Recorded(Record(m, ins, t), y, u) == Recorded(m, y, u) + if u == t then Given(ins, y) else 0
    decreases |ins|
  {
    if ins != [] {
      RecordedPush(m, ins[0].0, t, ins[0].1, y, u);
      RecordedRecord(Push(m, ins[0].0, t, ins[0].1), ins[1..], t, y, u);
    }
  }

  lemma {:induction false} InRecent(s: Stream, longest: nat, now: nat, t: nat)
    ensures InStream(Recent(s, longest, now), t) == if now <= longest + t then InStream(s, t) else 0
  {
    if s != [] {
      InRecent(s[1..], longest, now, t);
      var rest := Recent(s[1..], longest, now);
      assert [] + rest == rest && ([s[0]] + rest)[1..] == rest;
    }
  }

  lemma RecordedForget(m: map<Name, Stream>, keep: map<Name, nat>, now: nat, x: Name, t: nat)
    ensures Recorded(Forget(m, keep, now), x, t) == if now <= Keep(keep, x) + t then Recorded(m, x, t) else 0
  {
    if x in m { InRecent(m[x], Keep(keep, x), now, t); }
  }

  // ---------------------------------------------------------------------------------------------
  // Conservation: nothing is lost, nothing is resolved twice
  // ---------------------------------------------------------------------------------------------

  lemma {:induction false} WaitingConcat(a: seq<Item>, b: seq<Item>, x: Name, t: nat)
    ensures Waiting(a + b, x, t) == Waiting(a, x, t) + Waiting(b, x, t)
  {
    if a == [] {
      assert a + b == b;
    } else {
      WaitingConcat(a[1..], b, x, t);
      assert (a + b)[1..] == a[1..] + b;
    }
  }

  lemma {:induction false} InLogConcat(a: seq<Entry>, b: seq<Entry>, x: Name, t: nat)
    ensures InLog(a + b, x, t) == InLog(a, x, t) + InLog(b, x, t)
  {
    if a == [] {
      assert a + b == b;
    } else {
      InLogConcat(a[1..], b, x, t);
      assert (a + b)[1..] == a[1..] + b;
    }
  }

  lemma {:induction false} WaitingOf(items: seq<Item>, y: Name, x: Name, t: nat)
    ensures Waiting(Of(items, y), x, t) == if x == y then Waiting(items, x, t) else 0
  {
    if items != [] {
      WaitingOf(items[1..], y, x, t);
      WaitingConcat(if items[0].name == y then [items[0]] else [], Of(items[1..], y), x, t);
    }
  }

  /** Pinning the outputs adds exactly one item for each of them and keeps those that wait already. */
  lemma {:induction false} WaitingAdded(order: seq<Name>, items: seq<Item>, exprs: map<Name, SExpr>, now: nat, x: Name, t: nat)
    requires Distinct(order) && forall y :: y in order ==> y in exprs && Static(exprs[y])
    ensures Waiting(AddItems(order, items, exprs, now), x, t) ==
            if x in order then Waiting(items, x, t) + (if t == now then 1 else 0) else 0
  {
    if order != [] {
      var y := order[0];
      var added := [Item(y, now, ToAbsolute(exprs[y], now))];
      assert x in order <==> x == y || x in order[1..];
      WaitingAdded(order[1..], items, exprs, now, x, t);
      WaitingOf(items, y, x, t);
      WaitingConcat(Of(items, y), added, x, t);
      WaitingConcat(Of(items, y) + added, AddItems(order[1..], items, exprs, now), x, t);
    }
  }

  lemma {:induction false} PassConserves(items: seq<Item>, st: Store, now: nat, x: Name, t: nat)
    requires Pass(items, st, now).Some?
    ensures var p := Pass(items, st, now).value;
            InLog(p.log, x, t) + Waiting(p.rest, x, t) == Waiting(items, x, t)
  {
    if items != [] {
      var it := items[0];
      match Simplify(it.expr, now, st)
      case Resolved(v) => PassConserves(items[1..], st.(resolved := Push(st.resolved, it.name, it.time, v)), now, x, t);
      case Unresolved(_) => PassConserves(items[1..], st, now, x, t);
      case Panic =>
    }
  }

  lemma {:induction false} ResolveConserves(st: Store, now: nat, x: Name, t: nat)
    requires Resolve(st, now).Some?
    ensures var (log, st') := Resolve(st, now).value;
            && InLog(log, x, t) + Waiting(st'.unresolved, x, t) == Waiting(st.unresolved, x, t)
            && st'.resolved == PushAll(st.resolved, log) && st'.inputs == st.inputs
    decreases |st.unresolved|
  {
    var p := Pass(st.unresolved, st, now).value;
    PassConserves(st.unresolved, st, now, x, t);
    PassSizes(st.unresolved, st, now);
    if p.log != [] {
      ResolveConserves(AfterPass(st, p), now, x, t);
      var (log, st') := Resolve(AfterPass(st, p), now).value;
      InLogConcat(p.log, log, x, t);
      PushAllConcat(st.resolved, p.log, log);
    }
  }

  ghost predicate Outputs(exprs: map<Name, SExpr>, order: seq<Name>) {
    Distinct(order) && forall y :: y in order <==> y in exprs
  }

  /** Only outputs wait. */
  ghost predicate OnlyOutputsWait(s: State) { forall x: Name, t: nat :: x !in s.exprs ==> Waiting(s.store.unresolved, x, t) == 0 }

  /** The account of one step. */
  lemma StepAccount(s: State, order: seq<Name>, ins: seq<(Name, Value)>, x: Name, t: nat)
    requires Outputs(s.exprs, order) && Step(s, order, ins).Some?
    requires x !in s.exprs ==> Waiting(s.store.unresolved, x, t) == 0
    ensures var (log, s') := Step(s, order, ins).value;
            && InLog(log, x, t) + Waiting(s'.store.unresolved, x, t) ==
               Waiting(s.store.unresolved, x, t) + (if x in s.exprs && t == s.time then 1 else 0)
            && Recorded(s'.store.resolved, x, t) == Recorded(s.store.resolved, x, t) + InLog(log, x, t)
            && Recorded(s'.store.inputs, x, t) == Recorded(s.store.inputs, x, t) + (if t == s.time then Given(ins, x) else 0)
            && s'.time == s.time + 1 && s'.exprs.Keys == s.exprs.Keys
  {
    var r := Receive(s, order, ins);
    FoldAllStatic(s.exprs);
    WaitingAdded(order, s.store.unresolved, r.exprs, s.time, x, t);
    ResolveConserves(r.store, s.time, x, t);
    RecordedPushAll(s.store.resolved, Resolve(r.store, s.time).value.0, x, t);
    RecordedRecord(s.store.inputs, ins, s.time, x, t);
  }

  /** All that a run has ever resolved, and the state it is left in; `None` if the solver panics. */
  function Ledger(s: State, order: seq<Name>, ins: seq<seq<(Name, Value)>>, keep: map<Name, nat>, forget: bool): Option<(seq<Entry>, State)>
    requires forall y :: y in order ==> y in s.exprs
    decreases |ins|
  {
    if ins == [] then Some(([], s))
    else
      match Step(s, order, ins[0])
      case None => None
      case Some((log, s1)) =>
        match Ledger(Onward(s1, keep, forget), order, ins[1..], keep, forget)
        case None => None
        case Some((rest, s2)) => Some((log + rest, s2))
  }

  /** The ledger is that of the monitor's own run. */
  lemma {:induction false} LedgerOfMonitor(s: State, order: seq<Name>, ins: seq<seq<(Name, Value)>>, keep: map<Name, nat>, forget: bool)
    requires forall y :: y in order ==> y in s.exprs
    ensures Ledger(s, order, ins, keep, forget).Some? <==> Monitor(s, order, ins, keep, forget).Some?
    ensures Ledger(s, order, ins, keep, forget).Some? ==>
              Ledger(s, order, ins, keep, forget).value.1 == Monitor(s, order, ins, keep, forget).value.1
    decreases |ins|
  {
    if ins != [] && Step(s, order, ins[0]).Some? {
      var s1 := Step(s, order, ins[0]).value.1;
      LedgerOfMonitor(Onward(s1, keep, forget), order, ins[1..], keep, forget);
    }
  }

  lemma {:induction false} LedgerConserves(s: State, order: seq<Name>, ins: seq<seq<(Name, Value)>>, keep: map<Name, nat>, forget: bool, x: Name, t: nat)
    requires Outputs(s.exprs, order) && Ledger(s, order, ins, keep, forget).Some?
    requires x !in s.exprs ==> Waiting(s.store.unresolved, x, t) == 0
    ensures var (log, s') := Ledger(s, order, ins, keep, forget).value;
            && InLog(log, x, t) + Waiting(s'.store.unresolved, x, t) ==
               Waiting(s.store.unresolved, x, t) + (if x in s.exprs && s.time <= t < s.time + |ins| then 1 else 0)
            && s'.time == s.time + |ins|
    decreases |ins|
  {
    if ins != [] {
      StepAccount(s, order, ins[0], x, t);
      var (log, s1) := Step(s, order, ins[0]).value;
      var s2 := Onward(s1, keep, forget);
      LedgerConserves(s2, order, ins[1..], keep, forget, x, t);
      InLogConcat(log, Ledger(s2, order, ins[1..], keep, forget).value.0, x, t);
    }
  }

  /** Whatever the specification and the inputs, every output of every time before the present is
      exactly once either in the record of all that was resolved or among what waits, and nothing
      else is in either; whether or not the monitor forgets. */
  lemma EachOutputOnce(exprs: map<Name, SExpr>, order: seq<Name>, ins: seq<seq<(Name, Value)>>, keep: map<Name, nat>, forget: bool, x: Name, t: nat)
    requires Outputs(exprs, order) && Ledger(Start(exprs), order, ins, keep, forget).Some?
    ensures var (log, s) := Ledger(Start(exprs), order, ins, keep, forget).value;
            InLog(log, x, t) + Waiting(s.store.unresolved, x, t) == if x in exprs && t < |ins| then 1 else 0
  {
    LedgerConserves(Start(exprs), order, ins, keep, forget, x, t);
  }

  // ---------------------------------------------------------------------------------------------
  // Boundedness
  // ---------------------------------------------------------------------------------------------

  /** The number of a stream's values with a time in `[lo, hi)`. */
  function Total(s: Stream, lo: nat, hi: nat): nat
    decreases hi
  {
    if hi <= lo then 0 else InStream(s, hi - 1) + Total(s, lo, hi - 1)
  }

  lemma {:induction false} TotalCons(s: Stream, lo: nat, hi: nat)
    requires s != []
    ensures Total(s, lo, hi) == Total(s[1..], lo, hi) + if lo <= s[0].0 < hi then 1 else 0
    decreases hi
  {
    if lo < hi { TotalCons(s, lo, hi - 1); }
  }

  lemma {:induction false} TotalZero(lo: nat, hi: nat)
    ensures Total([], lo, hi) == 0
    decreases hi
  {
    if lo < hi { TotalZero(lo, hi - 1); }
  }

  lemma {:induction false} TotalIsLength(s: Stream, lo: nat, hi: nat)
    requires forall i :: 0 <= i < |s| ==> lo <= s[i].0 < hi
    ensures Total(s, lo, hi) == |s|
  {
    if s == [] {
      TotalZero(lo, hi);
    } else {
      TotalCons(s, lo, hi);
      TotalIsLength(s[1..], lo, hi);
    }
  }

  lemma {:induction false} TotalAtMost(s: Stream, lo: nat, hi: nat)
    requires forall t :: lo <= t < hi ==> InStream(s, t) <= 1
    ensures Total(s, lo, hi) <= if lo < hi then hi - lo else 0
    decreases hi
  {
    if lo < hi { TotalAtMost(s, lo, hi - 1); }
  }

  lemma {:induction false} InStreamPositive(s: Stream, i: nat)
    requires i < |s|
    ensures 0 < InStream(s, s[i].0)
  {
    if 0 < i { InStreamPositive(s[1..], i - 1); }
  }

  /** At most one value for each time in `[lo, hi)` and none for others: at most `hi - lo` values. */
  lemma FewValues(s: Stream, lo: nat, hi: nat)
    requires lo <= hi && forall t: nat :: InStream(s, t) <= if lo <= t < hi then 1 else 0
    ensures |s| <= hi - lo
  {
    forall i | 0 <= i < |s| ensures lo <= s[i].0 < hi { InStreamPositive(s, i); }
    TotalIsLength(s, lo, hi);
    TotalAtMost(s, lo, hi);
  }

  /** Every name has at most one value for each past time and none for the present or the future. */
  ghost predicate Tidy(s: State) {
    forall x: Name, t: nat ::
      && Recorded(s.store.resolved, x, t) + Waiting(s.store.unresolved, x, t) <= (if t < s.time then 1 else 0)
      && Recorded(s.store.inputs, x, t) <= (if t < s.time then 1 else 0)
  }

  ghost predicate Trimmed(s: State, keep: map<Name, nat>) {
    && (forall x :: x in s.store.inputs ==> |s.store.inputs[x]| <= Keep(keep, x))
    && (forall x :: x in s.store.resolved ==> |s.store.resolved[x]| <= Keep(keep, x))
  }

  /** Each input is given at most once in a step. */
  ghost predicate Single(ins: seq<(Name, Value)>) { forall x :: Given(ins, x) <= 1 }

  lemma StepTidy(s: State, order: seq<Name>, ins: seq<(Name, Value)>)
    requires Outputs(s.exprs, order) && OnlyOutputsWait(s) && Tidy(s) && Single(ins) && Step(s, order, ins).Some?
    ensures var s' := Step(s, order, ins).value.1; Outputs(s'.exprs, order) && OnlyOutputsWait(s') && Tidy(s')
  {
    var s' := Step(s, order, ins).value.1;
    StepAccount(s, order, ins, "", 0);
    forall x: Name, t: nat
      ensures Recorded(s'.store.resolved, x, t) + Waiting(s'.store.unresolved, x, t) <= (if t < s'.time then 1 else 0)
      ensures Recorded(s'.store.inputs, x, t) <= (if t < s'.time then 1 else 0)
      ensures x !in s'.exprs ==> Waiting(s'.store.unresolved, x, t) == 0
    {
      StepAccount(s, order, ins, x, t);
      assert Recorded(s.store.resolved, x, t) + Waiting(s.store.unresolved, x, t) <= (if t < s.time then 1 else 0);
    }
  }

  lemma TrimmedStreams(m: map<Name, Stream>, keep: map<Name, nat>, now: nat)
    requires forall x: Name, t: nat :: Recorded(m, x, t) <= if t < now then 1 else 0
    ensures forall x :: x in Forget(m, keep, now) ==> |Forget(m, keep, now)[x]| <= Keep(keep, x)
  {
    forall x | x in Forget(m, keep, now) ensures |Forget(m, keep, now)[x]| <= Keep(keep, x) {
      var s := Forget(m, keep, now)[x];
      var lo := if Keep(keep, x) <= now then now - Keep(keep, x) else 0;
      forall t: nat ensures InStream(s, t) <= if lo <= t < now then 1 else 0 {
        RecordedForget(m, keep, now, x, t);
        assert InStream(s, t) == Recorded(Forget(m, keep, now), x, t);
        assert Recorded(m, x, t) <= if t < now then 1 else 0;
      }
      FewValues(s, lo, now);
    }
  }

  lemma CleanupTidy(s: State, keep: map<Name, nat>)
    requires Tidy(s)
    ensures Tidy(Cleanup(s, keep)) && Trimmed(Cleanup(s, keep), keep)
  {
    var c := Cleanup(s, keep);
    forall x: Name, t: nat
      ensures Recorded(c.store.resolved, x, t) + Waiting(c.store.unresolved, x, t) <= (if t < c.time then 1 else 0)
      ensures Recorded(c.store.inputs, x, t) <= (if t < c.time then 1 else 0)
    {
      RecordedForget(s.store.resolved, keep, s.time, x, t);
      RecordedForget(s.store.inputs, keep, s.time, x, t);
      assert Recorded(s.store.resolved, x, t) + Waiting(s.store.unresolved, x, t) <= (if t < s.time then 1 else 0);
    }
    TrimmedStreams(s.store.inputs, keep, s.time);
    TrimmedStreams(s.store.resolved, keep, s.time);
  }

  lemma {:induction false} LedgerTrimmed(s: State, order: seq<Name>, ins: seq<seq<(Name, Value)>>, keep: map<Name, nat>)
    requires Outputs(s.exprs, order) && OnlyOutputsWait(s) && Tidy(s) && Trimmed(s, keep)
    requires (forall i :: 0 <= i < |ins| ==> Single(ins[i])) && Ledger(s, order, ins, keep, true).Some?
    ensures Trimmed(Ledger(s, order, ins, keep, true).value.1, keep)
    decreases |ins|
  {
    if ins != [] {
      StepTidy(s, order, ins[0]);
      var s1 := Step(s, order, ins[0]).value.1;
      CleanupTidy(s1, keep);
      LedgerTrimmed(Cleanup(s1, keep), order, ins[1..], keep);
    }
  }

  /** Garbage collection is bounded: after every step and clean-up, at most as many values of a
      stream remain as the dependency manager's longest time dependency on it. */
  lemma StoreStaysBounded(exprs: map<Name, SExpr>, order: seq<Name>, ins: seq<seq<(Name, Value)>>, keep: map<Name, nat>)
    requires Outputs(exprs, order) && (forall i :: 0 <= i < |ins| ==> Single(ins[i]))
    requires Monitor(Start(exprs), order, ins, keep, true).Some?
    ensures Trimmed(Monitor(Start(exprs), order, ins, keep, true).value.1, keep)
  {
    LedgerOfMonitor(Start(exprs), order, ins, keep, true);
    LedgerTrimmed(Start(exprs), order, ins, keep);
  }
}
