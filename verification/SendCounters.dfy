/** How the monitor sends: every output has a counter of the times it has sent, and a step sends the value
    of the time that the counter has come to, if it is resolved by then.  As long as nothing outlives its
    step, the counters keep pace with the clock. */
module SendCounters {
  import opened Lang
  import opened Solver
  import opened ConstraintRuntimes
  import opened GarbageCollection
  import opened RuntimeLedger

  /** What is sent for each output, whose next time is `next`. */
  function EmitNext(s: State, order: seq<Name>, next: seq<nat>): (row: seq<Option<Value>>)
    requires |next| == |order|
    ensures |row| == |order|
  {
    seq(|order|, i requires 0 <= i < |order| => Lookup(s.store.resolved, order[i], next[i]))
  }

  /** The counters of the outputs that have sent something are advanced. */
  function Advance(next: seq<nat>, row: seq<Option<Value>>): (r: seq<nat>)
    requires |next| == |row|
    ensures |r| == |next|
  {
    seq(|next|, i requires 0 <= i < |next| => if row[i].Some? then next[i] + 1 else next[i])
  }

  /** The monitor's loop with its counters: step, send, clean up. */
  function Counting(s: State, order: seq<Name>, ins: seq<seq<(Name, Value)>>, keep: map<Name, nat>, forget: bool, next: seq<nat>): (r: Outcomes)
    requires |next| == |order| && forall y :: y in order ==> y in s.exprs
    ensures r.Some? ==> forall k :: 0 <= k < |r.value.0| ==> |r.value.0[k]| == |order|
    decreases |ins|
  {
    if ins == [] then Some(([], s))
    else
      match Step(s, order, ins[0])
      case None => None
      case Some((_, s1)) =>
        var row := EmitNext(s1, order, next);
        match Counting(Onward(s1, keep, forget), order, ins[1..], keep, forget, Advance(next, row))
        case None => None
        case Some((sent, s2)) => Some(([row] + sent, s2))
  }

  /** All counters at one time. */
  function At(order: seq<Name>, t: nat): (next: seq<nat>)
    ensures |next| == |order|
  {
    seq(|order|, i requires 0 <= i < |order| => t)
  }

  lemma {:induction false} InStreamFound(s: Stream, t: nat)
    ensures 0 < InStream(s, t) <==> Find(s, t).Some?
  {
    if s != [] { InStreamFound(s[1..], t); }
  }

  /** Every output has been pinned to the present. */
  lemma {:induction false} WaitsNow(order: seq<Name>, items: seq<Item>, exprs: map<Name, SExpr>, now: nat, y: Name)
    requires y in order && forall y :: y in order ==> y in exprs && Static(exprs[y])
    ensures 0 < Waiting(AddItems(order, items, exprs, now), y, now)
  {
    var own := [Item(order[0], now, ToAbsolute(exprs[order[0]], now))];
    var rest := AddItems(order[1..], items, exprs, now);
    WaitingConcat(Of(items, order[0]) + own, rest, y, now);
    WaitingConcat(Of(items, order[0]), own, y, now);
    if y != order[0] {
      WaitsNow(order[1..], items, exprs, now, y);
    }
  }

  /** A step after which nothing waits has resolved every output of the present. */
  lemma StepComplete(s: State, order: seq<Name>, ins: seq<(Name, Value)>)
    requires (forall y :: y in order ==> y in s.exprs) && Step(s, order, ins).Some?
    requires Step(s, order, ins).value.1.store.unresolved == []
    ensures var s1 := Step(s, order, ins).value.1;
            s1.time == s.time + 1 && forall y :: y in order ==> Lookup(s1.store.resolved, y, s.time).Some?
  {
    var r := Receive(s, order, ins);
    FoldAllStatic(s.exprs);
    var (log, st) := Resolve(r.store, s.time).value;
    forall y | y in order ensures Lookup(st.resolved, y, s.time).Some? {
      WaitsNow(order, s.store.unresolved, r.exprs, s.time, y);
      ResolveConserves(r.store, s.time, y, s.time);
      RecordedPushAll(r.store.resolved, log, y, s.time);
      InStreamFound(st.resolved[y], s.time);
    }
  }

  lemma RowNow(s1: State, order: seq<Name>, t: nat)
    ensures EmitNext(s1, order, At(order, t)) == Emit(s1, order, t)
    ensures (forall y :: y in order ==> Lookup(s1.store.resolved, y, t).Some?) ==>
              Advance(At(order, t), EmitNext(s1, order, At(order, t))) == At(order, t + 1)
  {
  }

  lemma CountingUnfold(s: State, order: seq<Name>, ins: seq<seq<(Name, Value)>>, keep: map<Name, nat>, forget: bool, next: seq<nat>)
    requires |next| == |order| && (forall y :: y in order ==> y in s.exprs) && ins != [] && Step(s, order, ins[0]).Some?
    ensures var s1 := Step(s, order, ins[0]).value.1;
            var row := EmitNext(s1, order, next);
            (forall y :: y in order ==> y in s1.exprs)
            && Counting(s, order, ins, keep, forget, next) ==
               Prepend(row, Counting(Onward(s1, keep, forget), order, ins[1..], keep, forget, Advance(next, row)))
  {
  }

  lemma MonitorUnfolds(s: State, order: seq<Name>, ins: seq<seq<(Name, Value)>>, keep: map<Name, nat>, forget: bool)
    requires (forall y :: y in order ==> y in s.exprs) && ins != [] && Step(s, order, ins[0]).Some?
    ensures var s1 := Step(s, order, ins[0]).value.1;
            (forall y :: y in order ==> y in s1.exprs)
            && Monitor(s, order, ins, keep, forget) ==
               Prepend(Emit(s1, order, s.time), Monitor(Onward(s1, keep, forget), order, ins[1..], keep, forget))
  {
  }

  ghost predicate KeepsPace(s: State, order: seq<Name>, ins: seq<seq<(Name, Value)>>, keep: map<Name, nat>, forget: bool) {
    && (forall y :: y in order ==> y in s.exprs)
    && Counting(s, order, ins, keep, forget, At(order, s.time)) == Monitor(s, order, ins, keep, forget)
  }

  lemma PaceStep(s: State, s1: State, order: seq<Name>, ins: seq<seq<(Name, Value)>>, keep: map<Name, nat>, forget: bool)
    requires (forall y :: y in order ==> y in s.exprs) && ins != [] && Step(s, order, ins[0]).Some? && Step(s, order, ins[0]).value.1 == s1
    requires s1.time == s.time + 1 && forall y :: y in order ==> Lookup(s1.store.resolved, y, s.time).Some?
    requires KeepsPace(Onward(s1, keep, forget), order, ins[1..], keep, forget)
    ensures KeepsPace(s, order, ins, keep, forget)
  {
    RowNow(s1, order, s.time);
    CountingUnfold(s, order, ins, keep, forget, At(order, s.time));
    MonitorUnfolds(s, order, ins, keep, forget);
  }

  lemma PanicPace(s: State, order: seq<Name>, ins: seq<seq<(Name, Value)>>, keep: map<Name, nat>, forget: bool)
    requires (forall y :: y in order ==> y in s.exprs) && ins != [] && Step(s, order, ins[0]).None?
    ensures KeepsPace(s, order, ins, keep, forget)
  {
  }

  lemma LastPace(s: State, order: seq<Name>, ins: seq<seq<(Name, Value)>>, keep: map<Name, nat>, forget: bool)
    requires (forall y :: y in order ==> y in s.exprs) && |ins| <= 1
    ensures KeepsPace(s, order, ins, keep, forget)
  {
    if ins != [] && Step(s, order, ins[0]).Some? {
      RowNow(Step(s, order, ins[0]).value.1, order, s.time);
      CountingUnfold(s, order, ins, keep, forget, At(order, s.time));
      MonitorUnfolds(s, order, ins, keep, forget);
      assert ins[1..] == [];
    }
  }

  /** If nothing outlives its step, the counters are the clock: what the monitor sends after each step are
      the values of that step's own time. */
  lemma {:induction false} CountersAreTheClock(s: State, order: seq<Name>, ins: seq<seq<(Name, Value)>>, keep: map<Name, nat>, forget: bool)
    requires (forall y :: y in order ==> y in s.exprs) && Prompt(s, order, ins, keep, forget)
    ensures KeepsPace(s, order, ins, keep, forget)
    decreases |ins|
  {
    if |ins| <= 1 {
      LastPace(s, order, ins, keep, forget);
    } else {
      if Step(s, order, ins[0]).None? {
        PanicPace(s, order, ins, keep, forget);
      } else {
        var s1 := Step(s, order, ins[0]).value.1;
        StepComplete(s, order, ins[0]);
        CountersAreTheClock(Onward(s1, keep, forget), order, ins[1..], keep, forget);
        PaceStep(s, s1, order, ins, keep, forget);
      }
    }
  }

  /** So the monitor with its counters, too, sends the same whether it forgets or not. */
  lemma SendingIsUnaffected(exprs: map<Name, SExpr>, order: seq<Name>, ins: seq<seq<(Name, Value)>>, keep: map<Name, nat>)
    requires Retaining(exprs, order, keep) && Prompt(Start(exprs), order, ins, keep, false)
    ensures var (some, all) := (Counting(Start(exprs), order, ins, keep, true, At(order, 0)), Counting(Start(exprs), order, ins, keep, false, At(order, 0)));
            (some.Some? <==> all.Some?) && (some.Some? ==> some.value.0 == all.value.0)
  {
    PromptIsLasting(Start(exprs), order, ins, keep);
    PromptSame(Start(exprs), Start(exprs), order, ins, keep);
    CountersAreTheClock(Start(exprs), order, ins, keep, false);
    CountersAreTheClock(Start(exprs), order, ins, keep, true);
    ForgettingIsInvisible(exprs, order, ins, keep);
  }

  /** What has been sent for the `i`-th output, without the steps that sent nothing for it. */
  function Column(sent: seq<seq<Option<Value>>>, i: nat): seq<Value>
    requires forall k :: 0 <= k < |sent| ==> i < |sent[k]|
  {
    if sent == [] then [] else (if sent[0][i].Some? then [sent[0][i].value] else []) + Column(sent[1..], i)
  }

  lemma {:induction false} LookupLogged(m: map<Name, Stream>, log: seq<Entry>, y: Name, t: nat, v: Value)
    requires Lookup(PushAll(m, log), y, t) == Some(v)
    ensures Lookup(m, y, t) == Some(v) || Entry(y, t, v) in log
    decreases |log|
  {
    if log != [] {
      var e := log[0];
      LookupPush(m, e.name, e.time, e.value, y, t);
      LookupLogged(Push(m, e.name, e.time, e.value), log[1..], y, t, v);
    }
  }

  lemma StepLogged(s: State, order: seq<Name>, ins: seq<(Name, Value)>, y: Name, t: nat, v: Value)
    requires (forall y :: y in order ==> y in s.exprs) && Step(s, order, ins).Some?
    requires Lookup(Step(s, order, ins).value.1.store.resolved, y, t) == Some(v)
    ensures Lookup(s.store.resolved, y, t) == Some(v) || Entry(y, t, v) in Step(s, order, ins).value.0
  {
    FoldAllStatic(s.exprs);
    ResolveConserves(Receive(s, order, ins).store, s.time, y, t);
    LookupLogged(s.store.resolved, Step(s, order, ins).value.0, y, t, v);
  }

  lemma {:induction false} CountingLedger(s: State, order: seq<Name>, ins: seq<seq<(Name, Value)>>, keep: map<Name, nat>, forget: bool, next: seq<nat>)
    requires |next| == |order| && forall y :: y in order ==> y in s.exprs
    ensures Counting(s, order, ins, keep, forget, next).Some? <==> Ledger(s, order, ins, keep, forget).Some?
    decreases |ins|
  {
    if ins != [] && Step(s, order, ins[0]).Some? {
      var s1 := Step(s, order, ins[0]).value.1;
      CountingLedger(Onward(s1, keep, forget), order, ins[1..], keep, forget, Advance(next, EmitNext(s1, order, next)));
    }
  }

  /** `v` is what `y` has at time `t` in the store, or what is logged for it. */
  ghost predicate Known(s: State, log: seq<Entry>, y: Name, t: nat, v: Value) {
    Lookup(s.store.resolved, y, t) == Some(v) || Entry(y, t, v) in log
  }

  /** What is known after a step and its clean-up was known before it, or the step has logged it. */
  lemma KnownBefore(s: State, order: seq<Name>, ins: seq<(Name, Value)>, keep: map<Name, nat>, forget: bool, rest: seq<Entry>, y: Name, t: nat, v: Value)
    requires (forall y :: y in order ==> y in s.exprs) && Step(s, order, ins).Some?
    requires Known(Onward(Step(s, order, ins).value.1, keep, forget), rest, y, t, v)
    ensures Known(s, Step(s, order, ins).value.0 + rest, y, t, v)
  {
    var s1 := Step(s, order, ins).value.1;
    if Lookup(Onward(s1, keep, forget).store.resolved, y, t) == Some(v) {
      LookupForget(s1.store.resolved, keep, s1.time, y, t);
      StepLogged(s, order, ins, y, t, v);
    }
  }

  lemma ColumnCons(row: seq<Option<Value>>, sent: seq<seq<Option<Value>>>, i: nat)
    requires i < |row| && forall k :: 0 <= k < |sent| ==> i < |sent[k]|
    ensures Column([row] + sent, i) == (if row[i].Some? then [row[i].value] else []) + Column(sent, i)
  {
    assert ([row] + sent)[1..] == sent;
  }

  /** The values sent for the `i`-th output are those known for the times from where its counter stood. */
  ghost predicate InOrder(sent: seq<seq<Option<Value>>>, s: State, log: seq<Entry>, order: seq<Name>, next: seq<nat>, i: nat)
    requires |next| == |order| && i < |order| && forall k :: 0 <= k < |sent| ==> |sent[k]| == |order|
  {
    var vs := Column(sent, i);
    forall n :: 0 <= n < |vs| ==> Known(s, log, order[i], next[i] + n, vs[n])
  }

  lemma SentStep(s: State, order: seq<Name>, ins: seq<(Name, Value)>, keep: map<Name, nat>, forget: bool, next: seq<nat>, i: nat,
                 sent: seq<seq<Option<Value>>>, rest: seq<Entry>)
    requires (forall y :: y in order ==> y in s.exprs) && Step(s, order, ins).Some?
    requires |next| == |order| && i < |order| && forall k :: 0 <= k < |sent| ==> |sent[k]| == |order|
    requires var s1 := Step(s, order, ins).value.1;
             InOrder(sent, Onward(s1, keep, forget), rest, order, Advance(next, EmitNext(s1, order, next)), i)
    ensures var (log, s1) := Step(s, order, ins).value;
            InOrder([EmitNext(s1, order, next)] + sent, s, log + rest, order, next, i)
  {
    var (log, s1) := Step(s, order, ins).value;
    var row, vs := EmitNext(s1, order, next), Column(sent, i);
    ColumnCons(row, sent, i);
    var all := Column([row] + sent, i);
    forall n | 0 <= n < |all| ensures Known(s, log + rest, order[i], next[i] + n, all[n]) {
      if row[i].Some? && n == 0 {
        StepLogged(s, order, ins, order[i], next[i], all[n]);
      } else {
        LaterKnown(s, order, ins, keep, forget, rest, order[i], next[i] + n, all[n], vs, Advance(next, row)[i],
                   if row[i].Some? then n - 1 else n);
      }
    }
  }

  /** A later value of the column. */
  lemma LaterKnown(s: State, order: seq<Name>, ins: seq<(Name, Value)>, keep: map<Name, nat>, forget: bool, rest: seq<Entry>,
                   y: Name, t: nat, v: Value, vs: seq<Value>, from: nat, m: nat)
    requires (forall y :: y in order ==> y in s.exprs) && Step(s, order, ins).Some?
    requires m < |vs| && vs[m] == v && t == from + m
    requires forall n :: 0 <= n < |vs| ==> Known(Onward(Step(s, order, ins).value.1, keep, forget), rest, y, from + n, vs[n])
    ensures Known(s, Step(s, order, ins).value.0 + rest, y, t, v)
  {
    assert Known(Onward(Step(s, order, ins).value.1, keep, forget), rest, y, from + m, vs[m]);
    KnownBefore(s, order, ins, keep, forget, rest, y, t, v);
  }

  /** Productive or not, the `n`-th value sent for an output is one that was resolved for the `n`-th time
      from where its counter stands: none is skipped, repeated or sent out of order, however late. */
  lemma {:induction false} SentInOrder(s: State, order: seq<Name>, ins: seq<seq<(Name, Value)>>, keep: map<Name, nat>, forget: bool, next: seq<nat>, i: nat)
    requires |next| == |order| && (forall y :: y in order ==> y in s.exprs) && i < |order|
    requires Counting(s, order, ins, keep, forget, next).Some?
    ensures Ledger(s, order, ins, keep, forget).Some?
    ensures InOrder(Counting(s, order, ins, keep, forget, next).value.0, s, Ledger(s, order, ins, keep, forget).value.0, order, next, i)
    decreases |ins|
  {
    CountingLedger(s, order, ins, keep, forget, next);
    if ins != [] {
      var (log, s1) := Step(s, order, ins[0]).value;
      var s2, next' := Onward(s1, keep, forget), Advance(next, EmitNext(s1, order, next));
      SentInOrder(s2, order, ins[1..], keep, forget, next', i);
      SentStep(s, order, ins[0], keep, forget, next, i, Counting(s2, order, ins[1..], keep, forget, next').value.0,
               Ledger(s2, order, ins[1..], keep, forget).value.0);
    }
  }
}
