/** What is in the store after a run: of all that was ever recorded, exactly what a later step may read. */
module Retentions {
  import opened Lang
  import opened Solver
  import opened ConstraintRuntimes
  import opened GarbageCollection
  import opened ConstraintDenotations
  import opened RuntimeLedger

  /** Values of time `t` are still kept for `x` at time `now`. */
  predicate Kept(keep: map<Name, nat>, x: Name, t: nat, now: nat) { now <= t + Keep(keep, x) }

  lemma OnwardLookup(s: State, keep: map<Name, nat>, forget: bool, x: Name, t: nat)
    ensures var (m, m') := (s.store.resolved, Onward(s, keep, forget).store.resolved);
            Lookup(m', x, t) == if !forget || Kept(keep, x, t, s.time) then Lookup(m, x, t) else None
    ensures var (m, m') := (s.store.inputs, Onward(s, keep, forget).store.inputs);
            Lookup(m', x, t) == if !forget || Kept(keep, x, t, s.time) then Lookup(m, x, t) else None
  {
    LookupForget(s.store.resolved, keep, s.time, x, t);
    LookupForget(s.store.inputs, keep, s.time, x, t);
  }

  /** What is recorded next has the same effect on stores that agree on a name and a time. */
  lemma {:induction false} PushAllAlike(a: map<Name, Stream>, b: map<Name, Stream>, log: seq<Entry>, x: Name, t: nat)
    requires Lookup(a, x, t) == Lookup(b, x, t)
    ensures Lookup(PushAll(a, log), x, t) == Lookup(PushAll(b, log), x, t)
    decreases |log|
  {
    if log != [] {
      var e := log[0];
      LookupPush(a, e.name, e.time, e.value, x, t);
      LookupPush(b, e.name, e.time, e.value, x, t);
      PushAllAlike(Push(a, e.name, e.time, e.value), Push(b, e.name, e.time, e.value), log[1..], x, t);
    }
  }

  lemma StepStore(s: State, order: seq<Name>, ins: seq<(Name, Value)>)
    requires (forall y :: y in order ==> y in s.exprs) && Step(s, order, ins).Some?
    ensures var (log, s1) := Step(s, order, ins).value;
            && s1.time == s.time + 1 && s1.store.resolved == PushAll(s.store.resolved, log)
            && s1.store.inputs == Record(s.store.inputs, ins, s.time)
  {
    FoldAllStatic(s.exprs);
    ResolveConserves(Receive(s, order, ins).store, s.time, "", 0);
  }

  lemma LedgerUnfold(s: State, order: seq<Name>, ins: seq<seq<(Name, Value)>>, keep: map<Name, nat>, forget: bool)
    requires (forall y :: y in order ==> y in s.exprs) && ins != [] && Ledger(s, order, ins, keep, forget).Some?
    ensures Step(s, order, ins[0]).Some?
    ensures var s1 := Onward(Step(s, order, ins[0]).value.1, keep, forget);
            && (forall y :: y in order ==> y in s1.exprs) && Ledger(s1, order, ins[1..], keep, forget).Some?
            && Ledger(s, order, ins, keep, forget).value.1 == Ledger(s1, order, ins[1..], keep, forget).value.1
            && Ledger(s, order, ins, keep, forget).value.0 ==
               Step(s, order, ins[0]).value.0 + Ledger(s1, order, ins[1..], keep, forget).value.0
  {
  }

  lemma {:induction false} LedgerTime(s: State, order: seq<Name>, ins: seq<seq<(Name, Value)>>, keep: map<Name, nat>, forget: bool)
    requires (forall y :: y in order ==> y in s.exprs) && Ledger(s, order, ins, keep, forget).Some?
    ensures Ledger(s, order, ins, keep, forget).value.1.time == s.time + |ins|
    decreases |ins|
  {
    if ins != [] {
      LedgerUnfold(s, order, ins, keep, forget);
      StepStore(s, order, ins[0]);
      LedgerTime(Onward(Step(s, order, ins[0]).value.1, keep, forget), order, ins[1..], keep, forget);
    }
  }

  /** Of all that a run has recorded and found recorded, every value that is within the retention of its
      variable is in the store at the end, as the first one recorded; with clean-ups, no other is. */
  lemma {:induction false} LedgerRetained(s: State, order: seq<Name>, ins: seq<seq<(Name, Value)>>, keep: map<Name, nat>, forget: bool,
                                          x: Name, t: nat)
    requires (forall y :: y in order ==> y in s.exprs) && Ledger(s, order, ins, keep, forget).Some?
    ensures var (log, s') := Ledger(s, order, ins, keep, forget).value;
            && (!forget || Kept(keep, x, t, s'.time) ==> Lookup(s'.store.resolved, x, t) == Lookup(PushAll(s.store.resolved, log), x, t))
            && (forget && ins != [] && !Kept(keep, x, t, s'.time) ==> Lookup(s'.store.resolved, x, t) == None)
    decreases |ins|
  {
    if ins != [] {
      var (log, s1) := Step(s, order, ins[0]).value;
      var s2 := Onward(s1, keep, forget);
      LedgerUnfold(s, order, ins, keep, forget);
      StepStore(s, order, ins[0]);
      LedgerTime(s2, order, ins[1..], keep, forget);
      LedgerRetained(s2, order, ins[1..], keep, forget, x, t);
      OnwardLookup(s1, keep, forget, x, t);
      var rest := Ledger(s2, order, ins[1..], keep, forget).value.0;
      PushAllConcat(s.store.resolved, log, rest);
      if !forget || Kept(keep, x, t, s1.time) { PushAllAlike(s2.store.resolved, s1.store.resolved, rest, x, t); }
      if |ins| == 1 { assert ins[1..] == []; }
    }
  }

  /** What the inputs of a run provide for `x` at time `t`, if the run starts at time `from`. */
  function ProvidedAt(ins: seq<seq<(Name, Value)>>, from: nat, x: Name, t: nat): Option<Value> {
    if from <= t < from + |ins| then Provided(ins[t - from], x) else None
  }

  lemma ProvidedNext(ins: seq<seq<(Name, Value)>>, from: nat, x: Name, t: nat)
    requires ins != []
    ensures ProvidedAt(ins, from, x, t) == if t == from then Provided(ins[0], x) else ProvidedAt(ins[1..], from + 1, x, t)
  {
  }

  /** The inputs after a step and its clean-up. */
  lemma StepInputs(s: State, order: seq<Name>, ins: seq<(Name, Value)>, keep: map<Name, nat>, forget: bool, x: Name, t: nat)
    requires (forall y :: y in order ==> y in s.exprs) && Step(s, order, ins).Some?
    ensures var (before, after) := (Lookup(s.store.inputs, x, t), Lookup(Onward(Step(s, order, ins).value.1, keep, forget).store.inputs, x, t));
            after == if forget && !Kept(keep, x, t, s.time + 1) then None
                     else if before.Some? then before else if t == s.time then Provided(ins, x) else None
    ensures Onward(Step(s, order, ins).value.1, keep, forget).time == s.time + 1
  {
    StepStore(s, order, ins);
    OnwardLookup(Step(s, order, ins).value.1, keep, forget, x, t);
    LookupRecord(s.store.inputs, ins, s.time, x, t);
  }

  lemma {:induction false} InputsRetained(s: State, order: seq<Name>, ins: seq<seq<(Name, Value)>>, keep: map<Name, nat>, forget: bool,
                                          x: Name, t: nat)
    requires (forall y :: y in order ==> y in s.exprs) && Ledger(s, order, ins, keep, forget).Some?
    ensures var s' := Ledger(s, order, ins, keep, forget).value.1;
            && (!forget || Kept(keep, x, t, s'.time) ==>
                  Lookup(s'.store.inputs, x, t) ==
                  if Lookup(s.store.inputs, x, t).Some? then Lookup(s.store.inputs, x, t) else ProvidedAt(ins, s.time, x, t))
            && (forget && ins != [] && !Kept(keep, x, t, s'.time) ==> Lookup(s'.store.inputs, x, t) == None)
    decreases |ins|
  {
    if ins != [] {
      LedgerUnfold(s, order, ins, keep, forget);
      var s2 := Onward(Step(s, order, ins[0]).value.1, keep, forget);
      LedgerTime(s2, order, ins[1..], keep, forget);
      InputsRetained(s2, order, ins[1..], keep, forget, x, t);
      StepInputs(s, order, ins[0], keep, forget, x, t);
      ProvidedNext(ins, s.time, x, t);
      if |ins| == 1 { assert ins[1..] == []; }
    }
  }

  /** For every specification and every run: what an expression can read `k` steps back, as far as the
      retention of `x` reaches, is in the store when the next step begins, if it was ever resolved or
      provided; and nothing older is. */
  lemma ReadableIsStored(exprs: map<Name, SExpr>, order: seq<Name>, ins: seq<seq<(Name, Value)>>, keep: map<Name, nat>, x: Name, t: nat)
    requires (forall y :: y in order ==> y in exprs) && Ledger(Start(exprs), order, ins, keep, true).Some? && t < |ins|
    ensures var (log, s) := Ledger(Start(exprs), order, ins, keep, true).value;
            && s.time == |ins|
            && Lookup(s.store.resolved, x, t) == (if |ins| - t <= Keep(keep, x) then Lookup(PushAll(map[], log), x, t) else None)
            && Lookup(s.store.inputs, x, t) == (if |ins| - t <= Keep(keep, x) then Provided(ins[t], x) else None)
  {
    LedgerTime(Start(exprs), order, ins, keep, true);
    LedgerRetained(Start(exprs), order, ins, keep, true, x, t);
    InputsRetained(Start(exprs), order, ins, keep, true, x, t);
  }

  // ---------------------------------------------------------------------------------------------
  // Against the run that keeps everything
  // ---------------------------------------------------------------------------------------------

  lemma LogSame(a: State, b: State, order: seq<Name>, ins: seq<(Name, Value)>, keep: map<Name, nat>)
    requires Retaining(a.exprs, order, keep) && Twins(a, b, keep) && Step(a, order, ins).Some? && Step(b, order, ins).Some?
    ensures Step(a, order, ins).value.0 == Step(b, order, ins).value.0
  {
    ReceiveSame(a, b, order, ins, keep);
    ResolveSame(Receive(a, order, ins).store, Receive(b, order, ins).store, a.time, keep);
  }

  /** The ledgers of two runs. */
  ghost predicate SameLedger(a: State, b: State, order: seq<Name>, ins: seq<seq<(Name, Value)>>, keep: map<Name, nat>)
    requires (forall y :: y in order ==> y in a.exprs) && forall y :: y in order ==> y in b.exprs
  {
    var (all, some) := (Ledger(a, order, ins, keep, false), Ledger(b, order, ins, keep, true));
    (all.Some? <==> some.Some?) && (all.Some? ==> all.value.0 == some.value.0)
  }

  lemma SameLedgerStep(a: State, b: State, order: seq<Name>, ins: seq<seq<(Name, Value)>>, keep: map<Name, nat>)
    requires (forall y :: y in order ==> y in a.exprs) && forall y :: y in order ==> y in b.exprs
    requires ins != [] && Step(a, order, ins[0]).Some? && Step(b, order, ins[0]).Some?
    requires Step(a, order, ins[0]).value.0 == Step(b, order, ins[0]).value.0
    requires var (s, t) := (Step(a, order, ins[0]).value.1, Cleanup(Step(b, order, ins[0]).value.1, keep));
             && (forall y :: y in order ==> y in s.exprs) && (forall y :: y in order ==> y in t.exprs)
             && SameLedger(s, t, order, ins[1..], keep)
    ensures SameLedger(a, b, order, ins, keep)
  {
  }

  /** In runs in which what outlives a step reads nothing that may be forgotten, both have the same ledger. */
  lemma {:induction false} LedgerSame(a: State, b: State, order: seq<Name>, ins: seq<seq<(Name, Value)>>, keep: map<Name, nat>)
    requires Retaining(a.exprs, order, keep) && Twins(a, b, keep) && Lasting(a, order, ins, keep)
    ensures SameLedger(a, b, order, ins, keep)
    decreases |ins|
  {
    if ins != [] {
      StepSame(a, b, order, ins[0], keep);
      if Step(a, order, ins[0]).Some? {
        LogSame(a, b, order, ins[0], keep);
        var s, t := Step(a, order, ins[0]).value.1, Step(b, order, ins[0]).value.1;
        if |ins| == 1 {
          assert ins[1..] == [];
        } else {
          LedgerSame(s, Cleanup(t, keep), order, ins[1..], keep);
        }
        SameLedgerStep(a, b, order, ins, keep);
      }
    }
  }

  /** So there the store of the monitor that forgets is, within the retention, that of the monitor that
      keeps everything. */
  lemma StoreIsWindow(exprs: map<Name, SExpr>, order: seq<Name>, ins: seq<seq<(Name, Value)>>, keep: map<Name, nat>, x: Name, t: nat)
    requires Retaining(exprs, order, keep) && Lasting(Start(exprs), order, ins, keep)
    requires Ledger(Start(exprs), order, ins, keep, true).Some? && t < |ins|
    ensures Ledger(Start(exprs), order, ins, keep, false).Some?
    ensures var (some, all) := (Ledger(Start(exprs), order, ins, keep, true).value.1.store, Ledger(Start(exprs), order, ins, keep, false).value.1.store);
            && Lookup(some.resolved, x, t) == (if |ins| - t <= Keep(keep, x) then Lookup(all.resolved, x, t) else None)
            && Lookup(some.inputs, x, t) == (if |ins| - t <= Keep(keep, x) then Lookup(all.inputs, x, t) else None)
  {
    LedgerSame(Start(exprs), Start(exprs), order, ins, keep);
    ReadableIsStored(exprs, order, ins, keep, x, t);
    LedgerRetained(Start(exprs), order, ins, keep, false, x, t);
    InputsRetained(Start(exprs), order, ins, keep, false, x, t);
  }
}
