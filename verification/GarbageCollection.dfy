/** When forgetting is invisible: the clean-up of the constraint-based runtime removes nothing that a
    later step could read, unless items that outlive their step look back too far. */
module GarbageCollection {
  import opened Lang
  import opened Solver
  import opened ConstraintRuntimes

  lemma {:induction false} PassSame(items: seq<Item>, a: Store, b: Store, now: nat, keep: map<Name, nat>)
    requires Agree(a, b, now, keep) && forall it :: it in items ==> Fits(it.expr, now, keep)
    ensures Pass(items, a, now) == Pass(items, b, now)
  {
    if items != [] {
      var it := items[0];
      SameSimplify(it.expr, now, a, b, keep);
      match Simplify(it.expr, now, a)
      case Resolved(v) =>
        PushSame(a.resolved, b.resolved, it.name, it.time, v, now, keep);
        PassSame(items[1..], a.(resolved := Push(a.resolved, it.name, it.time, v)), b.(resolved := Push(b.resolved, it.name, it.time, v)), now, keep);
      case Unresolved(_) => PassSame(items[1..], a, b, now, keep);
      case Panic =>
    }
  }

  /** Two stores that agree as far as anything is retained resolve the same, or panic both, and leave the
      same items, which read nothing that is not retained. */
  lemma {:induction false} ResolveSame(a: Store, b: Store, now: nat, keep: map<Name, nat>)
    requires Agree(a, b, now, keep) && ItemsFit(a.unresolved, now, keep)
    ensures Resolve(a, now).Some? <==> Resolve(b, now).Some?
    ensures Resolve(a, now).Some? ==>
              Resolve(a, now).value.0 == Resolve(b, now).value.0
              && Agree(Resolve(a, now).value.1, Resolve(b, now).value.1, now, keep)
    decreases |a.unresolved|
  {
    PassSame(a.unresolved, a, b, now, keep);
    if Pass(a.unresolved, a, now).Some? {
      var p := Pass(a.unresolved, a, now).value;
      PassSizes(a.unresolved, a, now);
      PassFits(a.unresolved, a, now, keep);
      PushAllSame(a.resolved, b.resolved, p.log, now, keep);
      if p.log != [] {
        ResolveSame(AfterPass(a, p), AfterPass(b, p), now, keep);
      }
    }
  }

  lemma {:induction false} FindRecent(s: Stream, longest: nat, now: nat, t: nat)
    ensures Find(Recent(s, longest, now), t) == if now <= longest + t then Find(s, t) else None
  {
    if s != [] {
      FindRecent(s[1..], longest, now, t);
      var rest := Recent(s[1..], longest, now);
      assert [] + rest == rest && ([s[0]] + rest)[1..] == rest;
    }
  }

  /** Exactly the values within the retention of their variable survive. */
  lemma LookupForget(m: map<Name, Stream>, keep: map<Name, nat>, now: nat, x: Name, t: nat)
    ensures Lookup(Forget(m, keep, now), x, t) == if now <= Keep(keep, x) + t then Lookup(m, x, t) else None
  {
    if x in m { FindRecent(m[x], Keep(keep, x), now, t); }
  }

  lemma ForgetSame(a: map<Name, Stream>, b: map<Name, Stream>, now: nat, keep: map<Name, nat>)
    requires SameWindow(a, b, now, keep)
    ensures SameWindow(a, Forget(b, keep, now), now, keep)
  {
    forall x: Name, t: nat | now <= t + Keep(keep, x) ensures Lookup(a, x, t) == Lookup(Forget(b, keep, now), x, t) {
      LookupForget(b, keep, now, x, t);
      assert Lookup(a, x, t) == Lookup(b, x, t);
    }
  }

  /** Two states at one time that no step can tell apart. */
  ghost predicate Twins(a: State, b: State, keep: map<Name, nat>) {
    && a.time == b.time && a.exprs == b.exprs && ItemsFit(a.store.unresolved, a.time, keep)
    && Agree(a.store, b.store, a.time, keep)
  }

  lemma ReceiveSame(a: State, b: State, order: seq<Name>, ins: seq<(Name, Value)>, keep: map<Name, nat>)
    requires Retaining(a.exprs, order, keep) && Twins(a, b, keep) && Foldable(a.exprs)
    ensures var (r, q) := (Receive(a, order, ins), Receive(b, order, ins));
            && r.exprs == q.exprs == FoldAll(a.exprs) && Retaining(r.exprs, order, keep)
            && Agree(r.store, q.store, a.time, keep) && ItemsFit(r.store.unresolved, a.time, keep)
  {
    FoldAllStatic(a.exprs);
    FoldRetaining(a.exprs, order, keep);
    RecordSame(a.store.inputs, b.store.inputs, ins, a.time, keep);
    AddItemsFit(order, a.store.unresolved, FoldAll(a.exprs), a.time, keep);
  }

  lemma AgreeOn(s: State, t: State, now: nat, keep: map<Name, nat>)
    requires s.time == t.time == now + 1 && s.exprs == t.exprs && Agree(s.store, t.store, now, keep)
    requires ItemsFit(s.store.unresolved, s.time, keep)
    ensures Twins(s, t, keep) && Twins(s, Cleanup(t, keep), keep)
  {
    ForgetSame(s.store.inputs, t.store.inputs, s.time, keep);
    ForgetSame(s.store.resolved, t.store.resolved, s.time, keep);
  }

  /** Steps from twin states send the same and leave the same items; if these still read nothing that
      may be forgotten, twin states result, also when one of them is cleaned up. */
  lemma StepSame(a: State, b: State, order: seq<Name>, ins: seq<(Name, Value)>, keep: map<Name, nat>)
    requires Retaining(a.exprs, order, keep) && Twins(a, b, keep)
    ensures Step(a, order, ins).Some? <==> Step(b, order, ins).Some?
    ensures Step(a, order, ins).Some? ==>
              var s, t := Step(a, order, ins).value.1, Step(b, order, ins).value.1;
              && Retaining(s.exprs, order, keep) && s.time == a.time + 1 && t.store.unresolved == s.store.unresolved
              && Emit(s, order, a.time) == Emit(t, order, a.time)
              && (ItemsFit(s.store.unresolved, s.time, keep) ==> Twins(s, t, keep) && Twins(s, Cleanup(t, keep), keep))
  {
    if Foldable(a.exprs) {
      var r, q := Receive(a, order, ins), Receive(b, order, ins);
      ReceiveSame(a, b, order, ins, keep);
      ResolveSame(r.store, q.store, a.time, keep);
      if Resolve(r.store, a.time).Some? {
        var s, t := Step(a, order, ins).value.1, Step(b, order, ins).value.1;
        if ItemsFit(s.store.unresolved, s.time, keep) { AgreeOn(s, t, a.time, keep); }
        forall i | 0 <= i < |order| ensures Emit(s, order, a.time)[i] == Emit(t, order, a.time)[i] {
          assert Lookup(s.store.resolved, order[i], a.time) == Lookup(t.store.resolved, order[i], a.time);
        }
      }
    }
  }

  /** Along the run that keeps everything, what outlives a step reads nothing that may be forgotten by
      the next one. */
  ghost predicate Lasting(s: State, order: seq<Name>, ins: seq<seq<(Name, Value)>>, keep: map<Name, nat>)
    requires forall y :: y in order ==> y in s.exprs
    decreases |ins|
  {
    |ins| <= 1
    || match Step(s, order, ins[0])
       case None => true
       case Some((_, s1)) => ItemsFit(s1.store.unresolved, s1.time, keep) && Lasting(s1, order, ins[1..], keep)
  }

  lemma {:induction false} MonitorSame(a: State, b: State, order: seq<Name>, ins: seq<seq<(Name, Value)>>, keep: map<Name, nat>)
    requires Retaining(a.exprs, order, keep) && Twins(a, b, keep) && Lasting(a, order, ins, keep)
    ensures Monitor(a, order, ins, keep, false).Some? <==> Monitor(b, order, ins, keep, true).Some?
    ensures Monitor(a, order, ins, keep, false).Some? ==>
              Monitor(a, order, ins, keep, false).value.0 == Monitor(b, order, ins, keep, true).value.0
    decreases |ins|
  {
    if ins != [] {
      StepSame(a, b, order, ins[0], keep);
      if Step(a, order, ins[0]).Some? {
        var s, t := Step(a, order, ins[0]).value.1, Step(b, order, ins[0]).value.1;
        if |ins| == 1 {
          assert ins[1..] == [];
        } else {
          MonitorSame(s, Cleanup(t, keep), order, ins[1..], keep);
        }
      }
    }
  }

  /** Then garbage collection is invisible: the monitor that forgets sends exactly what the monitor that
      keeps everything sends, and panics exactly when that one does. */
  lemma ForgettingIsInvisible(exprs: map<Name, SExpr>, order: seq<Name>, ins: seq<seq<(Name, Value)>>, keep: map<Name, nat>)
    requires Retaining(exprs, order, keep) && Lasting(Start(exprs), order, ins, keep)
    ensures Monitor(Start(exprs), order, ins, keep, true).Some? <==> Monitor(Start(exprs), order, ins, keep, false).Some?
    ensures Monitor(Start(exprs), order, ins, keep, true).Some? ==>
              Monitor(Start(exprs), order, ins, keep, true).value.0 == Monitor(Start(exprs), order, ins, keep, false).value.0
  {
    MonitorSame(Start(exprs), Start(exprs), order, ins, keep);
  }

  /** Nothing outlives its step at all, but for the last one. */
  ghost predicate Prompt(s: State, order: seq<Name>, ins: seq<seq<(Name, Value)>>, keep: map<Name, nat>, forget: bool)
    requires forall y :: y in order ==> y in s.exprs
    decreases |ins|
  {
    |ins| <= 1
    || match Step(s, order, ins[0])
       case None => true
       case Some((_, s1)) =>
         s1.store.unresolved == [] && Prompt(Onward(s1, keep, forget), order, ins[1..], keep, forget)
  }

  lemma {:induction false} PromptIsLasting(s: State, order: seq<Name>, ins: seq<seq<(Name, Value)>>, keep: map<Name, nat>)
    requires (forall y :: y in order ==> y in s.exprs) && Prompt(s, order, ins, keep, false)
    ensures Lasting(s, order, ins, keep)
    decreases |ins|
  {
    if 1 < |ins| && Step(s, order, ins[0]).Some? {
      PromptIsLasting(Step(s, order, ins[0]).value.1, order, ins[1..], keep);
    }
  }

  /** The runs of a productive specification are prompt. */
  lemma {:induction false} ProductiveIsPrompt(s: State, order: seq<Name>, ins: seq<seq<(Name, Value)>>, keep: map<Name, nat>, rank: map<Name, nat>, forget: bool)
    requires Productive(s.exprs, order, keep, rank) && s.store.unresolved == []
    ensures Prompt(s, order, ins, keep, forget)
    decreases |ins|
  {
    if 1 < |ins| && Step(s, order, ins[0]).Some? {
      StepProductive(s, order, ins[0], keep, rank);
      var s1 := Step(s, order, ins[0]).value.1;
      ProductiveIsPrompt(Onward(s1, keep, forget), order, ins[1..], keep, rank, forget);
    }
  }

  lemma StepProductive(s: State, order: seq<Name>, ins: seq<(Name, Value)>, keep: map<Name, nat>, rank: map<Name, nat>)
    requires Productive(s.exprs, order, keep, rank) && s.store.unresolved == [] && Step(s, order, ins).Some?
    ensures var s1 := Step(s, order, ins).value.1; Productive(s1.exprs, order, keep, rank) && s1.store.unresolved == []
  {
    var r := Receive(s, order, ins);
    FoldAllStatic(s.exprs);
    FoldProductive(s.exprs, order, keep, rank);
    AddItemsInv(order, r.exprs, s.time, keep, rank);
    ResolveCompletes(r.store, s.time, keep, rank);
  }

  /** Prompt runs stay prompt when they are cleaned up. */
  lemma {:induction false} PromptSame(a: State, b: State, order: seq<Name>, ins: seq<seq<(Name, Value)>>, keep: map<Name, nat>)
    requires Retaining(a.exprs, order, keep) && Twins(a, b, keep) && Prompt(a, order, ins, keep, false)
    ensures Prompt(b, order, ins, keep, true)
    decreases |ins|
  {
    if 1 < |ins| {
      StepSame(a, b, order, ins[0], keep);
      if Step(a, order, ins[0]).Some? {
        PromptSame(Step(a, order, ins[0]).value.1, Cleanup(Step(b, order, ins[0]).value.1, keep), order, ins[1..], keep);
      }
    }
  }
}
