/** The constraint-based runtime: what it records, resolves and forgets, step by step.

    Input values are recorded, every output's expression is pinned to the current time and put among
    the unresolved items, passes over these items resolve as many as they can, and `Cleanup` forgets
    the values that no stream index reaches back to any more.
 */
module ConstraintRuntimes {
  import opened Lang
  import opened Solver

  datatype State = State(store: Store, time: nat, exprs: map<Name, SExpr>)

  /** What one pass or one step has resolved, in order. */
  datatype Entry = Entry(name: Name, time: nat, value: Value)

  // ---------------------------------------------------------------------------------------------
  // The steps of the runtime, on values
  // ---------------------------------------------------------------------------------------------

  function Push(m: map<Name, Stream>, x: Name, t: nat, v: Value): map<Name, Stream> {
    m[x := (if x in m then m[x] else []) + [(t, v)]]
  }

  function PushAll(m: map<Name, Stream>, log: seq<Entry>): map<Name, Stream>
    decreases |log|
  {
    if log == [] then m else PushAll(Push(m, log[0].name, log[0].time, log[0].value), log[1..])
  }

  function Record(m: map<Name, Stream>, ins: seq<(Name, Value)>, t: nat): map<Name, Stream>
    decreases |ins|
  {
    if ins == [] then m else Record(Push(m, ins[0].0, t, ins[0].1), ins[1..], t)
  }

  /** One round of constant folding of a specification's expression; `None` if the solver panics. */
  function FoldOne(e: SExpr): Option<SExpr>
    requires Static(e)
  {
    match Fold(e)
    case Resolved(v) => Some(Val(v))
    case Unresolved(a) => Some(a)
    case Panic => None
  }

  predicate Foldable(exprs: map<Name, SExpr>) {
    forall y :: y in exprs ==> Static(exprs[y]) && FoldOne(exprs[y]).Some?
  }

  function FoldAll(exprs: map<Name, SExpr>): map<Name, SExpr>
    requires Foldable(exprs)
  {
    map y | y in exprs :: FoldOne(exprs[y]).value
  }

  /** The items of one output, in order. */
  function Of(items: seq<Item>, y: Name): seq<Item> {
    if items == [] then [] else (if items[0].name == y then [items[0]] else []) + Of(items[1..], y)
  }

  /** Adds every output, pinned to time `t`, after the items it already has; `order` is the order in
      which the outputs are kept. */
  function AddItems(order: seq<Name>, items: seq<Item>, exprs: map<Name, SExpr>, t: nat): seq<Item>
    requires forall y :: y in order ==> y in exprs && Static(exprs[y])
  {
    if order == [] then []
    else
      Of(items, order[0]) + [Item(order[0], t, ToAbsolute(exprs[order[0]], t))] + AddItems(order[1..], items, exprs, t)
  }

  datatype PassResult = PassResult(log: seq<Entry>, rest: seq<Item>)

  /** One pass over `items`: each is simplified against the values resolved so far and the items as
      they were when the pass began. `None` if the solver panics. */
  function Pass(items: seq<Item>, st: Store, now: nat): Option<PassResult> {
    if items == [] then Some(PassResult([], []))
    else
      var it := items[0];
      match Simplify(it.expr, now, st)
      case Panic => None
      case Resolved(v) =>
        (match Pass(items[1..], st.(resolved := Push(st.resolved, it.name, it.time, v)), now)
         case None => None
         case Some(p) => Some(PassResult([Entry(it.name, it.time, v)] + p.log, p.rest)))
      case Unresolved(a) =>
        (match Pass(items[1..], st, now)
         case None => None
         case Some(p) => Some(PassResult(p.log, [it.(expr := a)] + p.rest)))
  }

  function AfterPass(st: Store, p: PassResult): Store {
    st.(resolved := PushAll(st.resolved, p.log), unresolved := p.rest)
  }

  lemma {:induction false} PassSizes(items: seq<Item>, st: Store, now: nat)
    requires Pass(items, st, now).Some?
    ensures var p := Pass(items, st, now).value; |p.log| + |p.rest| == |items|
  {
    if items != [] {
      match Simplify(items[0].expr, now, st)
      case Resolved(v) => PassSizes(items[1..], st.(resolved := Push(st.resolved, items[0].name, items[0].time, v)), now);
      case Unresolved(_) => PassSizes(items[1..], st, now);
      case Panic =>
    }
  }

  /** Passes until one of them resolves nothing.  Each pass that does shrinks the unresolved items,
      so this ends for every store. */
  function Resolve(st: Store, now: nat): Option<(seq<Entry>, Store)>
    decreases |st.unresolved|
  {
    match Pass(st.unresolved, st, now)
    case None => None
    case Some(p) =>
      if p.log == [] then Some(([], AfterPass(st, p)))
      else
        assert |p.rest| < |st.unresolved| by { PassSizes(st.unresolved, st, now); }
        match Resolve(AfterPass(st, p), now)
        case None => None
        case Some((log, st')) => Some((p.log + log, st'))
  }

  /** Everything a step does before resolving. */
  function Receive(s: State, order: seq<Name>, ins: seq<(Name, Value)>): State
    requires Foldable(s.exprs) && forall y :: y in order ==> y in s.exprs
  {
    var exprs := FoldAll(s.exprs);
    FoldAllStatic(s.exprs);
    var st := s.store.(inputs := Record(s.store.inputs, ins, s.time),
                       unresolved := AddItems(order, s.store.unresolved, exprs, s.time));
    State(st, s.time, exprs)
  }

  lemma FoldAllStatic(exprs: map<Name, SExpr>)
    requires Foldable(exprs)
    ensures Foldable(FoldAll(exprs)) && FoldAll(FoldAll(exprs)) == FoldAll(exprs)
  {
    forall y | y in exprs
      ensures Static(FoldAll(exprs)[y]) && FoldOne(FoldAll(exprs)[y]) == Some(FoldAll(exprs)[y])
    {
      if Fold(exprs[y]).Unresolved? { FoldIdempotent(exprs[y]); }
    }
  }

  /** One step; with it, what it has resolved. */
  function Step(s: State, order: seq<Name>, ins: seq<(Name, Value)>): Option<(seq<Entry>, State)>
    requires forall y :: y in order ==> y in s.exprs
  {
    if !Foldable(s.exprs) then None
    else
      var r := Receive(s, order, ins);
      match Resolve(r.store, s.time)
      case None => None
      case Some((log, st)) => Some((log, State(st, s.time + 1, r.exprs)))
  }

  /** The values not older than `longest` steps before `now`. */
  function Recent(s: Stream, longest: nat, now: nat): Stream {
    if s == [] then []
    else (if now <= longest + s[0].0 then [s[0]] else []) + Recent(s[1..], longest, now)
  }

  function Forget(m: map<Name, Stream>, keep: map<Name, nat>, now: nat): map<Name, Stream> {
    map x | x in m :: Recent(m[x], Keep(keep, x), now)
  }

  function Cleanup(s: State, keep: map<Name, nat>): State {
    s.(store := s.store.(inputs := Forget(s.store.inputs, keep, s.time), resolved := Forget(s.store.resolved, keep, s.time)))
  }

  // ---------------------------------------------------------------------------------------------
  // Looking up what was recorded
  // ---------------------------------------------------------------------------------------------

  lemma {:induction false} FindAppend(s: Stream, t: nat, v: Value, u: nat)
    ensures Find(s + [(t, v)], u) == if Find(s, u).Some? then Find(s, u) else if u == t then Some(v) else None
  {
    if s == [] {
      assert s + [(t, v)] == [(t, v)];
    } else {
      FindAppend(s[1..], t, v, u);
      assert (s + [(t, v)])[1..] == s[1..] + [(t, v)];
    }
  }

  lemma LookupPush(m: map<Name, Stream>, x: Name, t: nat, v: Value, y: Name, u: nat)
    ensures Lookup(Push(m, x, t, v), y, u) ==
            if Lookup(m, y, u).Some? then Lookup(m, y, u) else if y == x && u == t then Some(v) else None
  {
    if y == x {
      FindAppend(if x in m then m[x] else [], t, v, u);
    }
  }

  lemma PushSame(a: map<Name, Stream>, b: map<Name, Stream>, x: Name, t: nat, v: Value, now: nat, keep: map<Name, nat>)
    requires SameWindow(a, b, now, keep)
    ensures SameWindow(Push(a, x, t, v), Push(b, x, t, v), now, keep)
  {
    forall y: Name, u: nat | now <= u + Keep(keep, y)
      ensures Lookup(Push(a, x, t, v), y, u) == Lookup(Push(b, x, t, v), y, u)
    {
      LookupPush(a, x, t, v, y, u);
      LookupPush(b, x, t, v, y, u);
      assert Lookup(a, y, u) == Lookup(b, y, u);
    }
  }

  lemma {:induction false} RecordSame(a: map<Name, Stream>, b: map<Name, Stream>, ins: seq<(Name, Value)>, now: nat, keep: map<Name, nat>)
    requires SameWindow(a, b, now, keep)
    ensures SameWindow(Record(a, ins, now), Record(b, ins, now), now, keep)
    decreases |ins|
  {
    if ins != [] {
      PushSame(a, b, ins[0].0, now, ins[0].1, now, keep);
      RecordSame(Push(a, ins[0].0, now, ins[0].1), Push(b, ins[0].0, now, ins[0].1), ins[1..], now, keep);
    }
  }

  lemma {:induction false} PushAllSame(a: map<Name, Stream>, b: map<Name, Stream>, log: seq<Entry>, now: nat, keep: map<Name, nat>)
    requires SameWindow(a, b, now, keep)
    ensures SameWindow(PushAll(a, log), PushAll(b, log), now, keep)
    decreases |log|
  {
    if log != [] {
      PushSame(a, b, log[0].name, log[0].time, log[0].value, now, keep);
      PushAllSame(Push(a, log[0].name, log[0].time, log[0].value), Push(b, log[0].name, log[0].time, log[0].value), log[1..], now, keep);
    }
  }

  lemma {:induction false} PushAllConcat(m: map<Name, Stream>, a: seq<Entry>, b: seq<Entry>)
    ensures PushAll(PushAll(m, a), b) == PushAll(m, a + b)
    decreases |a|
  {
    if a == [] {
      assert a + b == b;
    } else {
      PushAllConcat(Push(m, a[0].name, a[0].time, a[0].value), a[1..], b);
      assert (a + b)[1..] == a[1..] + b;
    }
  }

  // ---------------------------------------------------------------------------------------------
  // Passes
  // ---------------------------------------------------------------------------------------------

  /** Specifications with present and past offsets that are not nested, retained as far as any of them
      reaches. */
  ghost predicate Retaining(exprs: map<Name, SExpr>, order: seq<Name>, keep: map<Name, nat>) {
    && (forall y :: y in order <==> y in exprs)
    && forall y :: y in exprs ==> Static(exprs[y]) && PastOnly(exprs[y]) && Unnested(exprs[y]) && Retained(exprs[y], keep)
  }

  /** Those in which, moreover, no output depends on itself within one instant, as `rank` witnesses. */
  ghost predicate Productive(exprs: map<Name, SExpr>, order: seq<Name>, keep: map<Name, nat>, rank: map<Name, nat>) {
    && Retaining(exprs, order, keep) && (forall y :: y in rank <==> y in exprs)
    && forall y :: y in exprs ==> Below(exprs[y], rank, rank[y])
  }

  lemma FoldRetaining(exprs: map<Name, SExpr>, order: seq<Name>, keep: map<Name, nat>)
    requires Retaining(exprs, order, keep) && Foldable(exprs)
    ensures Retaining(FoldAll(exprs), order, keep)
  {
    forall y | y in exprs
      ensures var e := FoldAll(exprs)[y]; Static(e) && PastOnly(e) && Unnested(e) && Retained(e, keep)
    {
      if Fold(exprs[y]).Unresolved? {
        FoldKeepsShape(exprs[y]);
        FoldKeepsRetained(exprs[y], keep);
      }
    }
  }

  lemma FoldProductive(exprs: map<Name, SExpr>, order: seq<Name>, keep: map<Name, nat>, rank: map<Name, nat>)
    requires Productive(exprs, order, keep, rank) && Foldable(exprs)
    ensures Productive(FoldAll(exprs), order, keep, rank)
  {
    FoldRetaining(exprs, order, keep);
    forall y | y in exprs ensures Below(FoldAll(exprs)[y], rank, rank[y]) {
      if Fold(exprs[y]).Unresolved? { FoldKeepsBelow(exprs[y], rank, rank[y]); }
    }
  }

  lemma {:induction false} OfAmong(items: seq<Item>, y: Name)
    ensures forall it :: it in Of(items, y) ==> it in items
  {
    if items != [] { OfAmong(items[1..], y); }
  }

  /** Pinned outputs read what is retained only, and so do those that wait already, if they did. */
  lemma {:induction false} AddItemsFit(order: seq<Name>, items: seq<Item>, exprs: map<Name, SExpr>, t: nat, keep: map<Name, nat>)
    requires ItemsFit(items, t, keep)
    requires forall y :: y in order ==>
               y in exprs && Static(exprs[y]) && PastOnly(exprs[y]) && Unnested(exprs[y]) && Retained(exprs[y], keep)
    ensures ItemsFit(AddItems(order, items, exprs, t), t, keep)
  {
    if order != [] {
      OfAmong(items, order[0]);
      AbsoluteShape(exprs[order[0]], t, keep, map[]);
      AddItemsFit(order[1..], items, exprs, t, keep);
    }
  }

  lemma {:induction false} PassFits(items: seq<Item>, st: Store, now: nat, keep: map<Name, nat>)
    requires ItemsFit(st.unresolved, now, keep) && ItemsFit(items, now, keep) && Pass(items, st, now).Some?
    ensures ItemsFit(Pass(items, st, now).value.rest, now, keep)
  {
    if items != [] {
      var it := items[0];
      assert ItemsFit(items[1..], now, keep);
      match Simplify(it.expr, now, st)
      case Resolved(v) => PassFits(items[1..], st.(resolved := Push(st.resolved, it.name, it.time, v)), now, keep);
      case Unresolved(a) =>
        SimplifyKeepsFit(it.expr, now, st, now, keep);
        PassFits(items[1..], st, now, keep);
      case Panic =>
    }
  }

  lemma {:induction false} AddItemsInv(order: seq<Name>, exprs: map<Name, SExpr>, t: nat, keep: map<Name, nat>, rank: map<Name, nat>)
    requires forall y :: y in order ==>
               && y in exprs && y in rank && Static(exprs[y]) && PastOnly(exprs[y]) && Unnested(exprs[y])
               && Retained(exprs[y], keep) && Below(exprs[y], rank, rank[y])
    ensures ItemsInv(AddItems(order, [], exprs, t), t, keep, rank)
  {
    if order != [] {
      AbsoluteShape(exprs[order[0]], t, keep, rank);
      AddItemsInv(order[1..], exprs, t, keep, rank);
    }
  }

  lemma {:induction false} PassShape(items: seq<Item>, st: Store, now: nat, keep: map<Name, nat>, rank: map<Name, nat>)
    requires ItemsInv(st.unresolved, now, keep, rank) && ItemsInv(items, now, keep, rank) && Pass(items, st, now).Some?
    ensures ItemsInv(Pass(items, st, now).value.rest, now, keep, rank)
  {
    if items != [] {
      var it := items[0];
      assert ItemsInv(items[1..], now, keep, rank);
      match Simplify(it.expr, now, st)
      case Resolved(v) => PassShape(items[1..], st.(resolved := Push(st.resolved, it.name, it.time, v)), now, keep, rank);
      case Unresolved(a) =>
        SimplifyKeepsShape(it.expr, now, st, keep, rank, rank[it.name]);
        PassShape(items[1..], st, now, keep, rank);
      case Panic =>
    }
  }

  lemma {:induction false} StuckItems(items: seq<Item>, st: Store, now: nat)
    requires Pass(items, st, now).Some? && Pass(items, st, now).value.log == []
    ensures forall it :: it in items ==> Simplify(it.expr, now, st).Unresolved?
  {
    if items != [] { StuckItems(items[1..], st, now); }
  }

  /** By descent along the rank, not all items of a productive specification can be stuck. */
  lemma {:induction false} NoneBelow(st: Store, now: nat, keep: map<Name, nat>, rank: map<Name, nat>, r: nat)
    requires ItemsInv(st.unresolved, now, keep, rank)
    requires forall it :: it in st.unresolved ==> Simplify(it.expr, now, st).Unresolved?
    ensures forall it :: it in st.unresolved ==> r <= rank[it.name]
  {
    if r != 0 {
      NoneBelow(st, now, keep, rank, r - 1);
      forall it | it in st.unresolved ensures r <= rank[it.name] {
        SimplifyKeepsShape(it.expr, now, st, keep, rank, rank[it.name]);
      }
    }
  }

  lemma StuckMeansDone(st: Store, now: nat, keep: map<Name, nat>, rank: map<Name, nat>)
    requires ItemsInv(st.unresolved, now, keep, rank)
    requires Pass(st.unresolved, st, now).Some? && Pass(st.unresolved, st, now).value.log == []
    ensures st.unresolved == []
  {
    StuckItems(st.unresolved, st, now);
    if st.unresolved != [] {
      var it := st.unresolved[0];
      assert it in st.unresolved;
      NoneBelow(st, now, keep, rank, rank[it.name] + 1);
    }
  }

  /** A productive specification leaves nothing unresolved at the end of a step. */
  lemma {:induction false} ResolveCompletes(st: Store, now: nat, keep: map<Name, nat>, rank: map<Name, nat>)
    requires ItemsInv(st.unresolved, now, keep, rank) && Resolve(st, now).Some?
    ensures Resolve(st, now).value.1.unresolved == []
    decreases |st.unresolved|
  {
    var p := Pass(st.unresolved, st, now).value;
    PassSizes(st.unresolved, st, now);
    PassShape(st.unresolved, st, now, keep, rank);
    if p.log == [] {
      StuckMeansDone(st, now, keep, rank);
    } else {
      ResolveCompletes(AfterPass(st, p), now, keep, rank);
    }
  }

  // ---------------------------------------------------------------------------------------------
  // The monitor
  // ---------------------------------------------------------------------------------------------

  function Start(exprs: map<Name, SExpr>): State { State(Store(map[], map[], []), 0, exprs) }

  /** What the monitor sends after the step at time `t`. */
  function Emit(s: State, order: seq<Name>, t: nat): seq<Option<Value>> {
    seq(|order|, i requires 0 <= i < |order| => Lookup(s.store.resolved, order[i], t))
  }

  /** The rows of values a monitor has sent, and the state it is left in; `None` if it has panicked. */
  type Outcomes = Option<(seq<seq<Option<Value>>>, State)>

  /** What the monitor goes on with after a step: `forget` says whether the dependency manager bounds the
      retention or keeps everything. */
  function Onward(s: State, keep: map<Name, nat>, forget: bool): State { if forget then Cleanup(s, keep) else s }

  /** The monitor's loop: step, send, clean up.  `None` if the solver panics. */
  function Monitor(s: State, order: seq<Name>, ins: seq<seq<(Name, Value)>>, keep: map<Name, nat>, forget: bool)
    : Outcomes
    requires forall y :: y in order ==> y in s.exprs
    decreases |ins|
  {
    if ins == [] then Some(([], s))
    else
      match Step(s, order, ins[0])
      case None => None
      case Some((_, s1)) =>
        match Monitor(Onward(s1, keep, forget), order, ins[1..], keep, forget)
        case None => None
        case Some((sent, s3)) => Some(([Emit(s1, order, s.time)] + sent, s3))
  }

  function Prepend(first: seq<Option<Value>>, m: Outcomes): Outcomes {
    if m.None? then None else Some(([first] + m.value.0, m.value.1))
  }
}
