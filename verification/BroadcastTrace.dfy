/** The broadcast protocol as its users see it: the calls they make and what their streams give them, in
    order, and what the plain channel broadcast can look like. */
module BroadcastTraces {
  import opened Broadcast
  import opened BroadcastRuns

  /** What users do and see; everything else happens inside the manager and its tasks. */
  datatype Obs<V> = Subscribed | Started | Cancelled | Got(k: nat, item: V) | Ended(k: nat) | Dropped(k: nat)

  function Shown<V>(s: State<V>, e: Event): seq<Obs<V>>
    requires Enabled(s, e)
  {
    match e
    case Subscribe => [Subscribed]
    case Run => [Started]
    case Cancel => [Cancelled]
    case Drop(k) => [Dropped(k)]
    case Receive(k) =>
      (var sub := s.subs[k];
       if sub.phase.Direct? && s.pos < |s.input| then [Got(k, s.input[s.pos])]
       else if sub.phase.Channel? && sub.buffer != [] then [Got(k, sub.buffer[0])]
       else [Ended(k)])
    case _ => []
  }

  function Trace<V>(s: State<V>, es: seq<Event>, fast: bool): seq<Obs<V>>
    requires Legal(s, es, fast)
    decreases |es|
  {
    if es == [] then [] else Shown(s, es[0]) + Trace(Apply(s, es[0], fast), es[1..], fast)
  }

  /** Some run of the plain broadcast from `s` is seen as `t`. */
  ghost predicate Shows<V>(s: State<V>, t: seq<Obs<V>>) {
    exists fs :: Legal(s, fs, false) && Trace(s, fs, false) == t
  }

  ghost predicate Plain<V>(input: seq<V>, t: seq<Obs<V>>) { Shows(Init(input), t) }

  // ---------------------------------------------------------------------------------------------
  // A trace tells all there is to see
  // ---------------------------------------------------------------------------------------------

  /** The items given to `k`, in order. */
  function Items<V>(t: seq<Obs<V>>, k: nat): seq<V> {
    if t == [] then []
    else (if t[0].Got? && t[0].k == k then [t[0].item] else []) + Items(t[1..], k)
  }

  lemma {:induction false} ItemsConcat<V>(t: seq<Obs<V>>, u: seq<Obs<V>>, k: nat)
    ensures Items(t + u, k) == Items(t, k) + Items(u, k)
  {
    if t == [] {
      assert t + u == u;
    } else {
      var first := if t[0].Got? && t[0].k == k then [t[0].item] else [];
      assert (t + u)[0] == t[0] && (t + u)[1..] == t[1..] + u;
      ItemsConcat(t[1..], u, k);
      assert first + (Items(t[1..], k) + Items(u, k)) == (first + Items(t[1..], k)) + Items(u, k);
    }
  }

  /** What the trace `t` of a run tells about subscription `k`, which was `x` before it and is `y` now. */
  ghost predicate Tells<V>(x: Sub<V>, y: Sub<V>, t: seq<Obs<V>>, k: nat) {
    && y.received == x.received + Items(t, k)
    && (y.ended <==> x.ended || Ended(k) in t)
    && (y.alive <==> x.alive && Dropped(k) !in t)
  }

  lemma TellsConcat<V>(x: Sub<V>, y: Sub<V>, z: Sub<V>, t: seq<Obs<V>>, u: seq<Obs<V>>, k: nat)
    requires Tells(x, y, t, k) && Tells(y, z, u, k)
    ensures Tells(x, z, t + u, k)
  {
    ItemsConcat(t, u, k);
  }

  /** Subscription `k`, or what it is going to be when it is made. */
  function Now<V>(s: State<V>, k: nat): Sub<V> {
    if k < |s.subs| then s.subs[k] else Sub(Waiting, 0, [], [], true, false)
  }

  lemma ReceiveTells<V>(s: State<V>, i: nat, k: nat)
    requires Enabled(s, Receive(i))
    ensures Tells(Now(s, k), Now(DoReceive(s, i), k), Shown(s, Receive(i)), k)
  {
    var t := Shown(s, Receive(i));
    assert t == [t[0]] && t[1..] == [];
    assert Items(t, k) == if t[0].Got? && i == k then [t[0].item] else [];
  }

  lemma StepTells<V>(s: State<V>, e: Event, fast: bool, k: nat)
    requires Enabled(s, e)
    ensures Tells(Now(s, k), Now(Apply(s, e, fast), k), Shown(s, e), k)
  {
    if e.Receive? {
      ReceiveTells(s, e.k, k);
    } else {
      assert Items(Shown(s, e), k) == [];
    }
  }

  lemma {:induction false} RunTells<V>(s: State<V>, es: seq<Event>, fast: bool, k: nat)
    requires Legal(s, es, fast)
    ensures Tells(Now(s, k), Now(Exec(s, es, fast), k), Trace(s, es, fast), k)
    decreases |es|
  {
    if es != [] {
      var s1 := Apply(s, es[0], fast);
      StepTells(s, es[0], fast, k);
      RunTells(s1, es[1..], fast, k);
      TellsConcat(Now(s, k), Now(s1, k), Now(Exec(s1, es[1..], fast), k), Shown(s, es[0]), Trace(s1, es[1..], fast), k);
    }
  }

  /** What a subscription has received, whether it has seen its end and whether it was dropped can all
      be read off the trace. */
  lemma TraceTells<V>(input: seq<V>, es: seq<Event>, fast: bool, k: nat)
    requires Legal(Init(input), es, fast) && k < |Exec(Init(input), es, fast).subs|
    ensures
      var sub, t := Exec(Init(input), es, fast).subs[k], Trace(Init(input), es, fast);
      && sub.received == Items(t, k)
      && (sub.ended <==> Ended(k) in t)
      && (sub.alive <==> Dropped(k) !in t)
  {
    RunTells(Init(input), es, fast, k);
  }

  // ---------------------------------------------------------------------------------------------
  // When items may come after a cancellation
  // ---------------------------------------------------------------------------------------------

  function Gets<V>(t: seq<Obs<V>>, k: nat): nat {
    if t == [] then 0 else (if t[0].Got? && t[0].k == k then 1 else 0) + Gets(t[1..], k)
  }

  /** How many items subscription `k` may still be given behind `o`, a cancellation or a subscription or
      start made after one, when `n` subscriptions were made before `o`: a full channel, and behind a
      cancellation also the item of the tick it interrupts. */
  function Allowance<V>(o: Obs<V>, n: nat, k: nat): nat {
    if n <= k then 0 else if o.Cancelled? then CAPACITY + 1 else CAPACITY
  }

  /** Behind a cancellation, and behind subscribing or starting once cancelled, no more items come than
      may be on their way; `n` subscriptions were made before `t`. */
  ghost predicate Timely<V>(t: seq<Obs<V>>, n: nat, cancelled: bool) {
    t == [] ||
    (var o, rest := t[0], t[1..];
     && (o.Cancelled? || (cancelled && (o.Subscribed? || o.Started?)) ==> forall k: nat :: Gets(rest, k) <= Allowance(o, n, k))
     && Timely(rest, if o.Subscribed? then n + 1 else n, cancelled || o.Cancelled?))
  }

  // ---------------------------------------------------------------------------------------------
  // Plain traces are timely
  // ---------------------------------------------------------------------------------------------

  ghost predicate Buffers<V>(s: State<V>) { forall k :: 0 <= k < |s.subs| ==> |s.subs[k].buffer| <= CAPACITY }

  lemma StepBuffers<V>(s: State<V>, e: Event, fast: bool)
    requires Buffers(s) && Enabled(s, e)
    ensures Buffers(Apply(s, e, fast))
  {
    if e.TickSend? {
      assert s.subs[s.subscribers[s.tick.next]].alive ==> |s.subs[s.subscribers[s.tick.next]].buffer| < CAPACITY;
    } else {
      var t := Apply(s, e, fast);
      forall k | 0 <= k < |t.subs| ensures |t.subs[k].buffer| <= CAPACITY {
        assert k < |s.subs| ==> |t.subs[k].buffer| <= |s.subs[k].buffer|;
      }
    }
  }

  /** The tick in progress has yet to come to subscription `k`. */
  ghost predicate Due<V>(s: State<V>, k: nat) {
    !s.tick.Idle? && (s.tick.Sending? ==> exists j :: s.tick.next <= j < |s.subscribers| && s.subscribers[j] == k)
  }

  /** The items that can still reach subscription `k` of a cancelled plain broadcast. */
  ghost function OnTheWay<V>(s: State<V>, k: nat): nat {
    if k < |s.subs| then |s.subs[k].buffer| + (if Due(s, k) then 1 else 0) else 0
  }

  lemma SendOnTheWay<V>(s: State<V>, k: nat)
    requires ListInv(s) && Enabled(s, TickSend)
    ensures OnTheWay(DoTickSend(s), k) <= OnTheWay(s, k)
  {
    var t := DoTickSend(s);
    if k < |s.subs| {
      var n := s.tick.next;
      if Due(t, k) {
        var j :| n + 1 <= j < |t.subscribers| && t.subscribers[j] == k;
        assert s.subscribers[j] == k && s.subscribers[n] != k;
        assert Due(s, k);
      }
      if s.subscribers[n] == k { assert Due(s, k); }
    }
  }

  lemma TickOnTheWay<V>(s: State<V>, e: Event, k: nat)
    requires s.cancelled && Enabled(s, e)
    requires e.Subscribe? || e.Grant? || e.TickCall? || e.TickAcquire? || e.TickRead? || e.TickFinish? || e.TickAbort? || e.Run?
    ensures OnTheWay(Apply(s, e, false), k) <= OnTheWay(s, k)
  {
    var t := Apply(s, e, false);
    assert Due(t, k) ==> Due(s, k);
    assert k < |s.subs| ==> t.subs[k].buffer == s.subs[k].buffer;
  }

  lemma StepOnTheWay<V>(s: State<V>, e: Event, k: nat)
    requires OwnerInv(s) && ListInv(s) && s.owned && s.cancelled && Enabled(s, e)
    ensures Gets(Shown(s, e), k) + OnTheWay(Apply(s, e, false), k) <= OnTheWay(s, k)
  {
    match e
    case TickSend => SendOnTheWay(s, k);
    case Receive(i) =>
      assert Due(DoReceive(s, i), k) ==> Due(s, k);
    case Drop(i) =>
      assert Due(Apply(s, e, false), k) ==> Due(s, k);
    case Cancel =>
    case _ => TickOnTheWay(s, e, k);
  }

  lemma {:induction false} GetsConcat<V>(t: seq<Obs<V>>, u: seq<Obs<V>>, k: nat)
    ensures Gets(t + u, k) == Gets(t, k) + Gets(u, k)
  {
    if t == [] {
      assert t + u == u;
    } else {
      GetsConcat(t[1..], u, k);
      assert (t + u)[1..] == t[1..] + u;
    }
  }

  lemma {:induction false} GetsOnTheWay<V>(s: State<V>, fs: seq<Event>, k: nat)
    requires Inv(s) && s.owned && s.cancelled && Legal(s, fs, false)
    ensures Gets(Trace(s, fs, false), k) <= OnTheWay(s, k)
    decreases |fs|
  {
    if fs != [] {
      var s1 := Apply(s, fs[0], false);
      StepInv(s, fs[0], false);
      StepOnTheWay(s, fs[0], k);
      GetsOnTheWay(s1, fs[1..], k);
      GetsConcat(Shown(s, fs[0]), Trace(s1, fs[1..], false), k);
    }
  }

  lemma CallAllowance<V>(s: State<V>, e: Event, k: nat)
    requires Buffers(s) && Enabled(s, e) && (e.Cancel? || e.Subscribe? || e.Run?)
    ensures OnTheWay(Apply(s, e, false), k) <= Allowance(Shown(s, e)[0], |s.subs|, k)
  {
  }

  /** What is seen of one step tells whether a subscription was made and whether it cancels. */
  lemma SeenStep<V>(s: State<V>, e: Event, fast: bool)
    requires Enabled(s, e)
    ensures
      var s1, o := Apply(s, e, fast), Shown(s, e);
      if o == [] then |s1.subs| == |s.subs| && s1.cancelled == s.cancelled
      else |o| == 1 && |s1.subs| == (if o[0].Subscribed? then |s.subs| + 1 else |s.subs|)
           && s1.cancelled == (s.cancelled || o[0].Cancelled?)
  {
  }

  lemma TimelyStep<V>(s: State<V>, e: Event, t1: seq<Obs<V>>)
    requires Buffers(s) && Enabled(s, e)
    requires
      var s1 := Apply(s, e, false);
      Timely(t1, |s1.subs|, s1.cancelled) && (s1.cancelled ==> forall k: nat :: Gets(t1, k) <= OnTheWay(s1, k))
    ensures Timely(Shown(s, e) + t1, |s.subs|, s.cancelled)
  {
    SeenStep(s, e, false);
    var o := Shown(s, e);
    if o == [] {
      assert o + t1 == t1;
    } else {
      assert (o + t1)[0] == o[0] && (o + t1)[1..] == t1;
      if o[0].Cancelled? || (s.cancelled && (o[0].Subscribed? || o[0].Started?)) {
        forall k: nat ensures Gets(t1, k) <= Allowance(o[0], |s.subs|, k) { CallAllowance(s, e, k); }
      }
    }
  }

  lemma AllOnTheWay<V>(s: State<V>, fs: seq<Event>)
    requires Inv(s) && s.owned && s.cancelled && Legal(s, fs, false)
    ensures forall k: nat :: Gets(Trace(s, fs, false), k) <= OnTheWay(s, k)
  {
    forall k: nat ensures Gets(Trace(s, fs, false), k) <= OnTheWay(s, k) { GetsOnTheWay(s, fs, k); }
  }

  lemma StaysOwned<V>(s: State<V>, e: Event)
    requires Enabled(s, e) && s.owned
    ensures Apply(s, e, false).owned
  {
  }

  lemma {:induction false} PlainTimely<V>(s: State<V>, fs: seq<Event>)
    requires Inv(s) && Buffers(s) && s.owned && Legal(s, fs, false)
    ensures Timely(Trace(s, fs, false), |s.subs|, s.cancelled)
    decreases |fs|
  {
    if fs != [] {
      var s1 := Apply(s, fs[0], false);
      StepInv(s, fs[0], false);
      StepBuffers(s, fs[0], false);
      StaysOwned(s, fs[0]);
      PlainTimely(s1, fs[1..]);
      if s1.cancelled { AllOnTheWay(s1, fs[1..]); }
      TimelyStep(s, fs[0], Trace(s1, fs[1..], false));
    }
  }

  // ---------------------------------------------------------------------------------------------
  // A run in which the shortcut is never taken is plain itself
  // ---------------------------------------------------------------------------------------------

  lemma {:induction false} OwnedIsPlain<V>(s: State<V>, es: seq<Event>)
    requires Inv(s) && Legal(s, es, true) && Exec(s, es, true).owned
    ensures s.owned && Legal(s, es, false) && Trace(s, es, false) == Trace(s, es, true)
    decreases |es|
  {
    if es != [] {
      StepInv(s, es[0], true);
      OwnedIsPlain(Apply(s, es[0], true), es[1..]);
    }
  }
}
