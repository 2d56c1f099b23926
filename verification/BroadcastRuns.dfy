/** The broadcast protocol over whole runs: what every step keeps, what every subscriber is given, and
    that the single-subscriber shortcut is safe. */
module BroadcastRuns {
  import opened Broadcast

  lemma StepInv<V>(s: State<V>, e: Event, fast: bool)
    requires Inv(s) && Enabled(s, e)
    ensures Inv(Apply(s, e, fast))
  {
    match e
    case Subscribe => SubscribeInv(s);
    case Grant(k) => if TakesShortcut(s, k, fast) { GrantDirectInv(s, k); } else { GrantChannelInv(s, k); }
    case TickRead => TickReadInv(s);
    case TickSend => TickSendInv(s);
    case TickFinish => TickFinishInv(s);
    case Receive(k) => ReceiveInv(s, k);
    case Drop(k) => QuietInv(s, k, s.subs[k].(alive := false));
    case _ => SwitchInv(s, e, fast);
  }

  lemma {:induction false} RunInv<V>(s: State<V>, es: seq<Event>, fast: bool)
    requires Inv(s) && Legal(s, es, fast)
    ensures Inv(Exec(s, es, fast))
    decreases |es|
  {
    if es != [] {
      StepInv(s, es[0], fast);
      RunInv(Apply(s, es[0], fast), es[1..], fast);
    }
  }

  // ---------------------------------------------------------------------------------------------
  // Safety over whole runs
  // ---------------------------------------------------------------------------------------------

  /** In every interleaving, what a subscriber has received followed by its buffer is the input from
      its subscription on without gap, loss or repetition; between ticks and before cancellation it
      is exactly the input from its subscription clock to the current clock. */
  lemma Delivery<V>(input: seq<V>, es: seq<Event>, k: nat)
    requires Legal(Init(input), es, true) && k < |Exec(Init(input), es, true).subs|
    ensures
      var s := Exec(Init(input), es, true);
      var sub := s.subs[k];
      && (sub.received + sub.buffer <= input[Min(sub.since, |input|)..])
      && (sub.alive && s.owned && s.tick.Idle? && !s.cancelled ==>
            Min(sub.since, |input|) <= Min(s.clock, |input|)
            && sub.received + sub.buffer == input[Min(sub.since, |input|)..Min(s.clock, |input|)])
      && (sub.phase.Direct? ==> s.pos <= |input| && sub.received == input[..s.pos] && sub.buffer == [])
  {
    InitInv(input);
    RunInv(Init(input), es, true);
    InputConstant(Init(input), es, true);
    Delivered(Exec(Init(input), es, true), k);
  }

  lemma Delivered<V>(s: State<V>, k: nat)
    requires Inv(s) && k < |s.subs|
    ensures
      var sub := s.subs[k];
      && (sub.received + sub.buffer <= s.input[Start(s, k)..])
      && (sub.alive && s.owned && s.tick.Idle? && !s.cancelled ==>
            Start(s, k) <= Min(s.clock, |s.input|) && sub.received + sub.buffer == s.input[Start(s, k)..Min(s.clock, |s.input|)])
      && (sub.phase.Direct? ==> s.pos <= |s.input| && sub.received == s.input[..s.pos] && sub.buffer == [])
  {
    var sub := s.subs[k];
    assert PrefixInv(s, k) && RetiredInv(s, k);
    var from := s.input[Start(s, k)..];
    assert sub.Got() == from[..|sub.Got()|];
    if k in s.subscribers {
      var j :| 0 <= j < |s.subscribers| && s.subscribers[j] == k;
      assert CurrentInv(s, j);
    }
  }

  lemma {:induction false} InputConstant<V>(s: State<V>, es: seq<Event>, fast: bool)
    requires Legal(s, es, fast)
    ensures Exec(s, es, fast).input == s.input
    decreases |es|
  {
    if es != [] { InputConstant(Apply(s, es[0], fast), es[1..], fast); }
  }

  /** Two live subscribers from the same clock are never more than one item apart, even when a tick
      is aborted between its sends. */
  lemma SameClockWithinOne<V>(input: seq<V>, es: seq<Event>, i: nat, k: nat)
    requires Legal(Init(input), es, true)
    requires var s := Exec(Init(input), es, true);
             && i < |s.subs| && k < |s.subs| && s.subs[i].alive && s.subs[k].alive && s.subs[i].since == s.subs[k].since
    ensures
      var s := Exec(Init(input), es, true);
      |s.subs[i].received + s.subs[i].buffer| <= |s.subs[k].received + s.subs[k].buffer| + 1
  {
    InitInv(input);
    RunInv(Init(input), es, true);
    var s := Exec(Init(input), es, true);
    AlmostCurrent(s, i);
    AlmostCurrent(s, k);
  }

  lemma AlmostCurrent<V>(s: State<V>, k: nat)
    requires Inv(s) && k < |s.subs| && s.subs[k].alive
    ensures s.pos - 1 <= Reach(s, k) <= s.pos
  {
    assert PrefixInv(s, k) && RetiredInv(s, k);
    if k in s.subscribers {
      var j :| 0 <= j < |s.subscribers| && s.subscribers[j] == k;
      assert CurrentInv(s, j);
    }
  }

  /** A live subscriber that sees its stream end has drained the whole suffix of the input it was
      entitled to, whichever way its stream was provided, unless the protocol was cancelled. */
  lemma EndMeansDrained<V>(input: seq<V>, es: seq<Event>, k: nat)
    requires Legal(Init(input), es, true)
    requires var s := Exec(Init(input), es, true); k < |s.subs| && s.subs[k].alive && s.subs[k].ended && !s.cancelled
    ensures
      var s := Exec(Init(input), es, true);
      s.subs[k].received == input[Min(s.subs[k].since, |input|)..]
  {
    InitInv(input);
    RunInv(Init(input), es, true);
    InputConstant(Init(input), es, true);
    var s := Exec(Init(input), es, true);
    assert PrefixInv(s, k) && RetiredInv(s, k);
    assert s.subs[k].Got() == s.subs[k].received;
  }

  /** Free and held permits never exceed one, none is free or held while a request is outstanding,
      and a tick that waits is only ever waiting for requests that can be answered. */
  lemma OnePermit<V>(input: seq<V>, es: seq<Event>)
    requires Legal(Init(input), es, true)
    ensures
      var s := Exec(Init(input), es, true);
      && s.permits + (if Holds(s.tick) then 1 else 0) <= 1
      && ((exists k :: 0 <= k < |s.subs| && s.subs[k].Pending()) <==> 0 < s.outstanding)
      && (0 < s.outstanding ==> s.permits == 0 && !Holds(s.tick))
      && (s.tick.WaitPermit? ==>
            Enabled(s, TickAcquire) || exists k :: 0 <= k < |s.subs| && Enabled(s, Grant(k)))
  {
    InitInv(input);
    RunInv(Init(input), es, true);
    var s := Exec(Init(input), es, true);
    if 0 < s.outstanding {
      assert PendingSubs(s) != {};
      var k :| k in PendingSubs(s);
      assert 0 <= k < |s.subs| && s.subs[k].Pending();
      assert s.tick.WaitPermit? ==> Enabled(s, Grant(k));
    } else {
      NonePending(s);
    }
  }

  /** Whenever the shortcut fires, no item has been taken, no tick holds the stream, the stream is
      there to be handed over, and the popped sender is that of the lone subscriber; the manager's
      next tick, once it has its permit, finds no stream and ends the run loop. */
  lemma ShortcutIsSafe<V>(input: seq<V>, es: seq<Event>, k: nat)
    requires Legal(Init(input), es, true)
    requires var s := Exec(Init(input), es, true); Enabled(s, Grant(k)) && TakesShortcut(s, k, true)
    ensures
      var s := Exec(Init(input), es, true);
      var t := Apply(s, Grant(k), true);
      && s.pos == 0 && s.clock == 0 && s.owned && !Holds(s.tick) && s.outstanding == 1
      && |s.subs| == 1 && s.subscribers == [k] && s.subs[k].alive && t.subscribers == []
      && (t.tick.WaitPermit? ==> Enabled(t, TickAcquire) && Apply(t, TickAcquire, true).finished)
  {
    InitInv(input);
    RunInv(Init(input), es, true);
    ShortcutStep(Exec(Init(input), es, true), k);
  }

  lemma ShortcutStep<V>(s: State<V>, k: nat)
    requires Inv(s) && Enabled(s, Grant(k)) && TakesShortcut(s, k, true)
    ensures
      var t := Apply(s, Grant(k), true);
      && s.pos == 0 && s.clock == 0 && s.owned && !Holds(s.tick) && s.outstanding == 1
      && |s.subs| == 1 && s.subscribers == [k] && s.subs[k].alive && t.subscribers == []
      && (t.tick.WaitPermit? ==> Enabled(t, TickAcquire) && Apply(t, TickAcquire, true).finished)
  {
    GrantDirectInv(s, k);
    GrantPermits(s, k, Direct);
    assert PrefixInv(s, k);
    assert PendingSubs(s) == {0};
  }

  /** Once cancelled between ticks, the plain broadcast never reads another item. */
  lemma {:induction false} CancelledBroadcastIsSilent<V>(s: State<V>, es: seq<Event>)
    requires Inv(s) && s.cancelled && s.tick.Idle? && s.owned && Legal(s, es, false)
    ensures Exec(s, es, false).pos == s.pos
    decreases |es|
  {
    if es != [] {
      StepInv(s, es[0], false);
      CancelledBroadcastIsSilent(Apply(s, es[0], false), es[1..]);
    }
  }

  /** A manager that is run without a subscription ends its run loop at its first tick and reads nothing. */
  lemma UnusedEnds<V>(input: seq<V>, fast: bool)
    ensures var es := [Run, TickCall, TickAcquire];
            Legal(Init(input), es, fast) && var t := Exec(Init(input), es, fast); t.finished && t.pos == 0 && t.permits == 1
  {
    var s := Apply(Init(input), Run, fast);
    var t := Apply(s, TickCall, fast);
    var u := Apply(t, TickAcquire, fast);
    assert u.finished && Exec(u, [], fast) == u;
    LegalCons(t, TickAcquire, [], fast);
    LegalCons(s, TickCall, [TickAcquire], fast);
    LegalCons(Init(input), Run, [TickCall, TickAcquire], fast);
    assert [Run] + ([TickCall] + ([TickAcquire] + [])) == [Run, TickCall, TickAcquire];
  }

  /** Once cancelled, a run loop can end at once, whatever its tick was doing: it is called and returns, it
      is aborted, or it has sent all and is called once more.  Nothing is read for that, and the permit is
      given back. */
  lemma CancelledLoopEnds<V>(s: State<V>, fast: bool)
    requires Inv(s) && s.cancelled && s.running && !s.finished
    ensures var es := if s.tick.Idle? then [TickCall] else if Enabled(s, TickAbort) then [TickAbort] else [TickFinish, TickCall];
            && Legal(s, es, fast)
            && var t := Exec(s, es, fast);
               && t.finished && t.tick.Idle? && t.pos == s.pos && t.subs == s.subs
               && t.permits == s.permits + (if Holds(s.tick) then 1 else 0)
  {
    if s.tick.Idle? {
      LegalCons(s, TickCall, [], fast);
      assert [TickCall] + [] == [TickCall];
    } else if Enabled(s, TickAbort) {
      LegalCons(s, TickAbort, [], fast);
      assert [TickAbort] + [] == [TickAbort];
    } else {
      var t := Apply(s, TickFinish, fast);
      LegalCons(t, TickCall, [], fast);
      assert [TickCall] + [] == [TickCall];
      LegalCons(s, TickFinish, [TickCall], fast);
      assert [TickFinish] + [TickCall] == [TickFinish, TickCall];
    }
  }
}
