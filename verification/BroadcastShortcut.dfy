/** When the single-subscriber shortcut can be told from the plain channel broadcast, on whole traces. */
module BroadcastShortcuts {
  import opened Broadcast
  import opened BroadcastRuns
  import opened BroadcastTraces

  // ---------------------------------------------------------------------------------------------
  // A run in which it is taken has one subscriber only
  // ---------------------------------------------------------------------------------------------

  ghost predicate Lone<V>(c: State<V>) {
    && |c.subs| <= 1
    && (|c.subs| == 1 ==> c.subs[0].phase.Waiting? || c.subs[0].phase.Direct?)
    && (|c.subs| == 0 ==> c.stage.Gathering?)
  }

  lemma LoneBefore<V>(c: State<V>, e: Event)
    requires StageInv(c) && Enabled(c, e) && Lone(Apply(c, e, true))
    ensures Lone(c)
  {
    if e.Grant? && c.subs[e.k].phase.Granting? {
      assert false;
    }
  }

  lemma {:induction false} ShortcutIsLone<V>(c: State<V>, es: seq<Event>)
    requires Inv(c) && Legal(c, es, true) && !Exec(c, es, true).owned
    ensures Lone(c)
    decreases |es|
  {
    if es != [] {
      StepInv(c, es[0], true);
      ShortcutIsLone(Apply(c, es[0], true), es[1..]);
      LoneBefore(c, es[0]);
    }
  }

  /** What is decided about the lone subscriber: data flows to it only once it has the raw stream. */
  lemma LoneFacts<V>(c: State<V>)
    requires Inv(c) && Lone(c)
    ensures !Holds(c.tick) && c.pos <= |c.input|
    ensures |c.subs| == 0 ==> c.pos == 0
    ensures |c.subs| == 1 && c.subs[0].phase.Waiting? ==> c.owned && c.pos == 0 && c.subs[0].alive && !c.subs[0].ended
    ensures |c.subs| == 1 && c.subs[0].phase.Direct? ==> !c.owned && c.running
    ensures |c.subs| == 1 ==> c.subs[0].buffer == []
  {
    if |c.subs| == 1 {
      assert PrefixInv(c, 0) && RetiredInv(c, 0);
      if c.subs[0].phase.Waiting? {
        assert c.subscribers[0] == 0;
      }
    }
  }

  lemma QuietStep<V>(c: State<V>, e: Event)
    requires Inv(c) && Lone(c) && Enabled(c, e) && Lone(Apply(c, e, true)) && Shown(c, e) == []
    ensures SameFace(c, Apply(c, e, true))
  {
    LoneFacts(c);
    if e.Grant? { assert c.subs[0].phase.Waiting?; }
  }

  /** The parts of the state of a lone subscriber's manager that what is seen depends on. */
  ghost predicate SameFace<V>(c: State<V>, d: State<V>) {
    && d.input == c.input && d.pos == c.pos && d.running == c.running && d.cancelled == c.cancelled
    && |d.subs| == |c.subs|
    && (|c.subs| == 1 ==> d.subs[0].alive == c.subs[0].alive && d.subs[0].ended == c.subs[0].ended)
  }

  // ---------------------------------------------------------------------------------------------
  // What the plain broadcast does instead
  // ---------------------------------------------------------------------------------------------

  lemma ShowsStep<V>(a: State<V>, e: Event, t: seq<Obs<V>>)
    requires Enabled(a, e) && Shows(Apply(a, e, false), t)
    ensures Shows(a, Shown(a, e) + t)
  {
    var fs :| Legal(Apply(a, e, false), fs, false) && Trace(Apply(a, e, false), fs, false) == t;
    LegalCons(a, e, fs, false);
    assert ([e] + fs)[1..] == fs;
    assert Trace(a, [e] + fs, false) == Shown(a, e) + t;
  }

  lemma ShowsQuietly<V>(a: State<V>, e: Event, t: seq<Obs<V>>)
    requires Enabled(a, e) && Shown(a, e) == [] && Shows(Apply(a, e, false), t)
    ensures Shows(a, t)
  {
    ShowsStep(a, e, t);
    assert [] + t == t;
  }

  /** The plain broadcast serves its one subscriber and is between two ticks. */
  ghost predicate Serving<V>(a: State<V>) {
    && a.tick.Idle? && a.owned && a.permits == 1 && a.outstanding == 0 && !a.finished && !a.cancelled && !a.stage.Gathering?
    && a.subscribers == [0] && |a.subs| == 1
    && a.subs[0].phase.Channel? && a.subs[0].alive && !a.subs[0].ended && |a.subs[0].buffer| <= CAPACITY
    && a.pos <= |a.input|
  }

  /** `a` when its next `m` items have gone into the channel of its one subscriber. */
  function Filled<V>(a: State<V>, m: nat): State<V>
    requires |a.subs| == 1 && a.pos + m <= |a.input|
  {
    a.(pos := a.pos + m, clock := a.clock + m,
       subs := [a.subs[0].(buffer := a.subs[0].buffer + a.input[a.pos..a.pos + m])])
  }

  /** A tick up to the point where it has its item and is about to send it. */
  function Loaded<V>(a: State<V>): State<V>
    requires a.pos < |a.input|
  {
    a.(pos := a.pos + 1, clock := a.clock + 1, permits := 0, tick := Sending(a.input[a.pos], 0, []))
  }

  lemma LoadWaiting<V>(a: State<V>, t: seq<Obs<V>>)
    requires a.tick.WaitPermit? && Serving(a.(tick := Idle)) && a.pos < |a.input| && Shows(Loaded(a), t)
    ensures Shows(a, t)
  {
    var a1 := Apply(a, TickAcquire, false);
    assert Apply(a1, TickRead, false) == Loaded(a);
    ShowsQuietly(a1, TickRead, t);
    ShowsQuietly(a, TickAcquire, t);
  }

  /** The rest of a tick whose only receiver has room. */
  lemma Unload<V>(a: State<V>, b: State<V>, t: seq<Obs<V>>)
    requires a.tick.Sending? && a.tick.next == 0 && a.tick.dead == [] && a.subscribers == [0] && |a.subs| == 1
    requires a.subs[0].alive && |a.subs[0].buffer| < CAPACITY
    requires b == a.(tick := Idle, permits := a.permits + 1, subs := [a.subs[0].(buffer := a.subs[0].buffer + [a.tick.item])])
    requires Shows(b, t)
    ensures Shows(a, t)
  {
    var a1 := Apply(a, TickSend, false);
    assert a1.subs == b.subs;
    assert Apply(a1, TickFinish, false) == b;
    ShowsQuietly(a1, TickFinish, t);
    ShowsQuietly(a, TickSend, t);
  }

  lemma FilledAdds<V>(a: State<V>, m: nat)
    requires |a.subs| == 1 && 0 < m && a.pos + m <= |a.input|
    ensures Filled(Filled(a, 1), m - 1) == Filled(a, m)
  {
    assert a.input[a.pos..a.pos + 1] + a.input[a.pos + 1..a.pos + m] == a.input[a.pos..a.pos + m];
    assert (a.subs[0].buffer + a.input[a.pos..a.pos + 1]) + a.input[a.pos + 1..a.pos + m]
        == a.subs[0].buffer + a.input[a.pos..a.pos + m];
  }

  lemma {:induction false} Fill<V>(a: State<V>, m: nat, t: seq<Obs<V>>)
    requires Serving(a) && |a.subs[0].buffer| + m <= CAPACITY && a.pos + m <= |a.input|
    requires Shows(Filled(a, m), t)
    ensures Shows(a, t)
    decreases m, 1
  {
    if m == 0 {
      assert a.subs[0].buffer + a.input[a.pos..a.pos] == a.subs[0].buffer;
      assert [a.subs[0]] == a.subs;
      assert Filled(a, m) == a;
    } else {
      FillWaiting(a.(tick := WaitPermit), m, t);
      ShowsQuietly(a, TickCall, t);
    }
  }

  /** The same when the first tick has begun. */
  lemma {:induction false} FillWaiting<V>(a: State<V>, m: nat, t: seq<Obs<V>>)
    requires a.tick.WaitPermit? && Serving(a.(tick := Idle))
    requires 0 < m && |a.subs[0].buffer| + m <= CAPACITY && a.pos + m <= |a.input|
    requires Shows(Filled(a.(tick := Idle), m), t)
    ensures Shows(a, t)
    decreases m, 0
  {
    var b := Filled(a.(tick := Idle), 1);
    FilledAdds(a.(tick := Idle), m);
    Fill(b, m - 1, t);
    assert a.input[a.pos..a.pos + 1] == [a.input[a.pos]];
    Unload(Loaded(a), b, t);
    LoadWaiting(a, t);
  }

  // ---------------------------------------------------------------------------------------------
  // Standing in for a lone subscriber's manager
  // ---------------------------------------------------------------------------------------------

  ghost predicate Over<V>(c: State<V>) { |c.subs| == 1 && (c.subs[0].ended || !c.subs[0].alive) }

  /** Nothing more will be seen but a drop and cancellations. */
  ghost predicate Spent<V>(c: State<V>, a: State<V>)
    requires |c.subs| == 1
  {
    |a.subs| == 1 && a.subs[0].phase.Channel? && a.subs[0].alive == c.subs[0].alive
  }

  /** Before a cancellation the plain broadcast keeps pace, its channel empty. */
  ghost predicate KeepsPace<V>(c: State<V>, a: State<V>) {
    Serving(a) && a.stage.Closed? && a.running && a.input == c.input && a.pos == c.pos && a.subs[0].buffer == []
  }

  /** After it, the `m` items still to be seen are in the channel, and the last one in the tick that was
      interrupted if they are too many. */
  ghost predicate Stocked<V>(c: State<V>, a: State<V>, m: nat)
    requires |c.subs| == 1
  {
    && a.cancelled && a.running == c.running && a.outstanding == 0 && |a.subs| == 1
    && c.pos + m <= |c.input|
    && var x := a.subs[0];
       && x.phase.Channel? && x.alive && !x.ended
       && (if a.tick.Idle? then x.buffer == c.input[c.pos..c.pos + m]
           else m == CAPACITY + 1 && a.running && a.subscribers == [0]
                && x.buffer == c.input[c.pos..c.pos + CAPACITY] && a.tick == Sending(c.input[c.pos + CAPACITY], 0, []))
  }

  /** The plain state that stands in for `c` when `m` more items are going to be seen. */
  ghost predicate StandsIn<V>(c: State<V>, a: State<V>, m: nat)
    requires |c.subs| <= 1
  {
    if c.subs == [] && !c.cancelled then a == Init(c.input)
    else if c.subs == [] then m == 0 && a == Init(c.input).(stage := Open, cancelled := true)
    else if Over(c) then Spent(c, a)
    else if c.cancelled then Stocked(c, a, m)
    else if c.running then KeepsPace(c, a)
    else a == DoSubscribe(Init(c.input))
  }

  /** Whatever stands in for `c` can show `t`. */
  ghost predicate Covered<V(!new)>(c: State<V>, t: seq<Obs<V>>)
    requires |c.subs| <= 1
  {
    forall b :: StandsIn(c, b, Gets(t, 0)) ==> Shows(b, t)
  }

  // One lemma for each event that is seen: if the state after it is covered, the state before it is.

  lemma AfterSubscribe<V(!new)>(c: State<V>, a: State<V>, t1: seq<Obs<V>>)
    requires Inv(c) && Lone(c) && c.subs == [] && Enabled(c, Subscribe) && Covered(DoSubscribe(c), t1)
    requires StandsIn(c, a, Gets(t1, 0))
    ensures Shows(a, [Subscribed] + t1)
  {
    var c1, a1 := DoSubscribe(c), DoSubscribe(a);
    LoneFacts(c);
    if c.cancelled {
      var b := Apply(a1, Grant(0), false);
      assert b.subs[0].buffer == c.input[c.pos..c.pos + 0];
      assert StandsIn(c1, b, Gets(t1, 0));
      ShowsQuietly(a1, Grant(0), t1);
    } else {
      assert StandsIn(c1, a1, Gets(t1, 0));
    }
    ShowsStep(a, Subscribe, t1);
  }

  lemma AfterRun<V(!new)>(c: State<V>, a: State<V>, t1: seq<Obs<V>>)
    requires Inv(c) && Lone(c) && |c.subs| == 1 && Enabled(c, Run) && Covered(Apply(c, Run, true), t1)
    requires StandsIn(c, a, Gets(t1, 0))
    ensures Shows(a, [Started] + t1)
  {
    var c1 := Apply(c, Run, true);
    LoneFacts(c);
    if c.cancelled {
      assert a.tick.Idle?;
      assert StandsIn(c1, Apply(a, Run, false), Gets(t1, 0));
    } else {
      var a1 := Apply(a, Run, false);
      var b := Apply(a1, Grant(0), false);
      assert StandsIn(c1, b, Gets(t1, 0));
      ShowsQuietly(a1, Grant(0), t1);
    }
    ShowsStep(a, Run, t1);
  }

  lemma AfterDrop<V(!new)>(c: State<V>, a: State<V>, t1: seq<Obs<V>>)
    requires Inv(c) && Lone(c) && Enabled(c, Drop(0)) && Covered(Apply(c, Drop(0), true), t1)
    requires StandsIn(c, a, Gets(t1, 0))
    ensures Shows(a, [Dropped(0)] + t1)
  {
    LoneFacts(c);
    assert StandsIn(Apply(c, Drop(0), true), Apply(a, Drop(0), false), Gets(t1, 0));
    ShowsStep(a, Drop(0), t1);
  }

  /** Cancelling again changes nothing, and neither does cancelling when it is over. */
  lemma AfterCancelAgain<V(!new)>(c: State<V>, a: State<V>, t1: seq<Obs<V>>)
    requires Lone(c) && (c.cancelled || Over(c)) && Covered(Apply(c, Cancel, true), t1)
    requires StandsIn(c, a, Gets(t1, 0))
    ensures Shows(a, [Cancelled] + t1)
  {
    assert StandsIn(Apply(c, Cancel, true), Apply(a, Cancel, false), Gets(t1, 0));
    ShowsStep(a, Cancel, t1);
  }

  lemma AfterEarlyCancel<V(!new)>(c: State<V>, t1: seq<Obs<V>>)
    requires c.subs == [] && Covered(Apply(c, Cancel, true), t1) && Gets(t1, 0) == 0
    ensures Shows(Init(c.input), [Cancelled] + t1)
  {
    var a := Init(c.input);
    var a1 := Apply(a, TickCall, false);
    var a2 := Apply(a1, Cancel, false);
    assert StandsIn(Apply(c, Cancel, true), Apply(a2, TickAbort, false), Gets(t1, 0));
    ShowsQuietly(a2, TickAbort, t1);
    ShowsStep(a1, Cancel, t1);
    ShowsQuietly(a, TickCall, [Cancelled] + t1);
  }

  /** Before it is cancelled the plain broadcast puts into the channel what is still going to be seen. */
  lemma StockUp<V(!new)>(c: State<V>, a: State<V>, t1: seq<Obs<V>>)
    requires |c.subs| == 1 && !c.cancelled && !Over(c) && Covered(Apply(c, Cancel, true), t1)
    requires Serving(a) && a.subs[0].buffer == [] && a.input == c.input && a.pos == c.pos && a.running == c.running
    requires c.pos + Gets(t1, 0) <= |c.input| && Gets(t1, 0) <= CAPACITY
    ensures Shows(a, [Cancelled] + t1)
  {
    var m := Gets(t1, 0);
    var b := Filled(a, m);
    assert StandsIn(Apply(c, Cancel, true), Apply(b, Cancel, false), m);
    ShowsStep(b, Cancel, t1);
    Fill(a, m, [Cancelled] + t1);
  }

  lemma StockUpMore<V(!new)>(c: State<V>, a: State<V>, t1: seq<Obs<V>>)
    requires |c.subs| == 1 && !c.cancelled && !Over(c) && Covered(Apply(c, Cancel, true), t1) && c.running
    requires KeepsPace(c, a) && c.pos + Gets(t1, 0) <= |c.input| && Gets(t1, 0) == CAPACITY + 1
    ensures Shows(a, [Cancelled] + t1)
  {
    var b := Filled(a, CAPACITY);
    var b1 := Loaded(b);
    assert StandsIn(Apply(c, Cancel, true), Apply(b1, Cancel, false), Gets(t1, 0));
    ShowsStep(b1, Cancel, t1);
    LoadWaiting(b.(tick := WaitPermit), [Cancelled] + t1);
    ShowsQuietly(b, TickCall, [Cancelled] + t1);
    Fill(a, CAPACITY, [Cancelled] + t1);
  }

  lemma AfterMiddleCancel<V(!new)>(c: State<V>, a: State<V>, t1: seq<Obs<V>>)
    requires |c.subs| == 1 && c.pos == 0 && !c.running && !c.cancelled && !Over(c) && Covered(Apply(c, Cancel, true), t1)
    requires StandsIn(c, a, Gets(t1, 0)) && Gets(t1, 0) <= CAPACITY && Gets(t1, 0) <= |c.input|
    ensures Shows(a, [Cancelled] + t1)
  {
    var m := Gets(t1, 0);
    var a1 := Apply(a, TickCall, false);
    var a2 := Apply(a1, Grant(0), false);
    if m == 0 {
      var a3 := Apply(a2, Cancel, false);
      assert StandsIn(Apply(c, Cancel, true), Apply(a3, TickAbort, false), m);
      ShowsQuietly(a3, TickAbort, t1);
      ShowsStep(a2, Cancel, t1);
    } else {
      var b := Filled(a2.(tick := Idle), m);
      assert StandsIn(Apply(c, Cancel, true), Apply(b, Cancel, false), m);
      ShowsStep(b, Cancel, t1);
      FillWaiting(a2, m, [Cancelled] + t1);
    }
    ShowsQuietly(a1, Grant(0), [Cancelled] + t1);
    ShowsQuietly(a, TickCall, [Cancelled] + t1);
  }

  lemma AfterItem<V(!new)>(c: State<V>, a: State<V>, t1: seq<Obs<V>>)
    requires Inv(c) && Lone(c) && Enabled(c, Receive(0)) && c.pos < |c.input| && Covered(DoReceive(c, 0), t1)
    requires StandsIn(c, a, Gets(t1, 0) + 1)
    ensures Shows(a, [Got(0, c.input[c.pos])] + t1)
  {
    LoneFacts(c);
    if c.cancelled {
      ItemFromStock(c, a, t1);
    } else {
      ItemInPace(c, a, t1);
    }
  }

  lemma ItemInPace<V(!new)>(c: State<V>, a: State<V>, t1: seq<Obs<V>>)
    requires |c.subs| == 1 && !Over(c) && c.subs[0].phase.Direct? && c.running && !c.cancelled && c.pos < |c.input|
    requires KeepsPace(c, a) && Covered(DoReceive(c, 0), t1)
    ensures Shows(a, [Got(0, c.input[c.pos])] + t1)
  {
    var b := Filled(a, 1);
    assert b.subs[0].buffer == [c.input[c.pos]];
    assert StandsIn(DoReceive(c, 0), DoReceive(b, 0), Gets(t1, 0));
    ShowsStep(b, Receive(0), t1);
    Fill(a, 1, [Got(0, c.input[c.pos])] + t1);
  }

  lemma ItemFromStock<V(!new)>(c: State<V>, a: State<V>, t1: seq<Obs<V>>)
    requires |c.subs| == 1 && !Over(c) && c.subs[0].phase.Direct? && c.cancelled && c.pos < |c.input|
    requires Stocked(c, a, Gets(t1, 0) + 1) && Covered(DoReceive(c, 0), t1)
    ensures Shows(a, [Got(0, c.input[c.pos])] + t1)
  {
    var c1, a1, m := DoReceive(c, 0), DoReceive(a, 0), Gets(t1, 0);
    assert c1.pos == c.pos + 1;
    if a.tick.Idle? {
      assert a1.subs[0].buffer == c.input[c1.pos..c1.pos + m];
      assert StandsIn(c1, a1, m);
    } else {
      var b := a1.(tick := Idle, permits := a1.permits + 1, subs := [a1.subs[0].(buffer := a1.subs[0].buffer + [a1.tick.item])]);
      assert b.subs[0].buffer == c.input[c1.pos..c1.pos + m];
      assert StandsIn(c1, b, m);
      Unload(a1, b, t1);
    }
    ShowsStep(a, Receive(0), t1);
  }

  lemma AfterEnd<V(!new)>(c: State<V>, a: State<V>, t1: seq<Obs<V>>)
    requires Inv(c) && Lone(c) && Enabled(c, Receive(0)) && c.pos == |c.input| && Covered(DoReceive(c, 0), t1)
    requires StandsIn(c, a, Gets(t1, 0))
    ensures Shows(a, [Ended(0)] + t1)
  {
    LoneFacts(c);
    if c.cancelled {
      assert a.tick.Idle? && a.subs[0].buffer == [];
      var b := if a.finished then a else Apply(a, TickCall, false);
      assert b.finished;
      assert StandsIn(DoReceive(c, 0), DoReceive(b, 0), Gets(t1, 0));
      ShowsStep(b, Receive(0), t1);
      if !a.finished { ShowsQuietly(a, TickCall, [Ended(0)] + t1); }
    } else {
      EndInPace(c, a, t1);
    }
  }

  lemma EndInPace<V(!new)>(c: State<V>, a: State<V>, t1: seq<Obs<V>>)
    requires |c.subs| == 1 && !Over(c) && c.subs[0].phase.Direct? && c.running && !c.cancelled && c.pos == |c.input|
    requires KeepsPace(c, a) && Covered(DoReceive(c, 0), t1)
    ensures Shows(a, [Ended(0)] + t1)
  {
    var a1 := Apply(a, TickCall, false);
    var a2 := Apply(a1, TickAcquire, false);
    var a3 := Apply(a2, TickRead, false);
    assert StandsIn(DoReceive(c, 0), DoReceive(a3, 0), Gets(t1, 0));
    ShowsStep(a3, Receive(0), t1);
    ShowsQuietly(a2, TickRead, [Ended(0)] + t1);
    ShowsQuietly(a1, TickAcquire, [Ended(0)] + t1);
    ShowsQuietly(a, TickCall, [Ended(0)] + t1);
  }

  lemma AfterReceive<V(!new)>(c: State<V>, a: State<V>, t1: seq<Obs<V>>)
    requires Inv(c) && Lone(c) && Enabled(c, Receive(0)) && Covered(DoReceive(c, 0), t1)
    requires StandsIn(c, a, Gets(Shown(c, Receive(0)) + t1, 0))
    ensures Shows(a, Shown(c, Receive(0)) + t1)
  {
    LoneFacts(c);
    assert (Shown(c, Receive(0)) + t1)[1..] == t1;
    if c.pos < |c.input| { AfterItem(c, a, t1); } else { AfterEnd(c, a, t1); }
  }

  lemma AfterCancel<V(!new)>(c: State<V>, a: State<V>, t1: seq<Obs<V>>)
    requires Inv(c) && Lone(c) && Covered(Apply(c, Cancel, true), t1) && StandsIn(c, a, Gets(t1, 0))
    requires c.pos + Gets(t1, 0) <= |c.input|
    requires Gets(t1, 0) <= if c.subs == [] then 0 else if c.running then CAPACITY + 1 else CAPACITY
    ensures Shows(a, [Cancelled] + t1)
  {
    LoneFacts(c);
    if c.cancelled || Over(c) {
      AfterCancelAgain(c, a, t1);
    } else if c.subs == [] {
      AfterEarlyCancel(c, t1);
    } else if !c.running {
      AfterMiddleCancel(c, a, t1);
    } else if Gets(t1, 0) <= CAPACITY {
      StockUp(c, a, t1);
    } else {
      StockUpMore(c, a, t1);
    }
  }

  // ---------------------------------------------------------------------------------------------
  // Timely traces are plain
  // ---------------------------------------------------------------------------------------------

  /** One step of a run in which the shortcut is taken: what is seen, and how much is left. */
  lemma LoneStep<V>(c: State<V>, e: Event)
    requires Inv(c) && Lone(c) && Enabled(c, e) && Lone(Apply(c, e, true))
    ensures
      var c1, o := Apply(c, e, true), Shown(c, e);
      && c1.input == c.input && c1.pos == c.pos + Gets(o, 0)
      && (e.Receive? || e.Drop? ==> e.k == 0 && |c.subs| == 1 && c.running)
      && (o == [] || |o| == 1)
  {
    LoneFacts(c);
    if Shown(c, e) == [] { QuietStep(c, e); }
  }

  /** No more can be given than the input has left. */
  lemma {:induction false} GetsLeft<V>(c: State<V>, es: seq<Event>)
    requires Inv(c) && Legal(c, es, true) && !Exec(c, es, true).owned
    ensures c.pos + Gets(Trace(c, es, true), 0) <= |c.input|
    decreases |es|
  {
    ShortcutIsLone(c, es);
    if es == [] {
      LoneFacts(c);
    } else {
      var c1 := Apply(c, es[0], true);
      StepInv(c, es[0], true);
      ShortcutIsLone(c1, es[1..]);
      LoneStep(c, es[0]);
      GetsLeft(c1, es[1..]);
      GetsConcat(Shown(c, es[0]), Trace(c1, es[1..], true), 0);
    }
  }

  lemma TimelyTail<V>(c: State<V>, e: Event, t1: seq<Obs<V>>)
    requires Enabled(c, e) && Timely(Shown(c, e) + t1, |c.subs|, c.cancelled)
    ensures Timely(t1, |Apply(c, e, true).subs|, Apply(c, e, true).cancelled)
  {
    SeenStep(c, e, true);
    var t := Shown(c, e) + t1;
    if Shown(c, e) == [] {
      assert t == t1;
    } else {
      assert t[0] == Shown(c, e)[0] && t[1..] == t1;
    }
  }

  lemma StartedTimely<V>(t1: seq<Obs<V>>)
    requires Timely([Started] + t1, 1, true)
    ensures Gets(t1, 0) <= CAPACITY
  {
    assert ([Started] + t1)[1..] == t1;
    assert Gets(t1, 0) <= Allowance<V>(Started, 1, 0);
  }

  /** Cancelled before it is started, a manager gives no item before it is started. */
  lemma {:induction false} GetsBeforeRun<V>(c: State<V>, es: seq<Event>)
    requires Inv(c) && Legal(c, es, true) && !Exec(c, es, true).owned && c.cancelled && !c.running && |c.subs| == 1
    requires Timely(Trace(c, es, true), 1, true)
    ensures Gets(Trace(c, es, true), 0) <= CAPACITY
    decreases |es|
  {
    ShortcutIsLone(c, es);
    LoneFacts(c);
    if es != [] {
      var c1 := Apply(c, es[0], true);
      StepInv(c, es[0], true);
      ShortcutIsLone(c1, es[1..]);
      LoneStep(c, es[0]);
      var t1 := Trace(c1, es[1..], true);
      GetsConcat(Shown(c, es[0]), t1, 0);
      if es[0].Run? {
        StartedTimely(t1);
      } else {
        TimelyTail(c, es[0], t1);
        GetsBeforeRun(c1, es[1..]);
      }
    }
  }

  lemma CoverSeen<V(!new)>(c: State<V>, a: State<V>, e: Event, t1: seq<Obs<V>>)
    requires Inv(c) && Lone(c) && Enabled(c, e) && Lone(Apply(c, e, true)) && Covered(Apply(c, e, true), t1)
    requires Timely(Shown(c, e) + t1, |c.subs|, c.cancelled)
    requires Apply(c, e, true).pos + Gets(t1, 0) <= |c.input|
    requires e.Cancel? && !c.running && |c.subs| == 1 ==> Gets(t1, 0) <= CAPACITY
    requires Shown(c, e) != [] && StandsIn(c, a, Gets(Shown(c, e) + t1, 0))
    ensures Shows(a, Shown(c, e) + t1)
  {
    var t := Shown(c, e) + t1;
    LoneStep(c, e);
    assert t[1..] == t1;
    match e
    case Subscribe => AfterSubscribe(c, a, t1);
    case Run => AfterRun(c, a, t1);
    case Cancel =>
      assert Gets(t1, 0) <= Allowance(t[0], |c.subs|, 0);
      AfterCancel(c, a, t1);
    case Receive(_) => AfterReceive(c, a, t1);
    case Drop(_) => AfterDrop(c, a, t1);
    case _ =>
  }

  /** One step backwards: what is seen of it is seen of whatever stands in for the state before it. */
  lemma CoverStep<V(!new)>(c: State<V>, a: State<V>, e: Event, t1: seq<Obs<V>>)
    requires Inv(c) && Lone(c) && Enabled(c, e) && Lone(Apply(c, e, true)) && Covered(Apply(c, e, true), t1)
    requires Timely(Shown(c, e) + t1, |c.subs|, c.cancelled)
    requires Apply(c, e, true).pos + Gets(t1, 0) <= |c.input|
    requires e.Cancel? && !c.running && |c.subs| == 1 ==> Gets(t1, 0) <= CAPACITY
    requires StandsIn(c, a, Gets(Shown(c, e) + t1, 0))
    ensures Shows(a, Shown(c, e) + t1)
  {
    if Shown(c, e) == [] {
      QuietStep(c, e);
      assert Shown(c, e) + t1 == t1;
      StandsInStill(c, Apply(c, e, true), a, Gets(t1, 0));
    } else {
      CoverSeen(c, a, e, t1);
    }
  }

  lemma StandsInStill<V>(c: State<V>, d: State<V>, a: State<V>, m: nat)
    requires SameFace(c, d) && |c.subs| <= 1 && StandsIn(c, a, m)
    ensures StandsIn(d, a, m)
  {
  }

  lemma {:induction false} ShortcutCovered<V(!new)>(c: State<V>, es: seq<Event>)
    requires Inv(c) && Legal(c, es, true) && !Exec(c, es, true).owned
    requires Timely(Trace(c, es, true), |c.subs|, c.cancelled)
    ensures Lone(c) && Covered(c, Trace(c, es, true))
    decreases |es|
  {
    ShortcutIsLone(c, es);
    if es == [] {
      forall a | StandsIn(c, a, 0) ensures Shows<V>(a, []) { assert Legal(a, [], false) && Trace<V>(a, [], false) == []; }
    } else {
      var e, rest := es[0], es[1..];
      var c1 := Apply(c, e, true);
      var t1 := Trace(c1, rest, true);
      StepInv(c, e, true);
      ShortcutIsLone(c1, rest);
      LoneStep(c, e);
      TimelyTail(c, e, t1);
      ShortcutCovered(c1, rest);
      GetsLeft(c1, rest);
      if e.Cancel? && !c.running && |c.subs| == 1 { GetsBeforeRun(c1, rest); }
      forall a | StandsIn(c, a, Gets(Shown(c, e) + t1, 0)) ensures Shows(a, Shown(c, e) + t1) { CoverStep(c, a, e, t1); }
    }
  }

  /** What is seen of a run with the shortcut is seen of some run of the plain broadcast if and only if
      no more items come behind a cancellation than may be on their way. */
  lemma ShortcutTraces<V(!new)>(input: seq<V>, es: seq<Event>)
    requires Legal(Init(input), es, true)
    ensures Plain(input, Trace(Init(input), es, true)) <==> Timely(Trace(Init(input), es, true), 0, false)
  {
    var s, t := Init(input), Trace(Init(input), es, true);
    InitInv(input);
    if Plain(input, t) {
      var fs :| Legal(s, fs, false) && Trace(s, fs, false) == t;
      PlainTimely(s, fs);
    }
    if Timely(t, 0, false) {
      if Exec(s, es, true).owned {
        OwnedIsPlain(s, es);
      } else {
        ShortcutCovered(s, es);
        assert StandsIn(s, s, Gets(t, 0));
      }
    }
  }

  lemma {:induction false} UncancelledTimely<V>(t: seq<Obs<V>>, n: nat)
    requires Cancelled !in t
    ensures Timely(t, n, false)
  {
    if t != [] { UncancelledTimely(t[1..], if t[0].Subscribed? then n + 1 else n); }
  }

  lemma {:induction false} CancelSeen<V>(s: State<V>, es: seq<Event>, fast: bool)
    requires Legal(s, es, fast) && Cancel !in es
    ensures Cancelled !in Trace(s, es, fast)
    decreases |es|
  {
    if es != [] {
      assert es[0] in es;
      CancelSeen(Apply(s, es[0], fast), es[1..], fast);
    }
  }

  /** Uncancelled, the shortcut cannot be told from the plain broadcast. */
  lemma ShortcutRefinesBroadcast<V(!new)>(input: seq<V>, es: seq<Event>)
    requires Legal(Init(input), es, true) && Cancel !in es
    ensures Plain(input, Trace(Init(input), es, true))
  {
    CancelSeen(Init(input), es, true);
    UncancelledTimely(Trace(Init(input), es, true), 0);
    ShortcutTraces(input, es);
  }

  /** Cancelled, it can: a subscriber that is handed the raw stream reads on, even if it subscribes only
      after the cancellation, and no run of the plain broadcast looks like that. */
  lemma ShortcutOutlivesCancel<V(!new)>(x: V) returns (es: seq<Event>)
    ensures Legal(Init([x]), es, true) && Trace(Init([x]), es, true) == [Cancelled, Subscribed, Started, Got(0, x)]
    ensures !Plain([x], Trace(Init([x]), es, true))
  {
    var s0 := Init([x]);
    var s1 := s0.(cancelled := true);
    var s2 := DoSubscribe(s1);
    var s3 := s2.(stage := Closed, running := true);
    var s4 := DoGrant(s3, 0, true);
    var t4 := [Got(0, x)];
    es := [];
    LegalCons(s4, Receive(0), es, true);
    es := [Receive(0)] + es;
    assert Trace(s4, es, true) == t4;
    LegalCons(s3, Grant(0), es, true);
    es := [Grant(0)] + es;
    assert Trace(s3, es, true) == [] + t4;
    LegalCons(s2, Run, es, true);
    es := [Run] + es;
    assert Trace(s2, es, true) == [Started] + t4;
    LegalCons(s1, Subscribe, es, true);
    es := [Subscribe] + es;
    assert Trace(s1, es, true) == [Subscribed] + ([Started] + t4);
    LegalCons(s0, Cancel, es, true);
    es := [Cancel] + es;
    var t := Trace(s0, es, true);
    assert t == [Cancelled] + ([Subscribed] + ([Started] + t4));
    assert t[1..] == [Subscribed, Started, Got(0, x)];
    GetsConcat([Subscribed, Started], t4, 0);
    assert t[1..] == [Subscribed, Started] + t4;
    assert Gets(t4, 0) == 1;
    assert Gets(t[1..], 0) > Allowance(t[0], 0, 0);
    ShortcutTraces([x], es);
  }
}
