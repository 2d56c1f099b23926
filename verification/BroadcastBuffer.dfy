/** How many unread items a subscriber may have before the broadcast waits for it. */
module BroadcastBuffers {
  import opened Broadcast
  import opened BroadcastRuns
  import opened BroadcastTraces
  import opened BroadcastShortcuts

  ghost predicate Reaches<V>(s: State<V>, t: State<V>) { exists es :: Legal(s, es, true) && Exec(s, es, true) == t }

  lemma ReachSelf<V>(s: State<V>)
    ensures Reaches(s, s)
  {
    assert Legal(s, [], true) && Exec(s, [], true) == s;
  }

  lemma ReachStep<V>(s: State<V>, e: Event, t: State<V>)
    requires Enabled(s, e) && Reaches(Apply(s, e, true), t)
    ensures Reaches(s, t)
  {
    var es :| Legal(Apply(s, e, true), es, true) && Exec(Apply(s, e, true), es, true) == t;
    LegalCons(s, e, es, true);
  }

  /** From the call of a tick until it has its item. */
  lemma ReachLoaded<V>(a: State<V>, t: State<V>)
    requires Serving(a) && a.pos < |a.input| && Reaches(Loaded(a), t)
    ensures Reaches(a, t)
  {
    ReachWaiting(a, t);
    ReachStep(a, TickCall, t);
  }

  lemma ReachWaiting<V>(a: State<V>, t: State<V>)
    requires Serving(a) && a.pos < |a.input| && Reaches(Loaded(a), t)
    ensures Reaches(a.(tick := WaitPermit), t)
  {
    var a1 := a.(tick := WaitPermit);
    var a2 := Apply(a1, TickAcquire, true);
    assert Apply(a2, TickRead, true) == Loaded(a);
    ReachStep(a2, TickRead, t);
    ReachStep(a1, TickAcquire, t);
  }

  /** The rest of the tick. */
  lemma ReachSent<V>(a: State<V>, t: State<V>)
    requires Serving(a) && a.pos < |a.input| && |a.subs[0].buffer| < 1000 && Reaches(Filled(a, 1), t)
    ensures Reaches(Loaded(a), t)
  {
    var b := Loaded(a);
    var b1 := Apply(b, TickSend, true);
    assert a.input[a.pos..a.pos + 1] == [a.input[a.pos]];
    assert b1.subs == Filled(a, 1).subs;
    assert Apply(b1, TickFinish, true) == Filled(a, 1);
    ReachStep(b1, TickFinish, t);
    ReachStep(b, TickSend, t);
  }

  lemma {:induction false} ReachFilled<V>(a: State<V>, m: nat, t: State<V>)
    requires Serving(a) && |a.subs[0].buffer| + m <= 1000 && a.pos + m <= |a.input| && Reaches(Filled(a, m), t)
    ensures Reaches(a, t)
    decreases m
  {
    if m == 0 {
      assert a.subs[0].buffer + a.input[a.pos..a.pos] == a.subs[0].buffer && [a.subs[0]] == a.subs;
      assert Filled(a, m) == a;
    } else {
      FilledAdds(a, m);
      ReachFilled(Filled(a, 1), m - 1, t);
      ReachSent(a, t);
      ReachLoaded(a, t);
    }
  }

  /** One subscription, answered with a channel after the first tick was called, and then cut short. */
  function Answered<V>(input: seq<V>): State<V> {
    Init(input).(stage := Open, subscribers := [0], subs := [Sub(Channel, 0, [], [], true, false)])
  }

  lemma ReachAnswered<V>(input: seq<V>, t: State<V>)
    requires input != [] && Reaches(Loaded(Answered(input)), t)
    ensures Reaches(Init(input), t)
  {
    var s0 := Init(input);
    var s1 := Apply(s0, Subscribe, true);
    var s2 := Apply(s1, TickCall, true);
    var s3 := Apply(s2, Grant(0), true);
    assert s3 == Answered(input).(tick := WaitPermit);
    ReachWaiting(Answered(input), t);
    ReachStep(s2, Grant(0), t);
    ReachStep(s1, TickCall, t);
    ReachStep(s0, Subscribe, t);
  }

  /** The only subscriber has the first thousand items unread, the tick holds the next one and cannot
      send it.  It can once an item is read, or pass over the subscriber once that is dropped; and once
      the broadcast is cancelled, the tick can be given up, its permit given back and its item lost. */
  ghost predicate HeldUp<V>(s: State<V>, input: seq<V>)
    requires |input| > 1000
  {
    && |s.subs| == 1 && s.subs[0].received == [] && s.subs[0].buffer == input[..1000]
    && s.tick == Sending(input[1000], 0, []) && !Enabled(s, TickSend)
    && Enabled(s, Receive(0)) && Enabled(Apply(s, Receive(0), true), TickSend)
    && Enabled(s, Drop(0)) && Enabled(Apply(s, Drop(0), true), TickSend)
    && Enabled(s, Cancel) && Enabled(Apply(s, Cancel, true), TickAbort)
    && var t := Apply(Apply(s, Cancel, true), TickAbort, true);
       t.tick.Idle? && t.permits == 1 && t.pos == 1001 && t.subs == s.subs
  }

  /** A subscriber that does not read can be given a thousand items; for the next one the tick waits. */
  lemma ThousandUnread<V>(input: seq<V>)
    requires |input| > 1000
    ensures exists es :: Legal(Init(input), es, true) && HeldUp(Exec(Init(input), es, true), input)
  {
    var a := Answered(input);
    var t := Filled(a, 1000);
    assert t.subs[0].buffer == input[..1000];
    ReachSelf(Loaded(t));
    ReachLoaded(t, Loaded(t));
    assert Filled(Filled(a, 1), 999) == t by { FilledAdds(a, 1000); }
    ReachFilled(Filled(a, 1), 999, Loaded(t));
    ReachSent(a, Loaded(t));
    ReachAnswered(input, Loaded(t));
    assert HeldUp(Loaded(t), input);
  }

  lemma {:induction false} RunBuffers<V>(s: State<V>, es: seq<Event>, fast: bool)
    requires Buffers(s) && Legal(s, es, fast)
    ensures Buffers(Exec(s, es, fast))
    decreases |es|
  {
    if es != [] {
      StepBuffers(s, es[0], fast);
      RunBuffers(Apply(s, es[0], fast), es[1..], fast);
    }
  }

  /** More than that, no subscriber ever has; and one that has less is not waited for. */
  lemma NeverMoreUnread<V>(input: seq<V>, es: seq<Event>, fast: bool, k: nat)
    requires Legal(Init(input), es, fast) && k < |Exec(Init(input), es, fast).subs|
    ensures var t := Exec(Init(input), es, fast);
            && |t.subs[k].buffer| <= 1000
            && (t.tick.Sending? && t.tick.next < |t.subscribers| && t.subscribers[t.tick.next] == k && |t.subs[k].buffer| < 1000 ==>
                Enabled(t, TickSend))
  {
    RunBuffers(Init(input), es, fast);
  }
}
