/** The variable manager as an object that updates its fields, against the protocol of `Broadcast`.

    Each method does what the code does when it is not interrupted at an await, and is proved to be
    a legal sequence of the protocol's steps; `Broadcast` covers every other interleaving.
 */
module VarManagers {
  import opened Broadcast
  import opened BroadcastRuns

  lemma LegalSnoc<V>(s: State<V>, es: seq<Event>, e: Event)
    requires Legal(s, es, true) && Enabled(Exec(s, es, true), e)
    ensures Legal(s, es + [e], true) && Exec(s, es + [e], true) == Apply(Exec(s, es, true), e, true)
  {
    LegalCons(Exec(s, es, true), e, [], true);
    LegalConcat(s, es, [e], true);
  }

  /** Every live listed subscriber can take `n` more items without filling its channel. */
  predicate Room<V>(s: State<V>, n: nat) {
    forall j :: 0 <= j < |s.subscribers| && s.subscribers[j] < |s.subs| && s.subs[s.subscribers[j]].alive ==>
      |s.subs[s.subscribers[j]].buffer| + n <= CAPACITY
  }

  // ---------------------------------------------------------------------------------------------
  // What one uninterrupted tick does
  // ---------------------------------------------------------------------------------------------

  /** `subs` after `data` has been sent to the first `n` of `list`, skipping dropped receivers. */
  function Sent<V>(subs: seq<Sub<V>>, list: seq<nat>, n: nat, data: V): (r: seq<Sub<V>>)
    requires n <= |list| && forall j :: 0 <= j < |list| ==> list[j] < |subs|
    ensures Undisturbed(subs, r)
  {
    if n == 0 then subs
    else
      var r, k := Sent(subs, list, n - 1, data), list[n - 1];
      if r[k].alive then r[k := r[k].(buffer := r[k].buffer + [data])] else r
  }

  /** The positions among the first `n` of `list` whose receivers have been dropped. */
  function DeadAmong<V>(subs: seq<Sub<V>>, list: seq<nat>, n: nat): (r: seq<nat>)
    requires n <= |list| && forall j :: 0 <= j < |list| ==> list[j] < |subs|
    ensures Increasing(r) && forall d :: 0 <= d < |r| ==> r[d] < n
  {
    if n == 0 then [] else DeadAmong(subs, list, n - 1) + (if subs[list[n - 1]].alive then [] else [n - 1])
  }

  ghost predicate Listed<V>(s: State<V>) {
    s.pos <= |s.input| && Increasing(s.subscribers) && forall j :: 0 <= j < |s.subscribers| ==> s.subscribers[j] < |s.subs|
  }

  /** An uninterrupted tick can complete: its permit is free and no live channel is full. */
  ghost predicate Unblocked<V>(s: State<V>) {
    s.tick.Idle? && !s.finished && (s.cancelled || (0 < s.permits && (s.pos < |s.input| ==> Room(s, 1))))
  }

  predicate Proceeds<V>(s: State<V>) {
    !s.cancelled && s.owned && !(s.stage.Closed? && s.subscribers == []) && s.pos < |s.input|
  }

  /** From the read on, up to and including the return of the permit. */
  ghost function AfterRead<V>(s: State<V>): State<V>
    requires Listed(s)
  {
    var n := |s.subscribers|;
    if s.pos == |s.input| then
      s.(clock := s.clock + 1, subscribers := [], tick := Idle, permits := s.permits + 1, finished := s.finished || s.running)
    else
      s.(clock := s.clock + 1, pos := s.pos + 1, subs := Sent(s.subs, s.subscribers, n, s.input[s.pos]),
         subscribers := RemoveAt(s.subscribers, DeadAmong(s.subs, s.subscribers, n)), tick := Idle, permits := s.permits + 1)
  }

  ghost function WholeTick<V>(s: State<V>): State<V>
    requires Listed(s)
  {
    if s.cancelled then s.(finished := s.finished || s.running)
    else if !s.owned || (s.stage.Closed? && s.subscribers == []) then
      s.(stage := if s.stage.Gathering? then Open else s.stage, finished := s.finished || s.running)
    else
      AfterRead(s.(stage := if s.stage.Gathering? then Open else s.stage)).(permits := s.permits)
  }

  lemma {:induction false} NotYetSent<V>(subs: seq<Sub<V>>, list: seq<nat>, n: nat, data: V, j: nat)
    requires n <= j < |list| && Increasing(list) && forall j :: 0 <= j < |list| ==> list[j] < |subs|
    ensures Sent(subs, list, n, data)[list[j]] == subs[list[j]]
  {
    if n != 0 { NotYetSent(subs, list, n - 1, data, j); }
  }

  lemma {:induction false} SendsAreLegal<V>(g: State<V>, n: nat) returns (es: seq<Event>)
    requires g.tick.Sending? && g.tick.next == 0 && g.tick.dead == [] && Listed(g) && Room(g, 1) && n <= |g.subscribers|
    ensures Legal(g, es, true) && Exec(g, es, true) == AfterSends(g, n)
  {
    if n == 0 {
      es := [];
    } else {
      var fs := SendsAreLegal(g, n - 1);
      var h := AfterSends(g, n - 1);
      SendStep(g, n - 1);
      LegalSnoc(g, fs, TickSend);
      es := fs + [TickSend];
    }
  }

  ghost function AfterSends<V>(g: State<V>, n: nat): State<V>
    requires g.tick.Sending? && Listed(g) && n <= |g.subscribers|
  {
    g.(subs := Sent(g.subs, g.subscribers, n, g.tick.item), tick := Sending(g.tick.item, n, DeadAmong(g.subs, g.subscribers, n)))
  }

  lemma SendStep<V>(g: State<V>, n: nat)
    requires g.tick.Sending? && Listed(g) && Room(g, 1) && n < |g.subscribers|
    ensures Enabled(AfterSends(g, n), TickSend) && DoTickSend(AfterSends(g, n)) == AfterSends(g, n + 1)
  {
    NotYetSent(g.subs, g.subscribers, n, g.tick.item, n);
    var dead := DeadAmong(g.subs, g.subscribers, n);
    assert dead + [] == dead;
  }

  lemma ReadIsLegal<V>(s: State<V>) returns (es: seq<Event>)
    requires Listed(s) && s.tick.Reading? && !s.finished && (s.pos < |s.input| ==> Room(s, 1))
    ensures Legal(s, es, true) && Exec(s, es, true) == AfterRead(s)
  {
    var s1 := DoTickRead(s);
    if s.pos < |s.input| {
      es := DistributeIsLegal(s1);
    } else {
      es := [];
    }
    LegalCons(s, TickRead, es, true);
    es := [TickRead] + es;
  }

  lemma DistributeIsLegal<V>(g: State<V>) returns (es: seq<Event>)
    requires g.tick.Sending? && g.tick.next == 0 && g.tick.dead == [] && Listed(g) && Room(g, 1)
    ensures Legal(g, es, true) && Exec(g, es, true) == DoTickFinish(AfterSends(g, |g.subscribers|))
  {
    es := SendsAreLegal(g, |g.subscribers|);
    LegalSnoc(g, es, TickFinish);
    es := es + [TickFinish];
  }

  /** The whole tick is one legal sequence of the protocol's steps. */
  lemma WholeTickIsLegal<V>(s: State<V>) returns (es: seq<Event>)
    requires Listed(s) && Unblocked(s)
    ensures Legal(s, es, true) && Exec(s, es, true) == WholeTick(s)
  {
    if s.cancelled {
      LegalCons(s, TickCall, [], true);
      es := [TickCall];
      assert Exec(s, es, true) == Apply(s, TickCall, true);
    } else {
      var s1 := Apply(s, TickCall, true);
      var tail := AcquireIsLegal(s1);
      LegalCons(s, TickCall, tail, true);
      es := [TickCall] + tail;
    }
  }

  lemma AcquireIsLegal<V>(s: State<V>) returns (es: seq<Event>)
    requires Listed(s) && s.tick.WaitPermit? && 0 < s.permits && !s.finished && (s.pos < |s.input| ==> Room(s, 1))
    ensures Legal(s, es, true)
    ensures Exec(s, es, true) ==
            if !s.owned || (s.stage.Closed? && s.subscribers == []) then s.(tick := Idle, finished := s.running)
            else AfterRead(s).(permits := s.permits)
  {
    if !s.owned || (s.stage.Closed? && s.subscribers == []) {
      LegalCons(s, TickAcquire, [], true);
      es := [TickAcquire];
    } else {
      es := AcquireAndRead(s);
    }
  }

  lemma AcquireAndRead<V>(s: State<V>) returns (es: seq<Event>)
    requires Listed(s) && s.tick.WaitPermit? && 0 < s.permits && !s.finished && (s.pos < |s.input| ==> Room(s, 1))
    requires s.owned && !(s.stage.Closed? && s.subscribers == [])
    ensures Legal(s, es, true) && Exec(s, es, true) == AfterRead(s).(permits := s.permits)
  {
    var s1 := s.(permits := s.permits - 1, tick := Reading);
    assert Apply(s, TickAcquire, true) == s1;
    var tail := ReadIsLegal(s1);
    LegalCons(s, TickAcquire, tail, true);
    es := [TickAcquire] + tail;
  }

  lemma WholeTickInv<V>(s: State<V>)
    requires Inv(s) && Unblocked(s)
    ensures Inv(WholeTick(s))
  {
    var es := WholeTickIsLegal(s);
    RunInv(s, es, true);
  }

  /** The same subscriptions, possibly with more in their buffers. */
  ghost predicate Undisturbed<V>(before: seq<Sub<V>>, after: seq<Sub<V>>) {
    && |after| == |before|
    && forall k :: 0 <= k < |before| ==>
         after[k].received == before[k].received && after[k].alive == before[k].alive && after[k].since == before[k].since
  }

  /** A completed tick uses up at most one place in every channel. */
  lemma RoomShrinks<V>(s: State<V>, t: State<V>, n: nat)
    requires Inv(s) && Inv(t) && s.tick.Idle? && t.tick.Idle? && !s.cancelled && !t.cancelled
    requires t.input == s.input && t.pos == s.pos + 1 && Undisturbed(s.subs, t.subs)
    requires forall k :: k in t.subscribers ==> k in s.subscribers
    requires Room(s, n + 1)
    ensures Room(t, n)
  {
    forall j | 0 <= j < |t.subscribers| && t.subscribers[j] < |t.subs| && t.subs[t.subscribers[j]].alive
      ensures |t.subs[t.subscribers[j]].buffer| + n <= CAPACITY
    {
      var k := t.subscribers[j];
      assert k in t.subscribers;
      var i :| 0 <= i < |s.subscribers| && s.subscribers[i] == k;
      assert CurrentInv(s, i) && CurrentInv(t, j);
    }
  }

  lemma RoomForTick<V>(s: State<V>)
    requires Inv(s) && s.tick.Idle? && s.running && !s.finished && s.outstanding == 0 && !s.cancelled && Room(s, |s.input| - s.pos)
    ensures Unblocked(s)
    ensures Proceeds(s) ==> Room(WholeTick(s), |s.input| - WholeTick(s).pos)
    ensures var t := WholeTick(s);
            && t.stage == s.stage && t.outstanding == 0 && !t.cancelled && |t.subs| == |s.subs|
            && t.finished == !Proceeds(s) && t.pos == s.pos + (if Proceeds(s) then 1 else 0) <= |s.input|
  {
    NonePending(s);
    if Proceeds(s) {
      WholeTickInv(s);
      RemoveAtKeeps(s.subscribers, DeadAmong(s.subs, s.subscribers, |s.subscribers|));
      RoomShrinks(s, WholeTick(s), |s.input| - s.pos - 1);
    }
  }

  /** Once the run loop has ended uncancelled, every live subscriber has been handed everything. */
  lemma AllDelivered<V>(s: State<V>)
    requires Inv(s) && s.finished && !s.cancelled
    ensures forall k :: 0 <= k < |s.subs| && s.subs[k].alive && s.subs[k].phase.Channel? ==>
              s.subs[k].received + s.subs[k].buffer == s.input[Min(s.subs[k].since, |s.input|)..]
  {
    forall k | 0 <= k < |s.subs| && s.subs[k].alive && s.subs[k].phase.Channel?
      ensures s.subs[k].received + s.subs[k].buffer == s.input[Min(s.subs[k].since, |s.input|)..]
    {
      assert PrefixInv(s, k) && RetiredInv(s, k);
      assert k !in s.subscribers;
    }
  }

  class VarManager<V> {
    const input: seq<V>
    var pos: nat
    var owned: bool
    var stage: Stage
    var permits: nat
    var outstanding: nat
    var subscribers: seq<nat>
    var clock: nat
    var subs: seq<Sub<V>>
    var finished: bool
    var cancelled: bool

    function View(): State<V>
      reads this
    {
      State(input, pos, owned, stage, permits, outstanding, subscribers, clock, subs, Idle, stage.Closed?, finished, cancelled)
    }

    constructor (input: seq<V>)
      ensures View() == Init(input) && Inv(View())
    {
      this.input := input;
      pos, owned, stage, permits, outstanding := 0, true, Gathering, 1, 0;
      subscribers, clock, subs, finished, cancelled := [], 0, [], false, false;
      new;
      InitInv(input);
    }

    method Subscribe() returns (k: nat)
      requires Inv(View()) && !stage.Closed?
      modifies this
      ensures Enabled(old(View()), Event.Subscribe) && View() == Apply(old(View()), Event.Subscribe, true)
      ensures Inv(View()) && k == |old(subs)| && subs[..k] == old(subs)
    {
      SubscribeInv(View());
      k := |subs|;
      subscribers := subscribers + [k];
      outstanding := outstanding + 1;
      permits := if permits == 0 then 0 else permits - 1;
      subs := subs + [Sub(if stage.Gathering? then Waiting else Granting, clock, [], [], true, false)];
    }

    /** The background task of subscription `k`, once the stage lets it answer. */
    method AnswerSubscription(k: nat)
      requires Inv(View()) && Enabled(View(), Grant(k))
      modifies this
      ensures View() == Apply(old(View()), Grant(k), true) && Inv(View())
    {
      StepInv(View(), Grant(k), true);
      GrantPermits(View(), k, Channel);
      Answer(k);
    }

    method Answer(k: nat)
      requires k < |subs| && 0 < outstanding
      modifies this`owned, this`subs, this`subscribers, this`permits, this`outstanding
      ensures View() == DoGrant(old(View()), k, true)
    {
      var seen := if subs[k].phase.Waiting? then stage else Open;
      if seen.Closed? && |subscribers| == 1 {
        owned := false;
        subs := subs[k := subs[k].(phase := Direct)];
        subscribers := subscribers[..|subscribers| - 1];
      } else {
        subs := subs[k := subs[k].(phase := Channel)];
      }
      if outstanding == 1 {
        permits := permits + 1;
      }
      outstanding := outstanding - 1;
    }

    /** One tick that finds its permit free and its channels not full. */
    method Tick() returns (proceed: bool)
      requires Inv(View()) && Unblocked(View())
      modifies this
      ensures View() == WholeTick(old(View())) && Inv(View())
      ensures proceed == Proceeds(old(View()))
    {
      WholeTickInv(View());
      proceed := TickSteps();
    }

    method TickSteps() returns (proceed: bool)
      requires Listed(View()) && Unblocked(View())
      modifies this
      ensures View() == WholeTick(old(View())) && proceed == Proceeds(old(View()))
    {
      if cancelled {
        finished := finished || stage.Closed?;
        return false;
      }
      if stage.Gathering? {
        stage := Open;
      }
      permits := permits - 1;
      if !owned || (stage.Closed? && subscribers == []) {
        permits := permits + 1;
        finished := finished || stage.Closed?;
        return false;
      }
      proceed := ReadAndDistribute();
    }

    /** The tick once it holds its permit, up to giving it back. */
    method ReadAndDistribute() returns (proceed: bool)
      requires Listed(View())
      modifies this
      ensures View() == AfterRead(old(View())) && proceed == (old(pos) < |input|)
    {
      proceed := Forward();
      permits := permits + 1;
      if !proceed {
        finished := finished || stage.Closed?;
      }
    }

    /** Reads an item and distributes it, or notices the end and lets go of all senders. */
    method Forward() returns (proceed: bool)
      requires pos <= |input| && forall j :: 0 <= j < |subscribers| ==> subscribers[j] < |subs|
      requires Increasing(subscribers)
      modifies this`pos, this`clock, this`subs, this`subscribers
      ensures clock == old(clock) + 1 && proceed == (old(pos) < |input|)
      ensures proceed ==> pos == old(pos) + 1
      ensures proceed ==> subs == Sent(old(subs), old(subscribers), |old(subscribers)|, input[old(pos)])
      ensures proceed ==> subscribers == RemoveAt(old(subscribers), DeadAmong(old(subs), old(subscribers), |old(subscribers)|))
      ensures !proceed ==> pos == old(pos) && subs == old(subs) && subscribers == []
    {
      clock := clock + 1;
      if pos == |input| {
        subscribers := [];
        return false;
      }
      pos := pos + 1;
      Distribute(input[pos - 1]);
      return true;
    }

    /** Sends one item to every subscriber and drops those that have gone away. */
    method Distribute(data: V)
      requires Increasing(subscribers) && forall j :: 0 <= j < |subscribers| ==> subscribers[j] < |subs|
      modifies this`subs, this`subscribers
      ensures subs == Sent(old(subs), old(subscribers), |old(subscribers)|, data)
      ensures subscribers == RemoveAt(old(subscribers), DeadAmong(old(subs), old(subscribers), |old(subscribers)|))
    {
      var dead: seq<nat> := [];
      for i := 0 to |subscribers|
        invariant subscribers == old(subscribers) && |subs| == |old(subs)|
        invariant subs == Sent(old(subs), subscribers, i, data) && dead == DeadAmong(old(subs), subscribers, i)
      {
        var k := subscribers[i];
        if subs[k].alive {
          subs := subs[k := subs[k].(buffer := subs[k].buffer + [data])];
        } else {
          dead := dead + [i];
        }
      }
      RemoveDead(dead);
    }

    /** Removes the positions in `dead` from the list of subscribers, last one first. */
    method RemoveDead(dead: seq<nat>)
      requires Increasing(dead) && forall d :: 0 <= d < |dead| ==> dead[d] < |subscribers|
      modifies this`subscribers
      ensures subscribers == RemoveAt(old(subscribers), dead)
    {
      var d := |dead|;
      assert dead[..d] == dead;
      while 0 < d
        invariant 0 <= d <= |dead|
        invariant forall i :: 0 <= i < d ==> dead[i] < |subscribers|
        invariant RemoveAt(subscribers, dead[..d]) == RemoveAt(old(subscribers), dead)
      {
        d := d - 1;
        assert dead[..d + 1][..d] == dead[..d];
        subscribers := subscribers[..dead[d]] + subscribers[dead[d] + 1..];
      }
    }

    /** The run loop, once every request has been answered and as long as the channels have room for
        the rest of the input: it ends with the whole rest of the input handed to every live
        subscriber. */
    method RunLoop()
      requires Inv(View()) && stage.Closed? && !finished && outstanding == 0 && !cancelled
      requires Room(View(), |input| - pos)
      modifies this
      ensures Inv(View()) && finished && |subs| == |old(subs)|
      ensures forall k :: 0 <= k < |subs| && subs[k].alive && subs[k].phase.Channel? ==>
                subs[k].received + subs[k].buffer == input[Min(subs[k].since, |input|)..]
    {
      var proceed := true;
      while proceed
        invariant Inv(View()) && stage.Closed? && outstanding == 0 && !cancelled && |subs| == |old(subs)|
        invariant finished == !proceed && pos <= |input|
        invariant proceed ==> Room(View(), |input| - pos)
        decreases proceed, |input| - pos
      {
        RoomForTick(View());
        proceed := Tick();
      }
      AllDelivered(View());
    }
  }
}
