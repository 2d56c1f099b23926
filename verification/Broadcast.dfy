/** The broadcast protocol of a stream variable (`VarManager`).

    A manager owns the input stream of one variable and forwards every item to all subscribers.
    Its asynchronous code runs on a single-threaded executor, so what happens between two awaits is
    one indivisible step.  `Event` names those steps, `Enabled` and `Apply` say when each can happen
    and what it does, and a run is any sequence of enabled events in any interleaving.

    `fast` tells whether the single-subscriber shortcut is taken (it is, in the code); the protocol
    without it is the reference that the shortcut refines.
 */
module Broadcast {

  datatype Stage = Gathering | Open | Closed

  /** Where a subscription request stands: still polling a stage cell that read `Gathering`; created
      in the open stage and not yet answered; answered with a channel; answered with the raw input. */
  datatype Phase = Waiting | Granting | Channel | Direct

  /** One subscription.  `since` is the clock at the time of the request, `buffer` its bounded
      channel, `ended` whether it has seen the end of its stream. */
  datatype Sub<V> = Sub(phase: Phase, since: nat, buffer: seq<V>, received: seq<V>, alive: bool, ended: bool)
  {
    function Got(): seq<V> { received + buffer }
    predicate Pending() { phase.Waiting? || phase.Granting? }
  }

  /** The tick in progress, cut at its awaits. `dead` lists the indices of dropped receivers. */
  datatype Tick<V> = Idle | WaitPermit | Reading | Sending(item: V, next: nat, dead: seq<nat>)

  datatype State<V> = State(
    input: seq<V>,          // everything the input stream will ever yield
    pos: nat,               // how much of it has been taken
    owned: bool,            // whether the manager still holds the input stream
    stage: Stage,
    permits: nat,
    outstanding: nat,
    subscribers: seq<nat>,  // the subscriptions whose senders the manager holds, oldest first
    clock: nat,
    subs: seq<Sub<V>>,      // every subscription ever requested
    tick: Tick<V>,
    running: bool,
    finished: bool,         // the run loop has ended and dropped the manager
    cancelled: bool)

  datatype Event =
    | Subscribe | Grant(k: nat)
    | TickCall | TickAcquire | TickRead | TickSend | TickFinish | TickAbort
    | Run | Receive(k: nat) | Drop(k: nat) | Cancel

  const CAPACITY: nat := 1000

  function Init<V>(input: seq<V>): State<V> {
    State(input, 0, true, Gathering, 1, 0, [], 0, [], Idle, false, false, false)
  }

  function Min(a: nat, b: nat): nat { if a < b then a else b }

  // ---------------------------------------------------------------------------------------------
  // Steps
  // ---------------------------------------------------------------------------------------------

  /** The stage a subscription task acts on: the one it captured, unless it captured `Gathering`. */
  function SeenStage<V>(s: State<V>, k: nat): Stage
    requires k < |s.subs|
  {
    if s.subs[k].phase.Waiting? then s.stage else Open
  }

  predicate TakesShortcut<V>(s: State<V>, k: nat, fast: bool)
    requires k < |s.subs|
  {
    fast && SeenStage(s, k).Closed? && |s.subscribers| == 1
  }

  predicate SendersDropped<V>(s: State<V>) { s.finished && s.outstanding == 0 }

  /** No sender is left for subscription `k`, so its channel reports the end once it is empty. */
  predicate ChannelClosed<V>(s: State<V>, k: nat) { k !in s.subscribers || SendersDropped(s) }

  predicate Enabled<V>(s: State<V>, e: Event) {
    match e
    case Subscribe => s.tick.Idle? && !s.running
    case Grant(k) => k < |s.subs| && s.subs[k].Pending() && !SeenStage(s, k).Gathering?
    case TickCall => s.tick.Idle? && !s.finished
    case TickAcquire => s.tick.WaitPermit? && 0 < s.permits
    case TickRead => s.tick.Reading?
    case TickSend =>
      && s.tick.Sending? && s.tick.next < |s.subscribers| && s.subscribers[s.tick.next] < |s.subs|
      && var sub := s.subs[s.subscribers[s.tick.next]];
         !sub.alive || |sub.buffer| < CAPACITY
    case TickFinish => s.tick.Sending? && s.tick.next == |s.subscribers|
    case TickAbort => s.cancelled && !s.tick.Idle? && !(s.tick.Sending? && s.tick.next == |s.subscribers|)
    case Run => s.tick.Idle? && !s.running
    case Receive(k) =>
      && k < |s.subs| && s.subs[k].alive && !s.subs[k].ended
      && (s.subs[k].phase.Direct?
          || (s.subs[k].phase.Channel? && (s.subs[k].buffer != [] || ChannelClosed(s, k))))
    case Drop(k) => k < |s.subs| && s.subs[k].alive && !s.subs[k].Pending()
    case Cancel => true
  }

  /** A tick returns: its permit, if any, is given back, and a run loop told to stop ends. */
  function Return<V>(s: State<V>, held: bool, proceed: bool): State<V> {
    s.(tick := Idle,
       permits := if held then s.permits + 1 else s.permits,
       finished := s.finished || (s.running && !proceed))
  }

  function Holds<V>(t: Tick<V>): bool { t.Reading? || t.Sending? }

  /** `xs` without the elements at the positions in `dead`, removed from the last one down. */
  function RemoveAt(xs: seq<nat>, dead: seq<nat>): seq<nat>
    decreases |dead|
  {
    if dead == [] then xs
    else
      var i := dead[|dead| - 1];
      RemoveAt(if i < |xs| then xs[..i] + xs[i + 1..] else xs, dead[..|dead| - 1])
  }

  function Granted<V>(s: State<V>, k: nat, phase: Phase): State<V>
    requires k < |s.subs|
  {
    s.(subs := s.subs[k := s.subs[k].(phase := phase)],
       permits := if s.outstanding == 1 then s.permits + 1 else s.permits,
       outstanding := if s.outstanding == 0 then 0 else s.outstanding - 1)
  }

  function DoSubscribe<V>(s: State<V>): State<V> {
    s.(subscribers := s.subscribers + [|s.subs|],
       subs := s.subs + [Sub(if s.stage.Gathering? then Waiting else Granting, s.clock, [], [], true, false)],
       outstanding := s.outstanding + 1,
       permits := if s.permits == 0 then 0 else s.permits - 1)
  }

  function DoGrant<V>(s: State<V>, k: nat, fast: bool): State<V>
    requires k < |s.subs|
  {
    if TakesShortcut(s, k, fast) then
      Granted(s, k, Direct).(owned := false, subscribers := s.subscribers[..|s.subscribers| - 1])
    else
      Granted(s, k, Channel)
  }

  function DoTickCall<V>(s: State<V>): State<V> {
    if s.cancelled then Return(s, false, false)
    else s.(stage := if s.stage.Gathering? then Open else s.stage, tick := WaitPermit)
  }

  function DoTickAcquire<V>(s: State<V>): State<V>
    requires 0 < s.permits
  {
    if !s.owned || (s.stage.Closed? && s.subscribers == []) then Return(s, false, false)
    else s.(permits := s.permits - 1, tick := Reading)
  }

  function DoTickRead<V>(s: State<V>): State<V> {
    if s.pos < |s.input| then
      s.(clock := s.clock + 1, pos := s.pos + 1, tick := Sending(s.input[s.pos], 0, []))
    else
      Return(s.(clock := s.clock + 1, subscribers := []), true, false)
  }

  function DoTickSend<V>(s: State<V>): State<V>
    requires s.tick.Sending? && s.tick.next < |s.subscribers| && s.subscribers[s.tick.next] < |s.subs|
  {
    var k := s.subscribers[s.tick.next];
    if s.subs[k].alive then
      s.(subs := s.subs[k := s.subs[k].(buffer := s.subs[k].buffer + [s.tick.item])],
         tick := s.tick.(next := s.tick.next + 1))
    else
      s.(tick := s.tick.(next := s.tick.next + 1, dead := s.tick.dead + [s.tick.next]))
  }

  function DoTickFinish<V>(s: State<V>): State<V>
    requires s.tick.Sending?
  {
    Return(s.(subscribers := RemoveAt(s.subscribers, s.tick.dead)), true, true)
  }

  /** The next thing the reader of `k` gets: an item of its own raw stream, an item of its channel,
      or the end of either. */
  function DoReceive<V>(s: State<V>, k: nat): State<V>
    requires k < |s.subs|
  {
    var sub := s.subs[k];
    if sub.phase.Direct? && s.pos < |s.input| then
      s.(pos := s.pos + 1, subs := s.subs[k := sub.(received := sub.received + [s.input[s.pos]])])
    else if sub.phase.Channel? && sub.buffer != [] then
      s.(subs := s.subs[k := sub.(received := sub.received + [sub.buffer[0]], buffer := sub.buffer[1..])])
    else s.(subs := s.subs[k := sub.(ended := true)])
  }

  function Apply<V>(s: State<V>, e: Event, fast: bool): State<V>
    requires Enabled(s, e)
  {
    match e
    case Subscribe => DoSubscribe(s)
    case Grant(k) => DoGrant(s, k, fast)
    case TickCall => DoTickCall(s)
    case TickAcquire => DoTickAcquire(s)
    case TickRead => DoTickRead(s)
    case TickSend => DoTickSend(s)
    case TickFinish => DoTickFinish(s)
    case TickAbort => Return(s, Holds(s.tick), false)
    case Run => s.(stage := Closed, running := true)
    case Receive(k) => DoReceive(s, k)
    case Drop(k) => s.(subs := s.subs[k := s.subs[k].(alive := false)])
    case Cancel => s.(cancelled := true)
  }

  /** Every event of `es` is enabled in its turn, starting from `s`. */
  predicate Legal<V>(s: State<V>, es: seq<Event>, fast: bool)
    decreases |es|
  {
    es == [] || (Enabled(s, es[0]) && Legal(Apply(s, es[0], fast), es[1..], fast))
  }

  function Exec<V>(s: State<V>, es: seq<Event>, fast: bool): State<V>
    requires Legal(s, es, fast)
    decreases |es|
  {
    if es == [] then s else Exec(Apply(s, es[0], fast), es[1..], fast)
  }

  // ---------------------------------------------------------------------------------------------
  // The invariant
  // ---------------------------------------------------------------------------------------------

  ghost function PendingSubs<V>(s: State<V>): set<nat> {
    set k: nat | k < |s.subs| && s.subs[k].Pending()
  }

  ghost predicate IsIds(xs: seq<nat>, n: nat) { |xs| == n && forall j :: 0 <= j < n ==> xs[j] == j }

  ghost predicate Increasing(xs: seq<nat>) { forall i, j :: 0 <= i < j < |xs| ==> xs[i] < xs[j] }

  /** No item has left the input stream and no sender has been removed. */
  ghost predicate Untouched<V>(s: State<V>) {
    s.clock == 0 && s.pos == 0 && s.owned && IsIds(s.subscribers, |s.subs|) && !Holds(s.tick)
  }

  /** The permit accounting: one permit in all, taken away for as long as a request is outstanding. */
  ghost predicate PermitInv<V>(s: State<V>) {
    && s.outstanding == |PendingSubs(s)|
    && (0 < s.outstanding ==> s.permits == 0 && !Holds(s.tick))
    && (s.outstanding == 0 ==> s.permits + (if Holds(s.tick) then 1 else 0) == 1)
  }

  ghost predicate StageInv<V>(s: State<V>) {
    && (s.running <==> s.stage.Closed?)
    && (s.finished ==> s.running && s.tick.Idle?)
    && (s.stage.Gathering? ==> s.tick.Idle? && Untouched(s) && forall k :: 0 <= k < |s.subs| ==> s.subs[k].phase.Waiting?)
    && (forall k :: 0 <= k < |s.subs| && s.subs[k].phase.Waiting? ==> Untouched(s))
    && (s.finished && !s.cancelled ==> s.subscribers == [])
  }

  ghost predicate OwnerInv<V>(s: State<V>) {
    && s.pos <= |s.input|
    && (s.owned ==> s.pos == Min(s.clock, |s.input|))
    && (s.tick.Sending? ==> 0 < s.pos == s.clock && s.owned && s.tick.item == s.input[s.pos - 1])
    && (s.tick.Reading? ==> s.owned)
    && (!s.owned ==> s.running && s.subscribers == [] && |s.subs| == 1 && s.subs[0].phase.Direct? && s.clock == 0)
    && (forall k :: 0 <= k < |s.subs| && s.subs[k].phase.Direct? ==> !s.owned)
  }

  ghost predicate ListInv<V>(s: State<V>) {
    && Increasing(s.subscribers)
    && (forall j :: 0 <= j < |s.subscribers| ==> s.subscribers[j] < |s.subs|)
    && (s.tick.Sending? ==>
          && s.tick.next <= |s.subscribers|
          && Increasing(s.tick.dead)
          && (forall d :: 0 <= d < |s.tick.dead| ==>
                s.tick.dead[d] < s.tick.next && !s.subs[s.subscribers[s.tick.dead[d]]].alive))
  }

  /** First input position a subscription is entitled to, and how far its data reaches. */
  function Start<V>(s: State<V>, k: nat): nat
    requires k < |s.subs|
  {
    Min(s.subs[k].since, |s.input|)
  }

  function Reach<V>(s: State<V>, k: nat): nat
    requires k < |s.subs|
  {
    Start(s, k) + |s.subs[k].Got()|
  }

  /** What `k` received followed by its buffer is the input from its subscription on, without a gap. */
  ghost predicate PrefixInv<V>(s: State<V>, k: nat)
    requires k < |s.subs|
  {
    && s.subs[k].since <= s.clock
    && Reach(s, k) <= s.pos <= |s.input|
    && s.subs[k].Got() == s.input[Start(s, k)..Reach(s, k)]
    && (s.subs[k].phase.Direct? ==> s.subs[k].since == 0 && s.subs[k].buffer == [] && Reach(s, k) == s.pos)
    && (s.subs[k].Pending() ==> s.subs[k].alive && !s.subs[k].ended)
  }

  /** 1 while the tick in progress has taken an item it has not yet sent to list position `j`. */
  function Lag<V>(s: State<V>, j: nat): nat { if s.tick.Sending? && s.tick.next <= j then 1 else 0 }

  /** How current the `j`-th listed subscriber is: exactly, or within one item of an aborted tick. */
  ghost predicate CurrentInv<V>(s: State<V>, j: nat)
    requires j < |s.subscribers| && s.subscribers[j] < |s.subs|
  {
    var k := s.subscribers[j];
    && (s.tick.Sending? ==> s.subs[k].since < s.clock)
    && (s.subs[k].alive ==>
          if s.cancelled && s.tick.Idle? then s.pos <= Reach(s, k) + 1
          else Reach(s, k) + Lag(s, j) == s.pos)
  }

  /** A subscriber no longer listed and still alive has the whole rest of the input. */
  ghost predicate RetiredInv<V>(s: State<V>, k: nat)
    requires k < |s.subs|
  {
    && (s.subs[k].alive && k !in s.subscribers && !s.subs[k].phase.Direct? ==> Reach(s, k) == |s.input|)
    && (s.subs[k].ended ==> s.finished || k !in s.subscribers)
    && (s.subs[k].ended && s.subs[k].alive ==>
          s.subs[k].buffer == [] && (s.cancelled || Reach(s, k) == |s.input|))
  }

  ghost predicate DataInv<V>(s: State<V>) {
    && (forall k :: 0 <= k < |s.subs| ==> PrefixInv(s, k))
    && (forall j :: 0 <= j < |s.subscribers| && s.subscribers[j] < |s.subs| ==> CurrentInv(s, j))
    && (forall k :: 0 <= k < |s.subs| ==> RetiredInv(s, k))
  }

  ghost predicate ControlInv<V>(s: State<V>) { PermitInv(s) && StageInv(s) && OwnerInv(s) && ListInv(s) }

  ghost predicate Inv<V>(s: State<V>) { ControlInv(s) && DataInv(s) }

  // ---------------------------------------------------------------------------------------------
  // Every step keeps the invariant
  // ---------------------------------------------------------------------------------------------

  lemma InitInv<V>(input: seq<V>)
    ensures Inv(Init(input))
  {
    assert PendingSubs(Init(input)) == {};
  }

  lemma SubscribeInv<V>(s: State<V>)
    requires Inv(s) && Enabled(s, Subscribe)
    ensures Inv(DoSubscribe(s))
  {
    SubscribePermits(s);
    SubscribeData(s);
  }

  lemma SubscribePermits<V>(s: State<V>)
    requires PermitInv(s) && s.tick.Idle?
    ensures PermitInv(DoSubscribe(s))
  {
    assert PendingSubs(DoSubscribe(s)) == PendingSubs(s) + {|s.subs|};
  }

  lemma SubscribeData<V>(s: State<V>)
    requires DataInv(s) && OwnerInv(s) && s.tick.Idle? && s.owned
    ensures DataInv(DoSubscribe(s))
  {
    var t := DoSubscribe(s);
    forall k | 0 <= k < |t.subs| ensures PrefixInv(t, k) && RetiredInv(t, k) {
      if k < |s.subs| { assert PrefixInv(s, k) && RetiredInv(s, k) && t.subs[k] == s.subs[k]; }
      if k == |s.subs| { assert t.subscribers[|s.subscribers|] == k; }
    }
    forall j | 0 <= j < |t.subscribers| && t.subscribers[j] < |t.subs| ensures CurrentInv(t, j) {
      if j < |s.subscribers| && s.subscribers[j] < |s.subs| { assert CurrentInv(s, j); }
    }
  }

  lemma NonePending<V>(s: State<V>)
    requires PermitInv(s) && s.outstanding == 0
    ensures forall k :: 0 <= k < |s.subs| ==> !s.subs[k].Pending()
  {
    assert PendingSubs(s) == {};
    forall k | 0 <= k < |s.subs| ensures !s.subs[k].Pending() { assert k !in PendingSubs(s); }
  }

  lemma GrantPermits<V>(s: State<V>, k: nat, phase: Phase)
    requires PermitInv(s) && k < |s.subs| && s.subs[k].Pending() && (phase.Channel? || phase.Direct?)
    ensures PermitInv(Granted(s, k, phase)) && 0 < s.outstanding
  {
    var t := Granted(s, k, phase);
    assert k in PendingSubs(s);
    assert PendingSubs(t) == PendingSubs(s) - {k};
  }

  /** Taking the shortcut, the sender popped off the list is the subscriber's own. */
  lemma GrantDirectInv<V>(s: State<V>, k: nat)
    requires Inv(s) && Enabled(s, Grant(k)) && TakesShortcut(s, k, true)
    ensures Inv(Apply(s, Grant(k), true))
    ensures k == 0 && |s.subs| == 1 && s.subscribers == [0] && Untouched(s)
  {
    var t := Apply(s, Grant(k), true);
    assert s.subs[k].phase.Waiting? && Untouched(s);
    GrantPermits(s, k, Direct);
    assert PendingSubs(t) == PendingSubs(Granted(s, k, Direct));
    assert PrefixInv(s, k) && RetiredInv(s, k) && CurrentInv(s, 0);
  }

  lemma GrantChannelInv<V>(s: State<V>, k: nat)
    requires Inv(s) && k < |s.subs| && s.subs[k].Pending() && !s.stage.Gathering?
    ensures Inv(Granted(s, k, Channel))
  {
    GrantPermits(s, k, Channel);
    GrantData(s, k);
  }

  lemma GrantData<V>(s: State<V>, k: nat)
    requires DataInv(s) && k < |s.subs| && s.subs[k].Pending()
    ensures DataInv(Granted(s, k, Channel))
  {
    var t := Granted(s, k, Channel);
    forall i | 0 <= i < |t.subs| ensures PrefixInv(t, i) && RetiredInv(t, i) {
      assert PrefixInv(s, i) && RetiredInv(s, i);
    }
    forall j | 0 <= j < |t.subscribers| && t.subscribers[j] < |t.subs| ensures CurrentInv(t, j) { assert CurrentInv(s, j); }
  }

  /** Steps that leave every subscription, the list, the clock and the position alone keep the data. */
  lemma FrameInv<V>(s: State<V>, t: State<V>)
    requires Inv(s) && PermitInv(t) && StageInv(t) && OwnerInv(t)
    requires t.subs == s.subs && t.subscribers == s.subscribers && t.clock == s.clock && t.pos == s.pos && t.input == s.input
    requires !t.tick.Sending? || t.tick == s.tick
    requires (s.cancelled ==> t.cancelled) && (s.finished ==> t.finished)
    requires !(t.cancelled && t.tick.Idle?) ==> !(s.cancelled && s.tick.Idle?) && (t.tick.Sending? <==> s.tick.Sending?)
    ensures Inv(t)
  {
    forall k | 0 <= k < |t.subs| ensures PrefixInv(t, k) && RetiredInv(t, k) {
      assert PrefixInv(s, k) && RetiredInv(s, k);
    }
    forall j | 0 <= j < |t.subscribers| ensures CurrentInv(t, j) {
      assert CurrentInv(s, j) && PrefixInv(s, s.subscribers[j]);
    }
  }

  lemma SwitchInv<V>(s: State<V>, e: Event, fast: bool)
    requires Inv(s) && Enabled(s, e)
    requires e.TickCall? || e.TickAcquire? || e.TickAbort? || e.Run? || e.Cancel?
    ensures Inv(Apply(s, e, fast))
  {
    var t := Apply(s, e, fast);
    assert PendingSubs(t) == PendingSubs(s);
    if e.TickAcquire? { NonePending(s); }
    FrameInv(s, t);
  }

  lemma TickReadInv<V>(s: State<V>)
    requires Inv(s) && s.tick.Reading?
    ensures Inv(DoTickRead(s))
  {
    var t := DoTickRead(s);
    assert PendingSubs(t) == PendingSubs(s);
    TickReadData(s);
  }

  lemma TickReadData<V>(s: State<V>)
    requires DataInv(s) && OwnerInv(s) && ListInv(s) && s.tick.Reading?
    ensures DataInv(DoTickRead(s))
  {
    var t := DoTickRead(s);
    forall k | 0 <= k < |t.subs| ensures PrefixInv(t, k) && RetiredInv(t, k) {
      assert PrefixInv(s, k) && RetiredInv(s, k);
      if k in s.subscribers {
        var j :| 0 <= j < |s.subscribers| && s.subscribers[j] == k;
        assert CurrentInv(s, j);
      }
    }
    forall j | 0 <= j < |t.subscribers| ensures CurrentInv(t, j) {
      assert CurrentInv(s, j) && PrefixInv(s, s.subscribers[j]);
    }
  }

  lemma TickSendInv<V>(s: State<V>)
    requires Inv(s) && Enabled(s, TickSend)
    ensures Inv(DoTickSend(s))
  {
    var t := DoTickSend(s);
    NonePending(s);
    assert PendingSubs(t) == PendingSubs(s);
    if s.subs[s.subscribers[s.tick.next]].alive {
      TickSendAlive(s);
    } else {
      TickSendDead(s);
    }
  }

  lemma TickSendDead<V>(s: State<V>)
    requires DataInv(s) && ListInv(s) && s.tick.Sending? && s.tick.next < |s.subscribers|
    requires !s.subs[s.subscribers[s.tick.next]].alive
    ensures DataInv(DoTickSend(s))
  {
    var t := DoTickSend(s);
    forall i | 0 <= i < |t.subs| ensures PrefixInv(t, i) && RetiredInv(t, i) {
      assert PrefixInv(s, i) && RetiredInv(s, i);
    }
    forall j | 0 <= j < |t.subscribers| ensures CurrentInv(t, j) { assert CurrentInv(s, j); }
  }

  lemma TickSendAlive<V>(s: State<V>)
    requires DataInv(s) && OwnerInv(s) && ListInv(s) && s.tick.Sending? && s.tick.next < |s.subscribers| && !s.finished
    requires s.subs[s.subscribers[s.tick.next]].alive && !s.subs[s.subscribers[s.tick.next]].phase.Direct?
    ensures DataInv(DoTickSend(s))
  {
    var t := DoTickSend(s);
    var n := s.tick.next;
    var k := s.subscribers[n];
    assert CurrentInv(s, n) && PrefixInv(s, k);
    assert t.subs[k].Got() == s.subs[k].Got() + [s.tick.item];
    assert PrefixInv(t, k);
    forall i | 0 <= i < |t.subs| ensures PrefixInv(t, i) && RetiredInv(t, i) {
      assert PrefixInv(s, i) && RetiredInv(s, i);
    }
    forall j | 0 <= j < |t.subscribers| ensures CurrentInv(t, j) { assert CurrentInv(s, j); }
  }

  ghost predicate Kept(xs: seq<nat>, dead: seq<nat>, x: nat) {
    exists j :: 0 <= j < |xs| && xs[j] == x && j !in dead
  }

  /** Removing positions from the last one down keeps exactly the others, in order. */
  lemma {:induction false} RemoveAtKeeps(xs: seq<nat>, dead: seq<nat>)
    requires Increasing(xs) && Increasing(dead)
    requires forall d :: 0 <= d < |dead| ==> dead[d] < |xs|
    ensures Increasing(RemoveAt(xs, dead))
    ensures forall x :: x in RemoveAt(xs, dead) <==> Kept(xs, dead, x)
    decreases |dead|
  {
    if dead != [] {
      var i := dead[|dead| - 1];
      var ys, rest := xs[..i] + xs[i + 1..], dead[..|dead| - 1];
      RemoveAtKeeps(ys, rest);
      forall x ensures Kept(ys, rest, x) <==> Kept(xs, dead, x) { KeptAfterLast(xs, dead, x); }
    } else {
      forall x | x in xs ensures Kept(xs, dead, x) {
        var j :| 0 <= j < |xs| && xs[j] == x;
        assert j !in dead;
      }
    }
  }

  lemma KeptAfterLast(xs: seq<nat>, dead: seq<nat>, x: nat)
    requires dead != [] && Increasing(dead) && dead[|dead| - 1] < |xs|
    ensures var i := dead[|dead| - 1]; Kept(xs[..i] + xs[i + 1..], dead[..|dead| - 1], x) <==> Kept(xs, dead, x)
  {
    var i := dead[|dead| - 1];
    var ys, rest := xs[..i] + xs[i + 1..], dead[..|dead| - 1];
    if Kept(ys, rest, x) {
      var j :| 0 <= j < |ys| && ys[j] == x && j !in rest;
      var j' := if j < i then j else j + 1;
      assert xs[j'] == x && j' !in dead;
    }
    if Kept(xs, dead, x) {
      var j :| 0 <= j < |xs| && xs[j] == x && j !in dead;
      var j' := if j < i then j else j - 1;
      assert ys[j'] == x && j' !in rest;
    }
  }

  lemma TickFinishInv<V>(s: State<V>)
    requires Inv(s) && Enabled(s, TickFinish)
    ensures Inv(DoTickFinish(s))
  {
    var t := DoTickFinish(s);
    RemoveAtKeeps(s.subscribers, s.tick.dead);
    NonePending(s);
    assert PendingSubs(t) == PendingSubs(s);
    forall j | 0 <= j < |t.subscribers| ensures t.subscribers[j] < |t.subs| {
      assert t.subscribers[j] in t.subscribers;
      assert Kept(s.subscribers, s.tick.dead, t.subscribers[j]);
    }
    TickFinishData(s);
  }

  lemma TickFinishData<V>(s: State<V>)
    requires DataInv(s) && ListInv(s) && Enabled(s, TickFinish)
    ensures DataInv(DoTickFinish(s))
  {
    var t := DoTickFinish(s);
    RemoveAtKeeps(s.subscribers, s.tick.dead);
    forall j | 0 <= j < |t.subscribers| && t.subscribers[j] < |t.subs| ensures CurrentInv(t, j) {
      assert t.subscribers[j] in t.subscribers;
      assert Kept(s.subscribers, s.tick.dead, t.subscribers[j]);
      var i :| 0 <= i < |s.subscribers| && s.subscribers[i] == t.subscribers[j] && i !in s.tick.dead;
      assert CurrentInv(s, i) && PrefixInv(s, s.subscribers[i]);
    }
    forall k | 0 <= k < |t.subs| ensures PrefixInv(t, k) && RetiredInv(t, k) {
      assert PrefixInv(s, k) && RetiredInv(s, k);
      if k in s.subscribers && k !in t.subscribers {
        var j :| 0 <= j < |s.subscribers| && s.subscribers[j] == k;
        assert !Kept(s.subscribers, s.tick.dead, k);
        assert j in s.tick.dead;
      }
    }
  }

  /** A subscription may move data from its channel to its reader, take an item of its own raw
      stream, notice the end or be dropped: none of this disturbs the others. */
  lemma ReceiveInv<V>(s: State<V>, k: nat)
    requires Inv(s) && Enabled(s, Receive(k))
    ensures Inv(DoReceive(s, k))
  {
    var sub := s.subs[k];
    if sub.phase.Direct? && s.pos < |s.input| {
      DirectReceiveInv(s);
    } else if sub.phase.Channel? && sub.buffer != [] {
      MoveKeepsGot(sub);
      QuietInv(s, k, sub.(received := sub.received + [sub.buffer[0]], buffer := sub.buffer[1..]));
    } else {
      assert PrefixInv(s, k);
      EndIsJustified(s, k);
      QuietInv(s, k, sub.(ended := true));
    }
  }

  lemma MoveKeepsGot<V>(sub: Sub<V>)
    requires sub.buffer != []
    ensures sub.(received := sub.received + [sub.buffer[0]], buffer := sub.buffer[1..]).Got() == sub.Got()
  {
  }

  /** A subscription that sees the end has everything, unless the protocol was cancelled. */
  lemma EndIsJustified<V>(s: State<V>, k: nat)
    requires Inv(s) && Enabled(s, Receive(k))
    requires s.subs[k].buffer == [] && (s.subs[k].phase.Direct? ==> s.pos == |s.input|)
    ensures RetiredInv(s.(subs := s.subs[k := s.subs[k].(ended := true)]), k)
  {
    assert PrefixInv(s, k) && RetiredInv(s, k);
    var t := s.(subs := s.subs[k := s.subs[k].(ended := true)]);
    assert t.subs[k].Got() == s.subs[k].Got();
    assert Reach(t, k) == Reach(s, k);
  }

  /** Changing one subscription without losing data of it, all else being equal, is safe. */
  lemma QuietInv<V>(s: State<V>, k: nat, sub: Sub<V>)
    requires Inv(s) && k < |s.subs| && !s.subs[k].Pending()
    requires sub.Got() == s.subs[k].Got() && sub.phase == s.subs[k].phase && sub.since == s.subs[k].since
    requires (sub.alive ==> s.subs[k].alive) && |sub.buffer| <= |s.subs[k].buffer|
    requires sub.ended ==> s.subs[k].ended || RetiredInv(s.(subs := s.subs[k := sub]), k)
    ensures Inv(s.(subs := s.subs[k := sub]))
  {
    var t := s.(subs := s.subs[k := sub]);
    assert PendingSubs(t) == PendingSubs(s);
    QuietData(s, k, sub);
  }

  lemma QuietData<V>(s: State<V>, k: nat, sub: Sub<V>)
    requires DataInv(s) && k < |s.subs| && !s.subs[k].Pending()
    requires sub.Got() == s.subs[k].Got() && sub.phase == s.subs[k].phase && sub.since == s.subs[k].since
    requires (sub.alive ==> s.subs[k].alive) && |sub.buffer| <= |s.subs[k].buffer|
    requires sub.ended ==> s.subs[k].ended || RetiredInv(s.(subs := s.subs[k := sub]), k)
    ensures DataInv(s.(subs := s.subs[k := sub]))
  {
    var t := s.(subs := s.subs[k := sub]);
    forall i | 0 <= i < |t.subs| ensures PrefixInv(t, i) && RetiredInv(t, i) {
      assert PrefixInv(s, i) && RetiredInv(s, i);
    }
    forall j | 0 <= j < |t.subscribers| && t.subscribers[j] < |t.subs| ensures CurrentInv(t, j) { assert CurrentInv(s, j); }
  }

  lemma DirectReceiveInv<V>(s: State<V>)
    requires Inv(s) && Enabled(s, Receive(0)) && s.subs[0].phase.Direct? && s.pos < |s.input|
    ensures Inv(DoReceive(s, 0))
  {
    var t := DoReceive(s, 0);
    assert PendingSubs(t) == PendingSubs(s);
    assert PrefixInv(s, 0) && RetiredInv(s, 0);
    assert s.subs[0].Got() == s.subs[0].received;
    assert t.subs[0].Got() == s.subs[0].Got() + [s.input[s.pos]];
    assert PrefixInv(t, 0) && RetiredInv(t, 0);
  }

  // ---------------------------------------------------------------------------------------------
  // Runs
  // ---------------------------------------------------------------------------------------------

  lemma LegalCons<V>(s: State<V>, e: Event, es: seq<Event>, fast: bool)
    requires Enabled(s, e) && Legal(Apply(s, e, fast), es, fast)
    ensures Legal(s, [e] + es, fast) && Exec(s, [e] + es, fast) == Exec(Apply(s, e, fast), es, fast)
  {
    assert ([e] + es)[1..] == es;
  }

  lemma {:induction false} LegalConcat<V>(s: State<V>, es: seq<Event>, fs: seq<Event>, fast: bool)
    requires Legal(s, es, fast) && Legal(Exec(s, es, fast), fs, fast)
    ensures Legal(s, es + fs, fast) && Exec(s, es + fs, fast) == Exec(Exec(s, es, fast), fs, fast)
    decreases |es|
  {
    if es == [] {
      assert es + fs == fs;
    } else {
      LegalConcat(Apply(s, es[0], fast), es[1..], fs, fast);
      assert es + fs == [es[0]] + (es[1..] + fs);
      LegalCons(s, es[0], es[1..] + fs, fast);
    }
  }
}
