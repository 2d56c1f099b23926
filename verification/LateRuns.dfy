/** Exactly when forgetting can be seen in the runs of `x = if c then x else a[-1]`. */
module LateRuns {
  import opened Lang
  import opened Solver
  import opened ConstraintRuntimes
  import opened GarbageCollection
  import opened ConstraintDenotations
  import opened RuntimeLedger
  import opened SendCounters
  import opened LateItems

  // ---------------------------------------------------------------------------------------------
  // What is resolved
  // ---------------------------------------------------------------------------------------------

  /** `c` falls behind time `t`, at which the items looked back at something. */
  predicate LostAt(ins: seq<seq<(Name, Value)>>, t: nat) {
    1 <= t && t + 1 < |ins| && C(ins, t) && !C(ins, t + 1) && A(ins, t - 1) != Unknown
  }

  /** `x` waits if and only if `c` was true in the last step. */
  predicate Waits(ins: seq<seq<(Name, Value)>>, n: nat, p: nat) { 0 < p <==> 0 < n && C(ins, n - 1) }

  function LogOf(s: State, ins: seq<seq<(Name, Value)>>, forget: bool): Option<seq<Entry>>
    requires s.exprs == Circular()
  {
    match Ledger(s, ["x"], ins, Longest(), forget) case None => None case Some((log, _)) => Some(log)
  }

  lemma LogStep(s: State, ins: seq<seq<(Name, Value)>>, n: nat, forget: bool)
    requires s.exprs == Circular() && n < |ins| && Step(s, ["x"], ins[n]).Some?
    requires Onward(Step(s, ["x"], ins[n]).value.1, Longest(), forget).exprs == Circular()
    ensures var (log, s1) := Step(s, ["x"], ins[n]).value;
            var rest := LogOf(Onward(s1, Longest(), forget), ins[n + 1..], forget);
            LogOf(s, ins[n..], forget) == if rest.None? then None else Some(log + rest.value)
  {
    assert ins[n..][0] == ins[n] && ins[n..][1..] == ins[n + 1..];
  }

  /** From states with the same items on, both runs resolve the same if and only if nothing is lost. */
  lemma {:induction false} LogsDiffer(a: State, b: State, ins: seq<seq<(Name, Value)>>, n: nat, p: nat)
    requires Reached(a, ins, n, p, false) && Reached(b, ins, n, p, true) && Fed(ins) && Waits(ins, n, p)
    ensures LogOf(a, ins[n..], false).Some? && LogOf(b, ins[n..], true).Some?
    ensures LogOf(a, ins[n..], false) == LogOf(b, ins[n..], true) <==> !exists t: nat :: n <= t + 1 && LostAt(ins, t)
    decreases |ins| - n
  {
    if n == |ins| {
      assert ins[n..] == [];
    } else {
      var p' := if C(ins, n) then p + 1 else 0;
      if C(ins, n) {
        WaitStep(a, ins, n, p, false);
        WaitStep(b, ins, n, p, true);
      } else {
        WakeStep(a, ins, n, p, false);
        WakeStep(b, ins, n, p, true);
      }
      var a1, b1 := Step(a, ["x"], ins[n]).value.1, Step(b, ["x"], ins[n]).value.1;
      var a2, b2 := Onward(a1, Longest(), false), Onward(b1, Longest(), true);
      LogsDiffer(a2, b2, ins, n + 1, p');
      LogStep(a, ins, n, false);
      LogStep(b, ins, n, true);
      LogsJoin(ins, n, p, LogOf(a2, ins[n + 1..], false).value, LogOf(b2, ins[n + 1..], true).value);
    }
  }

  function StepLog(ins: seq<seq<(Name, Value)>>, n: nat, p: nat, forget: bool): seq<Entry>
    requires p <= n
  {
    if C(ins, n) then [] else Woken(n, p, Missed(ins, n, forget), Current(ins, n))
  }

  lemma LogsJoin(ins: seq<seq<(Name, Value)>>, n: nat, p: nat, some: seq<Entry>, all: seq<Entry>)
    requires p <= n < |ins| && Waits(ins, n, p)
    requires some == all <==> !exists t: nat :: n + 1 <= t + 1 && LostAt(ins, t)
    ensures StepLog(ins, n, p, false) + some == StepLog(ins, n, p, true) + all <==> !exists t: nat :: n <= t + 1 && LostAt(ins, t)
  {
    var (l, k) := (StepLog(ins, n, p, false), StepLog(ins, n, p, true));
    assert |l| == |k|;
    assert l + some == k + all <==> l == k && some == all by {
      assert (l + some)[..|l|] == l && (k + all)[..|k|] == k && (l + some)[|l|..] == some && (k + all)[|k|..] == all;
    }
    if 1 <= n && LostAt(ins, n - 1) {
      assert l[0].value != k[0].value;
    } else {
      assert l == k;
      assert forall t: nat :: n <= t + 1 && LostAt(ins, t) ==> n + 1 <= t + 1;
    }
  }

  /** If inputs are given at all times, the run that forgets resolves the same as the run that does not if
      and only if `c` never falls one step behind a value of `a`. */
  lemma ResolvingDiffers(ins: seq<seq<(Name, Value)>>)
    requires Fed(ins)
    ensures LogOf(Start(Circular()), ins, false) == LogOf(Start(Circular()), ins, true) <==> !exists t: nat :: LostAt(ins, t)
  {
    StartReached(ins, false);
    StartReached(ins, true);
    assert ins[0..] == ins;
    LogsDiffer(Start(Circular()), Start(Circular()), ins, 0, 0);
  }

  // ---------------------------------------------------------------------------------------------
  // What is sent
  // ---------------------------------------------------------------------------------------------

  /** The rows that are sent from `s` on, if `q` is the next time to be sent. */
  function SendsOf(s: State, ins: seq<seq<(Name, Value)>>, forget: bool, q: nat): Option<seq<seq<Option<Value>>>>
    requires s.exprs == Circular()
  {
    match Counting(s, ["x"], ins, Longest(), forget, [q]) case None => None case Some((sent, _)) => Some(sent)
  }

  function Before(row: seq<Option<Value>>, rest: Option<seq<seq<Option<Value>>>>): Option<seq<seq<Option<Value>>>> {
    if rest.None? then None else Some([row] + rest.value)
  }

  lemma SendStep(s: State, ins: seq<seq<(Name, Value)>>, n: nat, forget: bool, q: nat)
    requires s.exprs == Circular() && n < |ins| && Step(s, ["x"], ins[n]).Some?
    requires Onward(Step(s, ["x"], ins[n]).value.1, Longest(), forget).exprs == Circular()
    ensures var s1 := Step(s, ["x"], ins[n]).value.1;
            var v := Lookup(s1.store.resolved, "x", q);
            SendsOf(s, ins[n..], forget, q) ==
            Before([v], SendsOf(Onward(s1, Longest(), forget), ins[n + 1..], forget, if v.Some? then q + 1 else q))
  {
    assert ins[n..][0] == ins[n] && ins[n..][1..] == ins[n + 1..];
    CountingUnfold(s, ["x"], ins[n..], Longest(), forget, [q]);
    var s1 := Step(s, ["x"], ins[n]).value.1;
    var v := Lookup(s1.store.resolved, "x", q);
    assert EmitNext(s1, ["x"], [q]) == [v];
    assert Advance([q], [v]) == [if v.Some? then q + 1 else q];
  }

  /** A step that sends `v` and goes on with `s2`. */
  lemma SendNext(s: State, s1: State, s2: State, log: seq<Entry>, ins: seq<seq<(Name, Value)>>, n: nat, forget: bool, q: nat, v: Option<Value>)
    requires s.exprs == s2.exprs == Circular() && n < |ins| && Step(s, ["x"], ins[n]) == Some((log, s1))
    requires s2 == Onward(s1, Longest(), forget) && Lookup(s1.store.resolved, "x", q) == v
    ensures SendsOf(s, ins[n..], forget, q) == Before([v], SendsOf(s2, ins[n + 1..], forget, if v.Some? then q + 1 else q))
  {
    SendStep(s, ins, n, forget, q);
  }

  /** While `x` waits, nothing is sent. */
  lemma WaitRow(s: State, ins: seq<seq<(Name, Value)>>, n: nat, p: nat, forget: bool) returns (s2: State)
    requires Reached(s, ins, n, p, forget) && Fed(ins) && C(ins, n)
    ensures Reached(s2, ins, n + 1, p + 1, forget)
    ensures SendsOf(s, ins[n..], forget, n - p) == Before([None], SendsOf(s2, ins[n + 1..], forget, n - p))
  {
    WaitStep(s, ins, n, p, forget);
    var s1 := Step(s, ["x"], ins[n]).value.1;
    s2 := Onward(s1, Longest(), forget);
    SendNext(s, s1, s2, [], ins, n, forget, n - p, None);
  }

  lemma WokenNow(m: map<Name, Stream>, n: nat, p: nat, u: Value, w: Value)
    requires p <= n && Lookup(m, "x", n - p) == None
    ensures Lookup(PushAll(m, Woken(n, p, u, w)), "x", n - p) == Some(if p == 0 then w else u)
  {
    LookupLog(m, Woken(n, p, u, w), "x", n - p);
    WokenFirst(n, p, u, w, "x", n - p);
  }

  /** When it is resolved at last, the value of the first time it waited for is sent. */
  lemma WakeRow(s: State, ins: seq<seq<(Name, Value)>>, n: nat, p: nat, forget: bool) returns (s2: State)
    requires Reached(s, ins, n, p, forget) && Fed(ins) && n < |ins| && !C(ins, n)
    ensures Reached(s2, ins, n + 1, 0, forget)
    ensures SendsOf(s, ins[n..], forget, n - p) ==
            Before([Some(if p == 0 then Current(ins, n) else Missed(ins, n, forget))], SendsOf(s2, ins[n + 1..], forget, n - p + 1))
  {
    WakeStep(s, ins, n, p, forget);
    WokenNow(s.store.resolved, n, p, Missed(ins, n, forget), Current(ins, n));
    var s1 := Step(s, ["x"], ins[n]).value.1;
    s2 := Onward(s1, Longest(), forget);
    SendNext(s, s1, s2, Woken(n, p, Missed(ins, n, forget), Current(ins, n)), ins, n, forget, n - p,
             Some(if p == 0 then Current(ins, n) else Missed(ins, n, forget)));
  }

  lemma {:induction false} AlwaysSends(s: State, ins: seq<seq<(Name, Value)>>, n: nat, p: nat, forget: bool, q: nat)
    requires Reached(s, ins, n, p, forget) && Fed(ins)
    ensures SendsOf(s, ins[n..], forget, q).Some?
    decreases |ins| - n
  {
    if n < |ins| {
      if C(ins, n) { WaitStep(s, ins, n, p, forget); } else { WakeStep(s, ins, n, p, forget); }
      var s1 := Step(s, ["x"], ins[n]).value.1;
      SendStep(s, ins, n, forget, q);
      AlwaysSends(Onward(s1, Longest(), forget), ins, n + 1, if C(ins, n) then p + 1 else 0, forget,
                  if Lookup(s1.store.resolved, "x", q).Some? then q + 1 else q);
    }
  }

  /** With a value still to be sent of an earlier time, the next row is empty if it has been forgotten, and
      has that value if it has not. */
  lemma BehindRow(s: State, ins: seq<seq<(Name, Value)>>, n: nat, forget: bool, q: nat)
    requires Reached(s, ins, n, 0, forget) && Fed(ins) && q < n < |ins|
    ensures var r := SendsOf(s, ins[n..], forget, q); r.Some? && r.value != [] && |r.value[0]| == 1 && (r.value[0][0].Some? <==> !forget)
  {
    var log: seq<Entry> := StepLog(ins, n, 0, forget);
    if C(ins, n) {
      WaitStep(s, ins, n, 0, forget);
    } else {
      WakeStep(s, ins, n, 0, forget);
      WokenFirst(n, 0, Missed(ins, n, forget), Current(ins, n), "x", q);
    }
    LookupLog(s.store.resolved, log, "x", q);
    AlwaysSends(s, ins, n, 0, forget, q);
    SendStep(s, ins, n, forget, q);
  }

  /** `c` falls behind time `t`, with another step to come, or with something that the items looked back at. */
  predicate SendLostAt(ins: seq<seq<(Name, Value)>>, t: nat) {
    t + 1 < |ins| && C(ins, t) && !C(ins, t + 1) && (t + 2 < |ins| || LostAt(ins, t))
  }

  /** The falls from the last step on. */
  ghost predicate Falls(ins: seq<seq<(Name, Value)>>, n: nat) { exists t: nat :: n <= t + 1 && SendLostAt(ins, t) }

  lemma NoFallYet(ins: seq<seq<(Name, Value)>>, n: nat)
    requires 1 <= n ==> !SendLostAt(ins, n - 1)
    ensures Falls(ins, n) <==> Falls(ins, n + 1)
  {
    if Falls(ins, n) {
      var t: nat :| n <= t + 1 && SendLostAt(ins, t);
      assert n + 1 <= t + 1;
    }
    if Falls(ins, n + 1) {
      var t: nat :| n + 1 <= t + 1 && SendLostAt(ins, t);
      assert n <= t + 1;
    }
  }

  /** What is sent from time `n` on, up to the first fall and one row further. */
  ghost predicate Meets(r: seq<seq<Option<Value>>>, ins: seq<seq<(Name, Value)>>, n: nat, p: nat, forget: bool)
    decreases |r|
  {
    if |ins| <= n then r == []
    else
      && r != []
      && (if C(ins, n) then r[0] == [None] && Meets(r[1..], ins, n + 1, p + 1, forget)
          else if p == 0 then r[0] == [Some(Current(ins, n))] && Meets(r[1..], ins, n + 1, 0, forget)
          else r[0] == [Some(Missed(ins, n, forget))] && Further(r[1..], |ins| - n - 1, forget))
  }

  /** After a fall, the next row is empty if the monitor forgets. */
  predicate Further(r: seq<seq<Option<Value>>>, left: nat, forget: bool) {
    if left == 0 then r == [] else r != [] && |r[0]| == 1 && (r[0][0].Some? <==> !forget)
  }

  lemma SendsNothing(s: State, ins: seq<seq<(Name, Value)>>, forget: bool, q: nat)
    requires s.exprs == Circular()
    ensures SendsOf(s, ins[|ins|..], forget, q) == Some([])
  {
    assert ins[|ins|..] == [];
  }

  lemma FallenMeets(s: State, ins: seq<seq<(Name, Value)>>, n: nat, p: nat, forget: bool) returns (r: seq<seq<Option<Value>>>)
    requires Reached(s, ins, n, p, forget) && Fed(ins) && 0 < p && n < |ins| && !C(ins, n)
    ensures SendsOf(s, ins[n..], forget, n - p) == Some(r) && Meets(r, ins, n, p, forget)
  {
    var s2 := WakeRow(s, ins, n, p, forget);
    var rest: seq<seq<Option<Value>>>;
    if n + 1 == |ins| {
      SendsNothing(s2, ins, forget, n - p + 1);
      rest := [];
    } else {
      BehindRow(s2, ins, n + 1, forget, n - p + 1);
      rest := SendsOf(s2, ins[n + 1..], forget, n - p + 1).value;
    }
    r := [[Some(Missed(ins, n, forget))]] + rest;
    assert r[1..] == rest;
  }

  lemma MeetsMore(rest: seq<seq<Option<Value>>>, ins: seq<seq<(Name, Value)>>, n: nat, p: nat, forget: bool)
    requires C(ins, n) && Meets(rest, ins, n + 1, p + 1, forget)
    ensures Meets([[None]] + rest, ins, n, p, forget)
  {
    assert ([[None]] + rest)[1..] == rest;
  }

  lemma {:induction false} WaitMeets(s: State, ins: seq<seq<(Name, Value)>>, n: nat, p: nat, forget: bool) returns (r: seq<seq<Option<Value>>>)
    requires Reached(s, ins, n, p, forget) && Fed(ins) && C(ins, n)
    ensures SendsOf(s, ins[n..], forget, n - p) == Some(r) && Meets(r, ins, n, p, forget)
    decreases |ins| - n, 0
  {
    var s2 := WaitRow(s, ins, n, p, forget);
    var rest := SendsMeet(s2, ins, n + 1, p + 1, forget);
    r := Before([None], Some(rest)).value;
    MeetsMore(rest, ins, n, p, forget);
  }

  lemma MeetsNow(rest: seq<seq<Option<Value>>>, ins: seq<seq<(Name, Value)>>, n: nat, forget: bool)
    requires n < |ins| && !C(ins, n) && Meets(rest, ins, n + 1, 0, forget)
    ensures Meets([[Some(Current(ins, n))]] + rest, ins, n, 0, forget)
  {
    assert ([[Some(Current(ins, n))]] + rest)[1..] == rest;
  }

  /** If nothing has waited, the value of the present is sent. */
  lemma PresentRow(s: State, ins: seq<seq<(Name, Value)>>, n: nat, forget: bool) returns (s2: State)
    requires Reached(s, ins, n, 0, forget) && Fed(ins) && n < |ins| && !C(ins, n)
    ensures Reached(s2, ins, n + 1, 0, forget)
    ensures SendsOf(s, ins[n..], forget, n) == Before([Some(Current(ins, n))], SendsOf(s2, ins[n + 1..], forget, n + 1))
  {
    s2 := WakeRow(s, ins, n, 0, forget);
  }

  lemma {:induction false} WakeMeets(s: State, ins: seq<seq<(Name, Value)>>, n: nat, forget: bool) returns (r: seq<seq<Option<Value>>>)
    requires Reached(s, ins, n, 0, forget) && Fed(ins) && n < |ins| && !C(ins, n)
    ensures SendsOf(s, ins[n..], forget, n) == Some(r) && Meets(r, ins, n, 0, forget)
    decreases |ins| - n, 0
  {
    var s2 := PresentRow(s, ins, n, forget);
    r := SendsMeet(s2, ins, n + 1, 0, forget);
    MeetsNow(r, ins, n, forget);
    r := [[Some(Current(ins, n))]] + r;
  }

  /** Each of the runs sends this. */
  lemma {:induction false} SendsMeet(s: State, ins: seq<seq<(Name, Value)>>, n: nat, p: nat, forget: bool) returns (r: seq<seq<Option<Value>>>)
    requires Reached(s, ins, n, p, forget) && Fed(ins)
    ensures SendsOf(s, ins[n..], forget, n - p) == Some(r) && Meets(r, ins, n, p, forget)
    decreases |ins| - n, 1
  {
    if n == |ins| {
      SendsNothing(s, ins, forget, n - p);
      r := [];
    } else if C(ins, n) {
      r := WaitMeets(s, ins, n, p, forget);
    } else if p == 0 {
      r := WakeMeets(s, ins, n, forget);
    } else {
      r := FallenMeets(s, ins, n, p, forget);
    }
  }

  lemma LastFall(ins: seq<seq<(Name, Value)>>, n: nat)
    requires 1 <= n && n + 1 == |ins| && C(ins, n - 1) && !C(ins, n)
    ensures Falls(ins, n) <==> Missed(ins, n, false) != Missed(ins, n, true)
  {
    if Falls(ins, n) {
      var t: nat :| n <= t + 1 && SendLostAt(ins, t);
      assert t == n - 1;
    }
    if LostAt(ins, n - 1) { assert SendLostAt(ins, n - 1); }
  }

  lemma SameTail<T>(a: seq<T>, b: seq<T>)
    requires a != [] && b != []
    ensures a == b <==> a[0] == b[0] && a[1..] == b[1..]
  {
    assert a == [a[0]] + a[1..] && b == [b[0]] + b[1..];
  }

  /** What meets both is the same if and only if there is no fall. */
  lemma {:induction false} MeetDiffer(all: seq<seq<Option<Value>>>, some: seq<seq<Option<Value>>>, ins: seq<seq<(Name, Value)>>, n: nat, p: nat)
    requires Meets(all, ins, n, p, false) && Meets(some, ins, n, p, true) && n <= |ins| && Waits(ins, n, p)
    ensures all == some <==> !Falls(ins, n)
    decreases |ins| - n
  {
    if n < |ins| {
      SameTail(all, some);
      if C(ins, n) {
        MeetDiffer(all[1..], some[1..], ins, n + 1, p + 1);
        NoFallYet(ins, n);
      } else if p == 0 {
        MeetDiffer(all[1..], some[1..], ins, n + 1, 0);
        NoFallYet(ins, n);
      } else if n + 1 == |ins| {
        LastFall(ins, n);
      } else {
        assert SendLostAt(ins, n - 1) && all[1..][0] != some[1..][0];
      }
    }
  }

  lemma RunMeets(ins: seq<seq<(Name, Value)>>, forget: bool) returns (r: seq<seq<Option<Value>>>)
    requires Fed(ins)
    ensures SendsOf(Start(Circular()), ins, forget, 0) == Some(r) && Meets(r, ins, 0, 0, forget)
  {
    StartReached(ins, forget);
    r := SendsMeet(Start(Circular()), ins, 0, 0, forget);
    assert ins[0..] == ins;
  }

  /** If inputs are given at all times, the monitor that forgets sends the same as the one that does not if
      and only if `c` never falls with a step to come or one step behind a value of `a`. */
  lemma ForgettingIsSeenExactly(ins: seq<seq<(Name, Value)>>)
    requires Fed(ins)
    ensures SendsOf(Start(Circular()), ins, false, 0) == SendsOf(Start(Circular()), ins, true, 0) <==> !exists t: nat :: SendLostAt(ins, t)
  {
    var all := RunMeets(ins, false);
    var some := RunMeets(ins, true);
    MeetDiffer(all, some, ins, 0, 0);
    assert Falls(ins, 0) <==> exists t: nat :: SendLostAt(ins, t);
  }

  // ---------------------------------------------------------------------------------------------
  // One run
  // ---------------------------------------------------------------------------------------------

  function Given(c: bool, n: nat): seq<(Name, Value)> { [("c", Bool(c)), ("a", Int(n))] }

  lemma GivenValues(c: bool, n: nat)
    ensures Provided(Given(c, n), "c") == Some(Bool(c)) && Provided(Given(c, n), "a") == Some(Int(n)) && Provided(Given(c, n), "x") == None
  {
    NamesDiffer();
    assert Given(c, n)[1..] == [("a", Int(n))] && [("a", Int(n))][1..] == [];
    assert Provided([("a", Int(n))], "a") == Some(Int(n)) && Provided([("a", Int(n))], "c") == None && Provided([("a", Int(n))], "x") == None;
  }

  function Row(forget: bool): seq<Option<Value>> { [Some(if forget then Unknown else Int(10))] }

  function Example(): seq<seq<(Name, Value)>> { [Given(true, 10), Given(true, 11), Given(false, 12)] }

  lemma ExampleFed()
    ensures Fed(Example()) && C(Example(), 0) && C(Example(), 1) && !C(Example(), 2) && A(Example(), 0) == Int(10)
  {
    GivenValues(true, 10);
    GivenValues(true, 11);
    GivenValues(false, 12);
  }

  /** Kept for as long as the equation looks back, `a` is 10, 11, 12 and `c` true, true, false.  The first
      value of `x` is sent after the third step: it is 10, the first value of `a`, if nothing is forgotten,
      and unknown if what is not retained is. */
  lemma ForgettingIsSeen(forget: bool)
    ensures Retaining(Circular(), ["x"], Longest())
    ensures SendsOf(Start(Circular()), [Given(true, 10), Given(true, 11), Given(false, 12)], forget, 0) == Some([[None], [None], Row(forget)])
  {
    CircularRetained();
    ExampleFed();
    var r := RunMeets(Example(), forget);
    ExampleMeets(r, forget);
  }

  lemma ExampleMeets(r: seq<seq<Option<Value>>>, forget: bool)
    requires Meets(r, Example(), 0, 0, forget)
    ensures r == [[None], [None], Row(forget)]
  {
    ExampleFed();
    assert Meets(r[1..], Example(), 1, 1, forget);
    assert Meets(r[1..][1..], Example(), 2, 2, forget);
    var last := r[1..][1..];
    assert last[0] == Row(forget) && last[1..] == [];
    assert last == [last[0]] + last[1..] && r[1..] == [r[1..][0]] + last && r == [r[0]] + r[1..];
  }
}
