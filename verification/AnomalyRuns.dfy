/** The self-adaptation loop over whole runs: one round at a time, what is published was planned, and when
    the loop gets stuck. */
module AnomalyRuns {
  import opened Lang
  import opened Masks
  import opened RotationPlanner
  import opened AnomalyLoop

  /** That is, the distance of the two masks exceeds the sensitivity. */
  lemma DiffersIsDistance(mask: Bits, planned: Bits)
    requires mask != [] && |mask| == |planned|
    ensures var base := 2.0 / |mask| as real;
            Differs(mask, Some(planned)) <==> Masks.Dist(Mask(mask, base), Mask(planned, base)).angle > 1.0 / 48.0
  {
    var (n, d, base) := (|mask|, Differences(mask, planned), 2.0 / |mask| as real);
    assert Masks.Dist(Mask(mask, base), Mask(planned, base)) == Distance(Times(base, d));
    TimesIsProduct(base, d);
    ScaledUp(n, d);
  }

  /** What `d` of `n` bearings cover exceeds 1/48 of half a turn. */
  predicate Exceeds(d: nat, n: nat)
    requires 0 < n
  {
    2.0 / n as real * d as real > 1.0 / 48.0
  }

  lemma ScaledUp(n: nat, d: nat)
    requires 0 < n
    ensures Exceeds(d, n) <==> n < 96 * d
  {
    var (m, x) := (n as real, 2.0 / n as real * d as real);
    assert 2.0 / m * m == 2.0;
    assert x * m == 2.0 * d as real by { assert x * m == 2.0 / m * m * d as real; }
    if x > 1.0 / 48.0 { assert (x - 1.0 / 48.0) * m > 0.0; } else { assert (1.0 / 48.0 - x) * m >= 0.0; }
    assert (x - 1.0 / 48.0) * m == 2.0 * d as real - m / 48.0;
  }

  lemma {:induction false} RunInv(s: State, steps: seq<Step>, t: State)
    requires Inv(s) && Run(s, steps, t)
    ensures Inv(t)
    decreases |steps|
  {
    if steps != [] {
      StepOneRound(s, steps[0]);
      StepCoherent(s, steps[0]);
      StepPublished(s, steps[0]);
      RunInv(Apply(s, steps[0]), steps[1..], t);
    }
  }

  /** In every interleaving, with any events lost: at most one round is under way, and none while the
      flag is down. */
  lemma OneRoundAtATime(steps: seq<Step>, t: State)
    requires Run(Start(), steps, t)
    ensures Tokens(t) <= 1 && (!t.flag ==> Tokens(t) == 0)
  {
    RunInv(Start(), steps, t);
  }

  /** Whatever is published sweeps every bearing that is occluded in the mask recorded as planned, and
      was computed in the round it is published in, in spite of planning's late second write. */
  lemma PublishedIsPlanned(steps: seq<Step>, t: State, i: nat)
    requires Run(Start(), steps, t) && i < |t.published|
    ensures var p := t.published[i];
            && p.directions.Some? && p.planned.Some? && p.directions.value.round == p.round
            && var (w, mask) := (Walk(p.directions.value.rotations), p.planned.value);
               RotationPlanner.Closed(w, (|mask| / 2) as real) && SweepsOccluded(w, mask, |mask| / 2)
  {
    RunInv(Start(), steps, t);
    var p := t.published[i];
    assert IsPlan(p.directions.value, p.planned.value);
    PlanIsRight(p.planned.value);
  }

  // ---------------------------------------------------------------------------------------------
  // A lost round is never made up for
  // ---------------------------------------------------------------------------------------------

  ghost predicate Stuck(s: State) { s.flag && Tokens(s) == 0 }

  lemma StuckStep(s: State, step: Step)
    requires Inv(s) && Stuck(s) && Enabled(s, step)
    ensures Stuck(Apply(s, step)) && Apply(s, step).published == s.published
  {
  }

  /** Once an event is lost or planning has failed, the flag stays up and nothing is ever published
      again. */
  lemma {:induction false} StuckForEver(s: State, steps: seq<Step>, t: State)
    requires Inv(s) && Stuck(s) && Run(s, steps, t)
    ensures Stuck(t) && t.published == s.published
    decreases |steps|
  {
    if steps != [] {
      StuckStep(s, steps[0]);
      StepOneRound(s, steps[0]);
      StepCoherent(s, steps[0]);
      StepPublished(s, steps[0]);
      StuckForEver(Apply(s, steps[0]), steps[1..], t);
    }
  }

  /** A step by which a round comes to nothing: an event is lost, or the planner fails on its mask. */
  predicate LosesRound(s: State, step: Step) {
    step.LoseAnomaly? || step.LoseNewPlan? || (step.ComputePlan? && s.plan.PMaskRecorded? && PlanRotations(s.plan.mask) == None)
  }

  ghost predicate EverLost(s: State, steps: seq<Step>)
    decreases |steps|
  {
    steps != [] && Enabled(s, steps[0]) && (LosesRound(s, steps[0]) || EverLost(Apply(s, steps[0]), steps[1..]))
  }

  lemma LostStep(s: State, step: Step)
    requires Inv(s) && Enabled(s, step)
    ensures Apply(s, step).lost <==> s.lost || LosesRound(s, step)
  {
  }

  lemma {:induction false} LostRun(s: State, steps: seq<Step>, t: State)
    requires Inv(s) && Run(s, steps, t)
    ensures t.lost <==> s.lost || EverLost(s, steps)
    decreases |steps|
  {
    if steps != [] {
      LostStep(s, steps[0]);
      StepOneRound(s, steps[0]);
      StepCoherent(s, steps[0]);
      StepPublished(s, steps[0]);
      LostRun(Apply(s, steps[0]), steps[1..], t);
    }
  }

  /** The loop is stuck exactly if some event was lost or some plan failed along the run. */
  lemma StuckExactlyWhenLost(steps: seq<Step>, t: State)
    requires Run(Start(), steps, t)
    ensures Stuck(t) <==> EverLost(Start(), steps)
  {
    RunInv(Start(), steps, t);
    LostRun(Start(), steps, t);
  }

  // ---------------------------------------------------------------------------------------------
  // The callbacks
  // ---------------------------------------------------------------------------------------------

  /** Takes a step if it is enabled; a callback that returns early takes no more. */
  function Do(s: State, step: Step): State { if Enabled(s, step) then Apply(s, step) else s }

  lemma {:induction false} RunConcat(s: State, a: seq<Step>, t: State, b: seq<Step>, u: State)
    requires Run(s, a, t) && Run(t, b, u)
    ensures Run(s, a + b, u)
    decreases |a|
  {
    if a == [] {
      assert a + b == b;
    } else {
      RunConcat(Apply(s, a[0]), a[1..], t, b, u);
      assert (a + b)[1..] == a[1..] + b;
    }
  }

  /** So what a callback does is a part of a run. */
  lemma DoExtendsRun(s: State, steps: seq<Step>, t: State, step: Step)
    requires Run(s, steps, t)
    ensures exists more :: steps <= more && Run(s, more, Do(t, step))
  {
    if Enabled(t, step) {
      var one := [step];
      assert one[1..] == [] && Run(Apply(t, step), one[1..], Apply(t, step));
      RunConcat(s, steps, t, one, Apply(t, step));
      assert steps <= steps + one && Run(s, steps + one, Do(t, step));
    } else {
      assert steps <= steps && Run(s, steps, Do(t, step));
    }
  }

  function AnalysisCallback(s: State, mask: Bits): State {
    Do(Do(Do(Do(Do(s, Scan(mask)), CheckFlag), Compare), RaiseFlag), ReportAnomaly)
  }

  /** How many bearings a mask sees. */
  function SeenCount(mask: Bits): nat { if mask == [] then 0 else (if mask[0] then 1 else 0) + SeenCount(mask[1..]) }

  lemma {:induction false} DifferencesFromNone(mask: Bits, none: Bits)
    requires |none| == |mask| && forall i :: 0 <= i < |none| ==> !none[i]
    ensures Differences(mask, none) == SeenCount(mask)
  {
    if mask != [] { DifferencesFromNone(mask[1..], none[1..]); }
  }

  /** The state after an undisturbed callback of analysis that finds an anomaly if and only if `found`. */
  function Analysed(s: State, mask: Bits, found: bool): State {
    var t := s.(lidar := Some(mask));
    if s.flag || !found then t else t.(flag := true, round := s.round + 1, anomalies := s.anomalies + 1)
  }

  /** With nothing planned yet and the flag down, the callback of analysis records the mask, and it raises
      the flag and reports an anomaly if and only if what is seen covers more than 1/48 of half a turn. */
  lemma FirstAnomaly(s: State, mask: Bits)
    requires mask != [] && s.planned == None && s.analysis.ANone?
    ensures AnalysisCallback(s, mask) == Analysed(s, mask, Exceeds(SeenCount(mask), |mask|))
  {
    FirstDiffers(mask);
    CallbackEnds(s, mask);
  }

  lemma FirstDiffers(mask: Bits)
    requires mask != []
    ensures Differs(mask, None) <==> Exceeds(SeenCount(mask), |mask|)
  {
    DiffersFromNone(mask);
    ScaledUp(|mask|, SeenCount(mask));
  }

  lemma DiffersFromNone(mask: Bits)
    requires mask != []
    ensures Differs(mask, None) <==> |mask| < 96 * SeenCount(mask)
  {
    forall p: Bits | |p| == |mask| && (forall i :: 0 <= i < |p| ==> !p[i]) ensures Differences(mask, p) == SeenCount(mask) {
      DifferencesFromNone(mask, p);
    }
  }

  /** With a planned mask of the same size, if and only if their distance exceeds the sensitivity; with one
      of another size, the callback fails before that. */
  lemma NextAnomaly(s: State, mask: Bits)
    requires mask != [] && s.planned.Some? && s.analysis.ANone?
    ensures var (p, base) := (s.planned.value, 2.0 / |mask| as real);
            AnalysisCallback(s, mask) ==
            Analysed(s, mask, |p| == |mask| && Masks.Dist(Mask(mask, base), Mask(p, base)).angle > 1.0 / 48.0)
  {
    if |s.planned.value| == |mask| { DiffersIsDistance(mask, s.planned.value); }
    CallbackEnds(s, mask);
  }

  lemma CallbackEnds(s: State, mask: Bits)
    requires mask != [] && s.analysis.ANone?
    ensures AnalysisCallback(s, mask) == Analysed(s, mask, Differs(mask, s.planned))
  {
    var s1 := Do(s, Scan(mask));
    var s2 := Do(s1, CheckFlag);
    assert s1 == s.(lidar := Some(mask), analysis := AMaskWritten(mask));
    if !s.flag {
      var s3 := Do(s2, Compare);
      if Differs(mask, s.planned) { assert s3 == s2.(analysis := ADiffers); }
    }
  }

  /** The first report can be lost, and then the loop is stuck. */
  lemma LostReportSticks(mask: Bits) returns (steps: seq<Step>, t: State)
    requires mask != [] && Exceeds(SeenCount(mask), |mask|)
    ensures Run(Start(), steps, t) && Stuck(t)
  {
    var reported := CallbackRun(Start(), mask);
    FirstAnomaly(Start(), mask);
    var s := Analysed(Start(), mask, true);
    t := Apply(s, LoseAnomaly);
    steps := reported + [LoseAnomaly];
    assert Run(s, [LoseAnomaly], t) by { assert [LoseAnomaly][1..] == []; }
    RunConcat(Start(), reported, s, [LoseAnomaly], t);
  }

  lemma CallbackRun(s: State, mask: Bits) returns (steps: seq<Step>)
    ensures Run(s, steps, AnalysisCallback(s, mask))
  {
    steps := DoRun(s, [], s, Scan(mask));
    steps := DoRun(s, steps, Do(s, Scan(mask)), CheckFlag);
    steps := DoRun(s, steps, Do(Do(s, Scan(mask)), CheckFlag), Compare);
    steps := DoRun(s, steps, Do(Do(Do(s, Scan(mask)), CheckFlag), Compare), RaiseFlag);
    steps := DoRun(s, steps, Do(Do(Do(Do(s, Scan(mask)), CheckFlag), Compare), RaiseFlag), ReportAnomaly);
  }

  lemma DoRun(s: State, steps: seq<Step>, t: State, step: Step) returns (more: seq<Step>)
    requires Run(s, steps, t)
    ensures Run(s, more, Do(t, step))
  {
    DoExtendsRun(s, steps, t, step);
    more :| steps <= more && Run(s, more, Do(t, step));
  }

  function PlanComputed(s: State): State { Do(Do(Do(s, ReadMask), RecordMask), ComputePlan) }

  function PlanCallback(s: State): State { PlanReported(PlanComputed(s)) }

  /** What the planner leaves behind. */
  function Planned(s: State): State
    requires 0 < s.anomalies
  {
    var taken := s.(anomalies := s.anomalies - 1);
    if s.lidar.None? then taken.(lost := true)
    else
      var r := PlanRotations(s.lidar.value);
      if r.None? then taken.(planned := s.lidar, lost := true)
      else taken.(planned := s.lidar, directions := Some(Directions(r.value, true, s.round)), newPlans := s.newPlans + 1)
  }

  lemma PlanComputes(s: State)
    requires s.plan.PNone? && 0 < s.anomalies && s.lidar.Some? && PlanRotations(s.lidar.value).Some?
    ensures var d := Directions(PlanRotations(s.lidar.value).value, false, s.round);
            PlanComputed(s) == s.(anomalies := s.anomalies - 1, planned := s.lidar, directions := Some(d), plan := PDirectionsWritten(s.lidar.value, d))
  {
  }

  function PlanReported(s: State): State { Do(Do(s, ReportPlan), AddPeriod) }

  lemma PlanReports(s: State)
    requires s.plan.PDirectionsWritten?
    ensures PlanReported(s) ==
            s.(newPlans := s.newPlans + 1, directions := Some(s.plan.directions.(withPeriod := true)), plan := PNone)
  {
  }

  lemma PlanAborts(s: State)
    requires s.plan.PNone? && 0 < s.anomalies && (s.lidar.None? || PlanRotations(s.lidar.value).None?)
    ensures PlanComputed(s) == Planned(s)
  {
  }

  lemma PlanEnds(s: State)
    requires s.plan.PNone? && 0 < s.anomalies
    ensures PlanCallback(s) == Planned(s)
  {
    if s.lidar.None? || PlanRotations(s.lidar.value).None? {
      PlanAborts(s);
    } else {
      PlanComputes(s);
      PlanReports(PlanComputed(s));
    }
  }

  /** So can the plan that answers it, and then the loop is stuck too. */
  lemma LostPlanSticks(s: State)
    requires s.flag && s.analysis.ANone? && s.plan.PNone? && s.execute.ENone? && s.anomalies == 1 && s.newPlans == 0
    requires s.lidar.Some? && PlanRotations(s.lidar.value).Some?
    ensures var t := PlanCallback(s); Enabled(t, LoseNewPlan) && Stuck(Apply(t, LoseNewPlan))
  {
    PlanEnds(s);
  }

  function ExecuteCallback(s: State): State { Do(Do(Do(s, ReadDirections), Publish), LowerFlag) }

  lemma ExecuteEnds(s: State)
    requires s.execute.ENone? && 0 < s.newPlans
    ensures ExecuteCallback(s) ==
            s.(flag := false, newPlans := s.newPlans - 1, published := s.published + [Publication(s.directions, s.planned, s.round)])
  {
  }

  /** One round from the start, undisturbed: what is seen covers enough, the planner has rotations for it,
      and these are published; then the flag is down again and nothing is on its way. */
  lemma FirstRound(mask: Bits)
    requires mask != [] && Exceeds(SeenCount(mask), |mask|) && Plan(mask).Some?
    ensures var d := Directions(Plan(mask).value, true, 1);
            ExecuteCallback(PlanCallback(AnalysisCallback(Start(), mask))) ==
            Start().(lidar := Some(mask), planned := Some(mask), directions := Some(d), round := 1,
                     published := [Publication(Some(d), Some(mask), 1)])
  {
    FirstAnomaly(Start(), mask);
    FirstPlan(mask, Analysed(Start(), mask, true));
    var t := Planned(Analysed(Start(), mask, true));
    ExecuteEnds(t);
  }

  lemma FirstPlan(mask: Bits, s: State)
    requires mask != [] && Plan(mask).Some? && s == Analysed(Start(), mask, true)
    ensures PlanCallback(s) == Planned(s)
    ensures Planned(s) == Start().(flag := true, lidar := Some(mask), planned := Some(mask), newPlans := 1, round := 1,
                                   directions := Some(Directions(Plan(mask).value, true, 1)))
  {
    PlanEnds(s);
  }

  /** The knowledge base and the events, with the callbacks of the nodes running undisturbed. */
  class Nodes {
    var flag: bool
    var lidar: Option<Bits>
    var planned: Option<Bits>
    var directions: Option<Directions>
    var anomalies: nat
    var newPlans: nat
    var published: seq<Publication>
    var round: nat
    ghost var lost: bool

    ghost function View(): State
      reads this
    {
      State(flag, lidar, planned, directions, anomalies, newPlans, ANone, PNone, ENone, published, round, lost)
    }

    constructor ()
      ensures View() == Start()
    {
      flag, lidar, planned, directions := false, None, None, None;
      anomalies, newPlans, published, round, lost := 0, 0, [], 0, false;
    }

    method AnalyseScanData(mask: Bits)
      requires mask != []
      modifies this
      ensures View() == AnalysisCallback(old(View()), mask)
      ensures old(planned) == None ==> View() == Analysed(old(View()), mask, Exceeds(SeenCount(mask), |mask|))
    {
      if planned == None { FirstAnomaly(View(), mask); }
      lidar := Some(mask);
      if flag { return; }
      if Differs(mask, planned) {
        flag := true;
        round := round + 1;
        anomalies := anomalies + 1;
      }
    }

    method Planner()
      requires 0 < anomalies
      modifies this
      ensures View() == Planned(old(View())) == PlanCallback(old(View()))
    {
      PlanEnds(View());
      anomalies := anomalies - 1;
      if lidar.None? {
        lost := true;
        return;
      }
      var mask := lidar.value;
      planned := Some(mask);
      var r := PlanRotations(mask);
      if r.None? {
        lost := true;
        return;
      }
      directions := Some(Directions(r.value, false, round));
      newPlans := newPlans + 1;
      directions := Some(Directions(r.value, true, round));
    }

    method Executer()
      requires 0 < newPlans
      modifies this
      ensures View() == ExecuteCallback(old(View()))
    {
      newPlans := newPlans - 1;
      var d := directions;
      published := published + [Publication(d, planned, round)];
      flag := false;
    }
  }
}
