/** The self-adaptation loop: analysis raises a flag and reports an anomaly, planning answers it with
    rotations, execution publishes them and takes the flag down.  The three nodes share a knowledge base
    and send each other events, which may be lost but are not duplicated.

    One instance of each node runs, and each runs its callbacks one at a time; between two accesses to
    the knowledge base the others may take any steps. */
module AnomalyLoop {
  import opened Lang
  import opened Masks
  import opened RotationPlanner

  /** What planning leaves for execution, with the round it was computed in.  It is written twice: as
      a list, and after the event as a list with a period. */
  datatype Directions = Directions(rotations: seq<int>, withPeriod: bool, round: nat)

  /** What execution has published, with the mask recorded as planned at that moment and the round. */
  datatype Publication = Publication(directions: Option<Directions>, planned: Option<Bits>, round: nat)

  datatype AnalysisAt = ANone | AMaskWritten(mask: Bits) | AFlagDown(mask: Bits) | ADiffers | AFlagRaised

  datatype PlanAt =
    | PNone
    | PMaskRead(mask: Bits, round: nat)
    | PMaskRecorded(mask: Bits, round: nat)
    | PDirectionsWritten(mask: Bits, directions: Directions)
    | PSent(mask: Bits, directions: Directions)

  datatype ExecuteAt = ENone | EDirectionsRead(directions: Option<Directions>) | ESent

  datatype State = State(
    flag: bool, lidar: Option<Bits>, planned: Option<Bits>, directions: Option<Directions>, // the knowledge base
    anomalies: nat, newPlans: nat,                                                           // events on their way
    analysis: AnalysisAt, plan: PlanAt, execute: ExecuteAt,
    published: seq<Publication>, round: nat,
    lost: bool)                                                                              // the round came to nothing

  datatype Step =
    | Scan(mask: Bits) | CheckFlag | Compare | RaiseFlag | ReportAnomaly
    | ReadMask | RecordMask | ComputePlan | ReportPlan | AddPeriod
    | ReadDirections | Publish | LowerFlag
    | LoseAnomaly | LoseNewPlan

  function Start(): State { State(false, None, None, None, 0, 0, ANone, PNone, ENone, [], 0, false) }

  /** The mask differs from the planned one by more than 1/48 of half a turn; with no mask planned yet,
      it is compared to one that sees nothing. Comparing masks of different sizes fails. */
  predicate Differs(mask: Bits, planned: Option<Bits>) {
    var p := if planned.Some? then planned.value else seq(|mask|, _ => false);
    |mask| == |p| && |mask| < 96 * Differences(mask, p)
  }

  predicate Enabled(s: State, step: Step) {
    match step
    case Scan(mask) => s.analysis.ANone? && mask != []
    case CheckFlag => s.analysis.AMaskWritten?
    case Compare => s.analysis.AFlagDown?
    case RaiseFlag => s.analysis.ADiffers?
    case ReportAnomaly => s.analysis.AFlagRaised?
    case ReadMask => s.plan.PNone? && 0 < s.anomalies
    case RecordMask => s.plan.PMaskRead?
    case ComputePlan => s.plan.PMaskRecorded?
    case ReportPlan => s.plan.PDirectionsWritten?
    case AddPeriod => s.plan.PSent?
    case ReadDirections => s.execute.ENone? && 0 < s.newPlans
    case Publish => s.execute.EDirectionsRead?
    case LowerFlag => s.execute.ESent?
    case LoseAnomaly => 0 < s.anomalies
    case LoseNewPlan => 0 < s.newPlans
  }

  function PlanRotations(mask: Bits): Option<seq<int>> { if mask == [] then None else Plan(mask) }

  function AnalysisStep(s: State, step: Step): State
    requires Enabled(s, step)
  {
    match step
    case Scan(mask) => s.(lidar := Some(mask), analysis := AMaskWritten(mask))
    case CheckFlag => s.(analysis := if s.flag then ANone else AFlagDown(s.analysis.mask))
    case Compare => s.(analysis := if Differs(s.analysis.mask, s.planned) then ADiffers else ANone)
    case RaiseFlag => s.(flag := true, round := s.round + 1, analysis := AFlagRaised)
    case ReportAnomaly => s.(anomalies := s.anomalies + 1, analysis := ANone)
    case _ => s
  }

  /** A planner that finds no mask, or no rotations, ends with an exception. */
  function PlanStep(s: State, step: Step): State
    requires Enabled(s, step)
  {
    match step
    case ReadMask =>
      (match s.lidar
       case None => s.(anomalies := s.anomalies - 1, lost := true)
       case Some(mask) => s.(anomalies := s.anomalies - 1, plan := PMaskRead(mask, s.round)))
    case RecordMask => s.(planned := Some(s.plan.mask), plan := PMaskRecorded(s.plan.mask, s.plan.round))
    case ComputePlan =>
      (match PlanRotations(s.plan.mask)
       case None => s.(plan := PNone, lost := true)
       case Some(r) =>
         var d := Directions(r, false, s.plan.round);
         s.(directions := Some(d), plan := PDirectionsWritten(s.plan.mask, d)))
    case ReportPlan => s.(newPlans := s.newPlans + 1, plan := PSent(s.plan.mask, s.plan.directions))
    case AddPeriod => s.(directions := Some(s.plan.directions.(withPeriod := true)), plan := PNone)
    case _ => s
  }

  function ExecuteStep(s: State, step: Step): State
    requires Enabled(s, step)
  {
    match step
    case ReadDirections => s.(newPlans := s.newPlans - 1, execute := EDirectionsRead(s.directions))
    case Publish => s.(published := s.published + [Publication(s.execute.directions, s.planned, s.round)], execute := ESent)
    case LowerFlag => s.(flag := false, execute := ENone)
    case _ => s
  }

  function Apply(s: State, step: Step): State
    requires Enabled(s, step)
  {
    match step
    case LoseAnomaly => s.(anomalies := s.anomalies - 1, lost := true)
    case LoseNewPlan => s.(newPlans := s.newPlans - 1, lost := true)
    case _ =>
      if step.Scan? || step.CheckFlag? || step.Compare? || step.RaiseFlag? || step.ReportAnomaly? then AnalysisStep(s, step)
      else if step.ReadDirections? || step.Publish? || step.LowerFlag? then ExecuteStep(s, step)
      else PlanStep(s, step)
  }

  ghost predicate Run(s: State, steps: seq<Step>, t: State)
    decreases |steps|
  {
    if steps == [] then s == t else Enabled(s, steps[0]) && Run(Apply(s, steps[0]), steps[1..], t)
  }

  // ---------------------------------------------------------------------------------------------
  // One round at a time
  // ---------------------------------------------------------------------------------------------

  function Count(b: bool): nat { if b then 1 else 0 }

  /** The stages a round can be at: reported or about to be, in planning, planned, in execution. */
  function Tokens(s: State): nat {
    Count(s.analysis.AFlagRaised?) + s.anomalies
    + Count(s.plan.PMaskRead? || s.plan.PMaskRecorded? || s.plan.PDirectionsWritten?) + s.newPlans
    + Count(!s.execute.ENone?)
  }

  /** At most one round is under way; none is while the flag is down; and while it is up, one is unless
      it came to nothing. */
  ghost predicate OneRound(s: State) {
    && Tokens(s) <= 1
    && (!s.flag ==> Tokens(s) == 0 && !s.lost)
    && (s.flag ==> (Tokens(s) == 0 <==> s.lost))
    && (s.analysis.AFlagDown? || s.analysis.ADiffers? ==> !s.flag)
  }

  ghost predicate IsPlan(d: Directions, mask: Bits) { PlanRotations(mask) == Some(d.rotations) }

  /** The directions in the knowledge base are those of the planned mask, computed in this round. */
  ghost predicate Current(s: State, d: Option<Directions>) {
    d.Some? && s.planned.Some? && IsPlan(d.value, s.planned.value) && d.value.round == s.round
  }

  ghost predicate Coherent(s: State) {
    && (s.flag || !s.analysis.ANone? ==> s.lidar.Some?)
    && (s.plan.PMaskRead? ==> s.plan.round == s.round)
    && (s.plan.PMaskRecorded? ==> s.planned == Some(s.plan.mask) && s.plan.round == s.round)
    && (s.plan.PDirectionsWritten? ==> s.planned == Some(s.plan.mask) && s.directions == Some(s.plan.directions) && Current(s, s.directions))
    && (s.plan.PSent? ==> s.planned == Some(s.plan.mask) && IsPlan(s.plan.directions, s.plan.mask) && s.directions == Some(s.plan.directions))
    && (0 < s.newPlans ==> Current(s, s.directions))
    && (s.execute.EDirectionsRead? ==> Current(s, s.execute.directions))
  }

  /** What has been published was computed from the mask recorded as planned, in the same round. */
  ghost predicate Published(s: State) {
    forall i :: 0 <= i < |s.published| ==>
      var p := s.published[i];
      p.directions.Some? && p.planned.Some? && IsPlan(p.directions.value, p.planned.value) && p.directions.value.round == p.round
  }

  ghost predicate Inv(s: State) { OneRound(s) && Coherent(s) && Published(s) }

  lemma StepOneRound(s: State, step: Step)
    requires Inv(s) && Enabled(s, step)
    ensures OneRound(Apply(s, step))
  {
  }

  lemma StepCoherent(s: State, step: Step)
    requires Inv(s) && Enabled(s, step)
    ensures Coherent(Apply(s, step))
  {
  }

  lemma StepPublished(s: State, step: Step)
    requires Inv(s) && Enabled(s, step)
    ensures Published(Apply(s, step))
  {
  }
}
