# Verification of the runtime monitor and the adaptation loop

A Dafny model of two systems that live in one repository, with proofs about it: TrustworthinessChecker,
a runtime-verification engine for the stream language DynSRV, and the Analysis - Plan - Execute loop by
which a robot with an occluded lidar adapts itself. `dafny verify dfyconfig.toml` checks everything.

## What is modelled

**Streams and their variables**

- `Broadcast` - the protocol by which a stream variable serves its subscribers
  (`runtime/asynchronous.rs`): a state machine whose steps are what happens between two awaits, and the
  invariant that each step keeps. A run is any sequence of enabled steps.
- `BroadcastRuns` - what holds over all runs: every subscriber gets its input without gap, loss or
  repetition; and the permit accounting.
- `BroadcastTraces`, `BroadcastShortcuts` - what users see of a run, in order, and exactly when handing the
  raw stream to a lone subscriber can be told from the plain broadcast.
- `BroadcastBuffers` - how many unread items a subscriber may have before the broadcast waits for it.
- `VarManagers` - the same object with its fields updated in place, each method proved to be a legal
  sequence of the protocol's steps.

**The constraint-based monitor**

- `Lang` - values, operators and expressions; `TableLaws` - the laws by which the results of the operators
  are what they should be.
- `Solver` - the constraint solver (`runtime/constraints/solver.rs`): `Lang.Table` is its operator table,
  `ToAbsolute` pins an expression to a time, `Fold` simplifies an equation, `Simplify` simplifies a pinned
  expression against the store.
- `SolverMeaning` - `Eval` is the stream semantics that these are measured by: an index shifts the stream
  below it.
- `ConstraintRuntimes` - one step of the runtime, the clean-up and the monitor loop, on values
  (`runtime/constraints/runtime.rs`).
- `GarbageCollection` - when forgetting is invisible; `Retentions` - what is in the store when something has
  been forgotten; `LateItems`, `LateRuns` - a specification for which it is visible, and exactly when.
- `ConstraintDenotations` - what is sent are the values of the streams. `Denote` builds these by recursion
  over time and rank, so they exist.
- `OperandOrder` - the smallest specification in which what is sent depends on the order of the outputs.
- `RuntimeLedger` - conservation and boundedness of the store, for every specification.
- `SendCounters` - the counter by which each output sends its values.
- `RuntimeObject` - the runtime as the object with the loops that it is.
- `Dependencies`, `DepGraphs` - which time offsets are recorded (`dep_manage/graph_based.rs`) and the
  multigraph that they are kept in.
- `ConstraintMonitors` - all of this together: from a list of equations to what is sent.
- `SimpleMonitors` - specifications of one equation `z = x op y`, from the inputs to what is sent.
- `Maple`, `MapleMonitor` - the specification of five mutually dependent streams from
  `lola_fixtures.rs`, and what the monitor sends for it.

**The language**

- `Parsers`, `OperatorChains` - the expression parser with its thirteen levels of operators against the
  printer, over tokens; `Precedences` - which of two operators binds tighter; `TokenWeights`, `RoundTrips` -
  exactly which expressions come back from both.
- `TypeChecker` - the type checker with its error log, and the typed and the untyped meaning of what it
  accepts.
- `FixDynamics` - the rewrite that restricts dynamic expressions, place by place, and how a restricted
  context binds names to streams; `Sublists` - what it means to keep some elements of a list in order.

**Distribution**

- `Assignments` - the iterator over all placements of variables on locations, and the labelled graphs.

**The robot**

- `Masks` - the algebra of lidar masks: rotation, weakening, strengthening, distance.
- `SlidingMeans` - the incremental sliding mean and the scans that feed it; `ScanOcclusions` - from the
  ranges of the scans to the bearings that are published as occluded.
- `RotationPlanner` - which rotations look at everything occluded, and that none shorter do.
- `AnomalyLoop` - the protocol of the three nodes over a shared flag and events that may be lost, and its
  invariant.
- `AnomalyRuns` - what holds over all its runs, and the callbacks of the nodes in place.

## What is assumed

- Of `Broadcast`: what happens between two awaits is not interrupted (the executor has one thread); a
  variable is not subscribed to while it ticks or after it runs (`tick` of a context takes it exclusively
  and `var` panics after `run`); a tick once called is awaited or cancelled; taking away a permit when
  there is none leaves none; a stream is dropped only after its request has been answered (a task that
  cannot hand over its stream panics); inputs are finite. Cancelling may stop a tick at any await.
- Of `AnomalyLoop`: one instance of each node, the callbacks of a node one at a time, events lost at any
  moment but never duplicated.
- Of the monitor's results: equations of literals, variables, operators, indices, `if` and `default`,
  offsets not positive, no index inside an index. Results about forgetting ask that what outlives a step
  reads nothing that is forgotten (`Lasting`), or that nothing outlives its step (`Prompt`), which is so
  if no output depends on itself within one instant. Results about values ask for the latter, by a rank,
  and that no operands change sides for which it makes a difference (`AllOrdered`): the right operand of
  an operator that does not commute reads only inputs, the past, and outputs that are resolved by then,
  which is so if every output is kept after those it reads at the same time; and no literal on the left is
  exchanged by folding where it matters (`FoldSafe`).

## Where the code falls short of its purpose

The code is modelled as it is. These are the places where a natural claim about it is false, each with
the members that show it and say when the claim holds.

- Nested indices: `(a[-1])[-1]` is read one step back, not two (`SolverMeaning.NestedIndexMisread`). A
  variable under indices keeps its meaning if and only if no offset but the innermost one shifts
  (`Dependencies.ChainMisread`), and its recorded retention is enough if and only if at most one offset is
  not zero (`Dependencies.ChainRetention`).
- Offsets collected for one operand stay in force for the next (`Dependencies.TraceDepsExactly`), so
  instantaneous dependencies can be missed (`Dependencies.InstantHidden`). Retention is still sufficient
  (`Dependencies.RecordedIsRetained`).
- The solver puts a resolved left operand on the right. When equations are folded, `1 - a` becomes `a - 1`;
  `SolverMeaning.ConstantLeftOperand` says exactly when this is harmless. When they are resolved, `x = a - y`
  with `y = b` becomes `b - a` (`OperandOrder.LateOperandExchanged`): with `x` kept first, `a op y` is right
  on all inputs if and only if `op` commutes (`OperandOrder.KeptBefore`), and with `y` kept first it always
  is (`OperandOrder.KeptAfter`).
- Values are forgotten while something may still wait for them, and before they are sent: for an output that
  depends on itself within one instant, such as `x = if c then x else a[-1]`, what is sent depends on the
  clean-ups (`LateRuns.ForgettingIsSeen`). It does so if and only if `c` falls with another step to come, since
  then a late value is gone before its turn, or one step behind a known value of `a`
  (`LateRuns.ForgettingIsSeenExactly`). Such specifications are accepted: the graph can tell whether there is
  such a dependency, but only its tests ask. Without one forgetting is invisible
  (`GarbageCollection.ProductiveIsPrompt`), as it is in every run in which what outlives a step reads nothing
  that is forgotten (`GarbageCollection.ForgettingIsInvisible`).
- Removing a dependency that is not there is not undone by adding it (`DepGraphs.RunIsNet`).
- `Display` prints a float that equals an integer as one (`RoundTrips.FloatRoundTrip`) and `<`, `>` and `>=`
  as `<=` (`Parsers.NormIsIdentity`), and puts no parentheses around `if` (`OperatorChains.OperandRoundTrip`)
  nor around what an index applies to (`OperatorChains.IndexRoundTrip`); `RoundTrips.RoundTrip` says exactly
  which expressions come back. Addition binds tighter than subtraction (`OperatorChains.SubtractionIsLooser`).
- The typed and the untyped runtime treat unknown values differently (`TypeChecker.OperatorsAgree`,
  `TypeChecker.MeaningsDiffer`), and `>=` of a float and an integer is `>` in the stream runtime, where
  equal ones are not `==` either (`TypeChecker.RuntimesAgree`). Whole expressions agree if looks into the
  past are given a default before they are used (`TypeChecker.GuardedAgrees`), and without conditionals,
  defaults and division only if they are not used at all (`TypeChecker.StraightAgrees`).
- The type checker does not compare the type of an equation with the annotation of the variable that it
  defines (`TypeChecker.AnnotationUnchecked`); streams that solve what it accepts match the annotations if
  and only if the types of the equations do and nothing annotated is unknown (`TypeChecker.SolutionsMatch`,
  `TypeChecker.HonestSolutions`). It also refuses floats in conditionals, defaults and indices;
  `TypeChecker.TypedIsChecked` says exactly what it accepts.
- A restricted set of names written in another order than the variables are declared binds names to the
  wrong streams (`FixDynamics.RestrictionBinds`, `FixDynamics.WrittenOrderSwaps`).
- A subscriber with the raw stream does not notice a cancellation (`BroadcastShortcuts.ShortcutOutlivesCancel`).
  `BroadcastShortcuts.ShortcutTraces` says exactly which cancelled runs can still be told from the plain
  broadcast.
- The planner asserts `False` for occlusions that are symmetric and narrow (`RotationPlanner.PlanFails`).
- A lost event or a failed plan leaves the flag up for ever (`AnomalyRuns.StuckExactlyWhenLost`).

## Model

| member | source | states |
|---|---|---|
| `BroadcastRuns.StepInv` | Realization/TrustworthinessChecker/src/runtime/asynchronous.rs:141-382 | Every step of the broadcast protocol (subscribe, answer, tick call, acquire, read, send, finish, abort, run, receive, drop, cancel) keeps the invariant that ties permits, outstanding requests, stage, clock, sender list and every subscriber's data together |
| `BroadcastRuns.RunInv` | Realization/TrustworthinessChecker/src/runtime/asynchronous.rs:141-382 | Hence every interleaving of these steps keeps it |
| `BroadcastRuns.Delivery` | Realization/TrustworthinessChecker/src/runtime/asynchronous.rs:238-343 | In every run, what a subscriber has received followed by its channel buffer is a prefix of the input from its subscription clock on; between ticks and before cancellation it is exactly the input from that clock to the current one; a subscriber with the raw stream has exactly what has been taken from it |
| `BroadcastRuns.SameClockWithinOne` | Realization/TrustworthinessChecker/src/runtime/asynchronous.rs:310-330 | Two live subscribers from the same clock never differ by more than one item, even if a tick is aborted between two sends |
| `BroadcastRuns.EndMeansDrained` | Realization/TrustworthinessChecker/src/runtime/asynchronous.rs:209-218 | A live subscriber that sees its stream end has received the whole rest of the input, on the broadcast and on the shortcut, unless the protocol was cancelled |
| `BroadcastRuns.OnePermit` | Realization/TrustworthinessChecker/src/runtime/asynchronous.rs:161-165 | Free and held permits never exceed one; a request is pending if and only if the counter is positive, and then no permit is free or held; a tick that waits can go on at once or some request can be answered |
| `BroadcastRuns.ShortcutIsSafe` | Realization/TrustworthinessChecker/src/runtime/asynchronous.rs:191-199 | Whenever the single-subscriber shortcut fires nothing has been read, the stream is there to be taken, the popped sender is the lone subscriber's own, and the manager's next tick ends the run loop |
| `Broadcast.GrantDirectInv` | Realization/TrustworthinessChecker/src/runtime/asynchronous.rs:191-199 | Taking the shortcut keeps the invariant, and it is taken only by the first and only subscription of an untouched manager |
| `BroadcastShortcuts.ShortcutTraces` | Realization/TrustworthinessChecker/src/runtime/asynchronous.rs:191-218 | The calls, items, ends and drops seen in a run with the shortcut are those seen in some run of the plain channel broadcast if and only if no more items come behind a cancellation than may be on their way: a full channel and the item of the tick it interrupts |
| `BroadcastTraces.PlainTimely` | Realization/TrustworthinessChecker/src/runtime/asynchronous.rs:255-330 | From every state of the plain broadcast: behind a cancellation no subscriber is given more than its full channel and the item of the interrupted tick; behind a start made once cancelled, no more than the channel; and nothing if it subscribed after the cancellation |
| `BroadcastShortcuts.ShortcutCovered` | Realization/TrustworthinessChecker/src/runtime/asynchronous.rs:191-199 | Every run that takes the shortcut and meets this condition can be followed by the plain broadcast, which fills its channel before it is cancelled |
| `BroadcastShortcuts.ShortcutRefinesBroadcast` | Realization/TrustworthinessChecker/src/runtime/asynchronous.rs:191-218 | So every uncancelled run with the shortcut looks like one of the plain broadcast |
| `BroadcastTraces.TraceTells` | Realization/TrustworthinessChecker/src/runtime/asynchronous.rs:209-218 | What a subscriber has received, in order, whether it has seen its end and whether it was dropped can be read off the trace |
| `BroadcastShortcuts.ShortcutOutlivesCancel` | Realization/TrustworthinessChecker/src/runtime/asynchronous.rs:191-199 | A run in which a stream that was cancelled before it was subscribed to still gives an item; no run of the plain broadcast looks like that |
| `BroadcastRuns.CancelledBroadcastIsSilent` | Realization/TrustworthinessChecker/src/runtime/asynchronous.rs:256-259 | The plain broadcast never reads another item once it is cancelled between ticks |
| `BroadcastRuns.UnusedEnds` | Realization/TrustworthinessChecker/src/runtime/asynchronous.rs:289-292 | A manager that is run without a subscription ends its run loop at its first tick, reads nothing and gives its permit back |
| `BroadcastRuns.CancelledLoopEnds` | Realization/TrustworthinessChecker/src/runtime/asynchronous.rs:347-382 | Once cancelled, a run loop can end from every state of the protocol, whatever its tick was doing, without reading or sending anything and with its permit given back |
| `Broadcast.RemoveAtKeeps` | Realization/TrustworthinessChecker/src/runtime/asynchronous.rs:327-329 | Removing the positions of dropped receivers from the last one down removes exactly these and keeps the order of the others |
| `BroadcastBuffers.ThousandUnread` | Realization/TrustworthinessChecker/src/runtime/asynchronous.rs:158-158 | A subscriber that does not read can be given a thousand items; then the tick waits with the next one, until an item is read or the subscriber is dropped, or until it is cancelled and its item is lost |
| `BroadcastBuffers.NeverMoreUnread` | Realization/TrustworthinessChecker/src/runtime/asynchronous.rs:158-158 | In no run a subscriber ever has more than a thousand unread items, and one with fewer is never waited for |
| `VarManagers.WholeTickIsLegal` | Realization/TrustworthinessChecker/src/runtime/asynchronous.rs:242-343 | What an uninterrupted tick does is one legal sequence of the protocol's steps |
| `VarManagers.WholeTickInv` | Realization/TrustworthinessChecker/src/runtime/asynchronous.rs:242-343 | A whole tick keeps the protocol's invariant |
| `VarManagers.RoomShrinks` | Realization/TrustworthinessChecker/src/runtime/asynchronous.rs:158-159 | A completed tick uses up at most one place of every live channel |
| `VarManagers.AllDelivered` | Realization/TrustworthinessChecker/src/runtime/asynchronous.rs:332-338 | When the run loop has ended uncancelled, every live subscriber of a channel has been handed the whole input from its subscription on |
| `VarManagers.VarManager.constructor` | Realization/TrustworthinessChecker/src/runtime/asynchronous.rs:114-138 | A new manager is in the protocol's initial state, which satisfies the invariant |
| `VarManagers.VarManager.Subscribe` | Realization/TrustworthinessChecker/src/runtime/asynchronous.rs:141-170 | Subscribing is the protocol's subscribe step: it adds one subscription and leaves all earlier ones alone |
| `VarManagers.VarManager.AnswerSubscription` | Realization/TrustworthinessChecker/src/runtime/asynchronous.rs:171-231 | The background task of a subscription is the protocol's answer step and keeps the invariant |
| `VarManagers.VarManager.Answer` | Realization/TrustworthinessChecker/src/runtime/asynchronous.rs:191-229 | Stream, sender list, permits and counter change as in the answer step, shortcut included |
| `VarManagers.VarManager.Tick` | Realization/TrustworthinessChecker/src/runtime/asynchronous.rs:242-343 | An unblocked tick is a whole tick of the protocol, and says whether to go on exactly if it was not cancelled, still owned the stream, had someone to serve and found an item |
| `VarManagers.VarManager.TickSteps` | Realization/TrustworthinessChecker/src/runtime/asynchronous.rs:255-343 | The same without the invariant |
| `VarManagers.VarManager.ReadAndDistribute` | Realization/TrustworthinessChecker/src/runtime/asynchronous.rs:279-341 | With the permit held: one item goes to every live listed subscriber, or the end drops all senders |
| `VarManagers.VarManager.Forward` | Realization/TrustworthinessChecker/src/runtime/asynchronous.rs:296-341 | Clock, position, buffers and sender list after the read |
| `VarManagers.VarManager.Distribute` | Realization/TrustworthinessChecker/src/runtime/asynchronous.rs:310-329 | The send loop appends the item to every live listed channel once and removes exactly the senders of dropped receivers |
| `VarManagers.VarManager.RemoveDead` | Realization/TrustworthinessChecker/src/runtime/asynchronous.rs:327-329 | The reverse removal loop computes the list without the given positions |
| `VarManagers.VarManager.RunLoop` | Realization/TrustworthinessChecker/src/runtime/asynchronous.rs:347-382 | Run to its end with room in the channels, the loop finishes and has handed every live channel subscriber its whole suffix of the input |
| `Lang.TableCommutes` | Realization/TrustworthinessChecker/src/runtime/constraints/solver.rs:120-205 | Addition, multiplication, logic and equality give the same result or the same panic with operands exchanged |
| `TableLaws.SumCounts` | Realization/TrustworthinessChecker/src/runtime/constraints/solver.rs:126-126 | Adding a number to an integer counts on from it that many times, and adding its negative counts back |
| `TableLaws.DifferenceUndoes` | Realization/TrustworthinessChecker/src/runtime/constraints/solver.rs:127-127 | Subtracting what was added gives the integer back |
| `TableLaws.ProductRepeats` | Realization/TrustworthinessChecker/src/runtime/constraints/solver.rs:128-128 | A product of integers is a repeated sum, or its negative |
| `TableLaws.QuotientTruncates` | Realization/TrustworthinessChecker/src/runtime/constraints/solver.rs:129-130 | The table gives `q` and `r` for `/` and `%` of integers if and only if they are the quotient and the remainder of truncating division, and nothing exactly by zero |
| `TableLaws.MixedAsFloats` | Realization/TrustworthinessChecker/src/runtime/constraints/solver.rs:132-190 | With a float among the operands the other one counts as a float |
| `TableLaws.FloatsExtend` | Realization/TrustworthinessChecker/src/runtime/constraints/solver.rs:125-152 | Sums, differences and products of floats that are integers are those of the integers |
| `TableLaws.FloatSums` | Realization/TrustworthinessChecker/src/runtime/constraints/solver.rs:146-152 | Addition of floats is a commutative group, with subtraction |
| `TableLaws.FloatProducts` | Realization/TrustworthinessChecker/src/runtime/constraints/solver.rs:146-152 | Multiplication of floats commutes and associates and has a unit |
| `TableLaws.FloatQuotients` | Realization/TrustworthinessChecker/src/runtime/constraints/solver.rs:146-152 | Division by a float that is not zero undoes multiplication by it and is undone by it |
| `TableLaws.FloatsDistribute` | Realization/TrustworthinessChecker/src/runtime/constraints/solver.rs:146-152 | Multiplication of floats distributes over addition |
| `TableLaws.FloatRemainder` | Realization/TrustworthinessChecker/src/runtime/constraints/solver.rs:146-152 | What remains of a float is what a whole multiple of the divisor leaves, smaller than the divisor and with the sign of the dividend |
| `TableLaws.LessIsGap` | Realization/TrustworthinessChecker/src/runtime/constraints/solver.rs:163-190 | A number is less than another one if and only if something positive added to it gives the other |
| `TableLaws.ComparisonsFollow` | Realization/TrustworthinessChecker/src/runtime/constraints/solver.rs:163-197 | All other comparisons follow from `<` and `==`, of which at most one holds |
| `TableLaws.StringOrder` | Realization/TrustworthinessChecker/src/runtime/constraints/solver.rs:191-197 | A string is less than another one if and only if it comes first in a dictionary |
| `TableLaws.Logic` | Realization/TrustworthinessChecker/src/runtime/constraints/solver.rs:153-156 | Truth values: which operand is neutral and which absorbing for either operator |
| `TableLaws.Concatenation` | Realization/TrustworthinessChecker/src/runtime/constraints/solver.rs:157-162 | A concatenated string is split again at the length of its first part |
| `TableLaws.Defined` | Realization/TrustworthinessChecker/src/runtime/constraints/solver.rs:120-205 | There is a result if and only if the operands are those that the operator is for, and no number is divided by zero |
| `Lang.TruncatesTowardsZero` | Realization/TrustworthinessChecker/src/runtime/constraints/solver.rs:125-131 | Quotient and remainder are those of division truncating towards zero, the remainder with the sign of the dividend |
| `Solver.FoldIdempotent` | Realization/TrustworthinessChecker/src/runtime/constraints/solver.rs:418-576 | Folding what folding left unresolved changes nothing more, so two rounds end the fixed point |
| `Solver.FoldKeepsShape` | Realization/TrustworthinessChecker/src/runtime/constraints/solver.rs:418-576 | Folding introduces no variable, no future offset and no nested index |
| `Solver.FoldKeepsRetained` | Realization/TrustworthinessChecker/src/runtime/constraints/solver.rs:418-576 | A retention sufficient for an expression is sufficient for what folding leaves of it |
| `Solver.FoldKeepsBelow` | Realization/TrustworthinessChecker/src/runtime/constraints/solver.rs:418-576 | Folding adds no instantaneous dependency |
| `Solver.FoldKeepsWithin` | Realization/TrustworthinessChecker/src/runtime/constraints/solver.rs:418-576 | What an expression reads at the present after folding it read before |
| `Solver.FoldKeepsOrdered` | Realization/TrustworthinessChecker/src/runtime/constraints/solver.rs:418-576 | Folding does not make an operator order-sensitive |
| `Solver.FoldKeepsSafe` | Realization/TrustworthinessChecker/src/runtime/constraints/solver.rs:418-576 | After folding, no further folding exchanges operands for which it could make a difference |
| `Solver.AbsoluteShape` | Realization/TrustworthinessChecker/src/runtime/constraints/solver.rs:208-258 | Pinning a retained, past-only, unnested expression gives indices that reach back no further than is retained, and only the instantaneous reads it had |
| `Solver.AbsoluteReads` | Realization/TrustworthinessChecker/src/runtime/constraints/solver.rs:208-258 | Pinning changes neither which outputs are read at the present nor where operand order matters |
| `Solver.PastResolves` | Realization/TrustworthinessChecker/src/runtime/constraints/solver.rs:310-318 | Below an index into the past, simplification resolves or panics, never waits |
| `Solver.SameSimplify` | Realization/TrustworthinessChecker/src/runtime/constraints/solver.rs:270-359 | Two stores that agree on what is retained simplify every retained expression alike |
| `Solver.SimplifyKeepsShape` | Realization/TrustworthinessChecker/src/runtime/constraints/solver.rs:270-359 | What stays unresolved satisfies the invariant of waiting items again, and waits for an output of lower rank |
| `Solver.SimplifyKeepsFit` | Realization/TrustworthinessChecker/src/runtime/constraints/solver.rs:270-359 | What stays unresolved still reads nothing later than the present and nothing that may be forgotten, whether or not outputs read each other in a cycle |
| `SolverMeaning.FoldCorrect` | Realization/TrustworthinessChecker/src/runtime/constraints/solver.rs:418-576 | Folding keeps the meaning of an expression at every time in every environment, if no literal changes sides for which that makes a difference |
| `SolverMeaning.AbsoluteCorrect` | Realization/TrustworthinessChecker/src/runtime/constraints/solver.rs:208-258 | Pinning an expression to a time keeps its meaning at that time, if no index is inside another one that shifts |
| `SolverMeaning.UnnestedIsReadable` | Realization/TrustworthinessChecker/src/runtime/constraints/solver.rs:208-258 | Which is the case if no index is inside another one at all |
| `SolverMeaning.NestedIndexMisread` | Realization/TrustworthinessChecker/src/runtime/constraints/solver.rs:217-228 | `(a[-1])[-1]` denotes `a` two steps back and is read one step back; `Dependencies.ChainMisread` gives the exact condition |
| `SolverMeaning.PastCorrect` | Realization/TrustworthinessChecker/src/runtime/constraints/solver.rs:270-359 | Below an index into the past, simplification computes the denoted value, and panics exactly where there is none |
| `SolverMeaning.WithinResolves` | Realization/TrustworthinessChecker/src/runtime/constraints/solver.rs:270-359 | An expression that reads only outputs that are done resolves or panics, it never waits |
| `SolverMeaning.SimplifyCorrect` | Realization/TrustworthinessChecker/src/runtime/constraints/solver.rs:270-359 | Against a sound store, simplification resolves to the denoted value, leaves an expression of the same meaning, or panics where there is no value, if the right operands of operators that do not commute read only outputs that are done |
| `SolverMeaning.SwappedOperands` | Realization/TrustworthinessChecker/src/runtime/constraints/solver.rs:435-437 | `1 - a` is folded to `a - 1`, with a time at which the values differ |
| `SolverMeaning.TellingDiffers` | Realization/TrustworthinessChecker/src/runtime/constraints/solver.rs:120-205 | For every literal and operator that are not safe to exchange there is a right operand for which it makes a difference |
| `SolverMeaning.SafeSwap` | Realization/TrustworthinessChecker/src/runtime/constraints/solver.rs:120-205 | For the safe ones it never does |
| `SolverMeaning.ConstantLeftOperand` | Realization/TrustworthinessChecker/src/runtime/constraints/solver.rs:435-437 | Folding `v op x` exchanges its operands, and keeps its meaning if and only if operator and literal are safe to exchange |
| `ConstraintRuntimes.PassSizes` | Realization/TrustworthinessChecker/src/runtime/constraints/runtime.rs:106-135 | Every item of a pass is resolved or kept, so a pass that resolves something shrinks the unresolved items: the loop ends |
| `ConstraintRuntimes.FoldAllStatic` | Realization/TrustworthinessChecker/src/runtime/constraints/runtime.rs:69-94 | One round of folding over all equations is already the fixed point |
| `ConstraintRuntimes.ResolveCompletes` | Realization/TrustworthinessChecker/src/runtime/constraints/runtime.rs:106-135 | A productive specification leaves nothing unresolved at the end of a step |
| `ConstraintRuntimes.PassFits` | Realization/TrustworthinessChecker/src/runtime/constraints/runtime.rs:106-135 | What a pass leaves reads nothing that may be forgotten, whatever the specification |
| `GarbageCollection.ResolveSame` | Realization/TrustworthinessChecker/src/runtime/constraints/runtime.rs:106-135 | Stores that agree on what is retained resolve the same entries in the same order and leave the same items, or panic both, cycles or not |
| `GarbageCollection.LookupForget` | Realization/TrustworthinessChecker/src/runtime/constraints/runtime.rs:138-156 | Exactly the values within the retention of their variable survive a clean-up |
| `GarbageCollection.StepSame` | Realization/TrustworthinessChecker/src/runtime/constraints/runtime.rs:158-166 | Steps from twin states send the same and leave the same items, or panic both; if what is left reads nothing that may be forgotten, they end in twin states, also when one of them is cleaned up |
| `GarbageCollection.MonitorSame` | Realization/TrustworthinessChecker/src/runtime/constraints/runtime.rs:342-371 | So do whole runs in which what outlives a step reads nothing that may be forgotten by the next one |
| `GarbageCollection.ForgettingIsInvisible` | Realization/TrustworthinessChecker/src/runtime/constraints/runtime.rs:342-371 | In such runs garbage collection is invisible: the monitor that cleans up after each step sends the same rows as one that keeps everything, or both panic |
| `GarbageCollection.PromptIsLasting` | Realization/TrustworthinessChecker/src/runtime/constraints/runtime.rs:342-371 | Runs in which nothing outlives its step are of this kind |
| `GarbageCollection.ProductiveIsPrompt` | Realization/TrustworthinessChecker/src/runtime/constraints/runtime.rs:342-371 | And so are all runs of specifications without instantaneous cycles |
| `GarbageCollection.PromptSame` | Realization/TrustworthinessChecker/src/runtime/constraints/runtime.rs:342-371 | If nothing outlives its step when everything is kept, nothing does when it is not |
| `LateRuns.ForgettingIsSeenExactly` | Realization/TrustworthinessChecker/src/runtime/constraints/runtime.rs:342-371 | For `x = if c then x else a[-1]` and all inputs that give a boolean `c` and an `a` at every time: the monitor that forgets sends something else than the one that does not if and only if `c` falls from true to false with another step to come, or with a known value of `a` one step before it was last true |
| `LateRuns.ResolvingDiffers` | Realization/TrustworthinessChecker/src/runtime/constraints/runtime.rs:106-156 | And it resolves something else if and only if `c` falls with such a value of `a` |
| `LateRuns.ForgettingIsSeen` | Realization/TrustworthinessChecker/src/runtime/constraints/runtime.rs:138-156 | For example, with `c` true, true, false: the first value sent for `x` is the first one of `a` if everything is kept, and unknown with the clean-ups, although the retention covers the equation |
| `LateItems.WaitStep` | Realization/TrustworthinessChecker/src/runtime/constraints/runtime.rs:106-135 | Its items wait for each other for as long as `c` is true, each becoming the one of the present |
| `LateItems.WakeStep` | Realization/TrustworthinessChecker/src/runtime/constraints/runtime.rs:106-135 | When `c` is false all of them are resolved: the waiting ones to `a` two steps back, which is unknown after a clean-up, the present one to `a` one step back |
| `ConstraintDenotations.KeptInTurn` | Realization/TrustworthinessChecker/src/runtime/constraints/runtime.rs:113-131 | Operands never change sides for which it makes a difference if every output is kept after those it reads at the present |
| `ConstraintDenotations.AnyTurn` | Realization/TrustworthinessChecker/src/runtime/constraints/runtime.rs:113-131 | Nor in any order, if no right operand of an operator that does not commute reads an output at the present |
| `ConstraintDenotations.PassCorrect` | Realization/TrustworthinessChecker/src/runtime/constraints/runtime.rs:106-135 | A pass over items that are in turn resolves only denoted values, keeps the meaning of the rest, loses no item, and panics only over an output without a value |
| `ConstraintDenotations.ResolveCorrect` | Realization/TrustworthinessChecker/src/runtime/constraints/runtime.rs:106-135 | So does the whole fixed point |
| `ConstraintDenotations.StepCorrect` | Realization/TrustworthinessChecker/src/runtime/constraints/runtime.rs:158-166 | A step sends the denoted value of every output and ends in a store that knows every stream's past, or panics over an output that has no value |
| `ConstraintDenotations.MonitorCorrect` | Realization/TrustworthinessChecker/src/runtime/constraints/runtime.rs:342-371 | The monitor sends, for every time, the values of any solution of the equations |
| `ConstraintDenotations.DenoteIsEval` | Realization/TrustworthinessChecker/src/runtime/constraints/runtime.rs:342-371 | The denotation by recursion over time and rank satisfies the stream semantics |
| `ConstraintDenotations.MeaningSolves` | Realization/TrustworthinessChecker/src/runtime/constraints/runtime.rs:342-371 | So the streams of a productive specification exist: the denotation solves the equations on every input |
| `ConstraintDenotations.MonitorComputesDenotation` | Realization/TrustworthinessChecker/src/runtime/constraints/runtime.rs:342-371 | The monitor that forgets computes exactly this denotation for every input, for specifications whose operands are in order |
| `OperandOrder.KeptBefore` | Realization/TrustworthinessChecker/src/runtime/constraints/solver.rs:286-289 | For `x = a op y` with `y = b` and `x` kept first, the monitor is right on all inputs if and only if `op` commutes |
| `OperandOrder.KeptAfter` | Realization/TrustworthinessChecker/src/runtime/constraints/solver.rs:286-289 | With `y` kept first it is right on all inputs, whatever the operator |
| `OperandOrder.FirstStep` | Realization/TrustworthinessChecker/src/runtime/constraints/solver.rs:286-289 | With `x` kept first, the first step sends `b op a` for it, or panics if that has no value |
| `OperandOrder.ExchangeIsWrong` | Realization/TrustworthinessChecker/src/runtime/constraints/solver.rs:286-289 | So it is wrong for every operator that some first input tells apart from its exchange |
| `OperandOrder.LateOperandExchanged` | Realization/TrustworthinessChecker/src/runtime/constraints/solver.rs:286-289 | `x = a - y` with `y = b`, 5 for `a` and 1 for `b`: -4 is sent for `x`, which means 4 |
| `RuntimeLedger.PassConserves` | Realization/TrustworthinessChecker/src/runtime/constraints/runtime.rs:106-135 | A pass moves each waiting (output, time) to the resolved ones or keeps it: counts are conserved |
| `RuntimeLedger.ResolveConserves` | Realization/TrustworthinessChecker/src/runtime/constraints/runtime.rs:106-135 | So does the fixed point, and it touches nothing but outputs |
| `RuntimeLedger.StepAccount` | Realization/TrustworthinessChecker/src/runtime/constraints/runtime.rs:158-166 | A step adds exactly one item for each output and the present time, and its log is exactly what it adds to the record |
| `RuntimeLedger.LedgerOfMonitor` | Realization/TrustworthinessChecker/src/runtime/constraints/runtime.rs:342-371 | The account is kept of the monitor's own run |
| `RuntimeLedger.LedgerConserves` | Realization/TrustworthinessChecker/src/runtime/constraints/runtime.rs:342-371 | From any state, resolved plus waiting grows by one for each output and each time of the run, and by nothing else |
| `RuntimeLedger.EachOutputOnce` | Realization/TrustworthinessChecker/src/runtime/constraints/runtime.rs:96-103 | Each (output, time) with a time below the number of steps is exactly once in the all-time record of resolved values or among the unresolved, and no other pair is, productive specification or not, with or without clean-up |
| `RuntimeLedger.RecordedForget` | Realization/TrustworthinessChecker/src/runtime/constraints/runtime.rs:138-156 | A clean-up drops all records of a time or none, by the age of that time |
| `RuntimeLedger.FewValues` | Realization/TrustworthinessChecker/src/runtime/constraints/runtime.rs:138-156 | One value at most for each time of a window means no more values than times |
| `RuntimeLedger.StepTidy` | Realization/TrustworthinessChecker/src/runtime/constraints/runtime.rs:158-166 | A step leaves at most one value of each name for each past time and none for later ones |
| `RuntimeLedger.CleanupTidy` | Realization/TrustworthinessChecker/src/runtime/constraints/runtime.rs:138-156 | After a clean-up each stream holds no more values than its longest dependency |
| `RuntimeLedger.StoreStaysBounded` | Realization/TrustworthinessChecker/src/runtime/constraints/runtime.rs:342-371 | So after every run the store holds at most `longest_dep(x)` entries of each stream `x` |
| `Retentions.ReadableIsStored` | Realization/TrustworthinessChecker/src/runtime/constraints/runtime.rs:138-156 | For every specification and every run: of all that was ever resolved or provided, exactly the values within the retention of their variable are in the store when the next step begins, so whatever an expression can read then, if it was ever recorded |
| `Retentions.LedgerRetained` | Realization/TrustworthinessChecker/src/runtime/constraints/runtime.rs:138-156 | The same from any state on, with or without clean-ups |
| `Retentions.InputsRetained` | Realization/TrustworthinessChecker/src/runtime/constraints/runtime.rs:138-156 | The same for inputs |
| `Retentions.LedgerSame` | Realization/TrustworthinessChecker/src/runtime/constraints/runtime.rs:342-371 | In runs in which what outlives a step reads nothing that may be forgotten, everything ever resolved is the same with clean-ups and without |
| `Retentions.StoreIsWindow` | Realization/TrustworthinessChecker/src/runtime/constraints/runtime.rs:342-371 | There the store of the monitor that forgets is, within the retention, that of the one that keeps everything, and nothing beyond |
| `RuntimeObject.Runtime.constructor` | Realization/TrustworthinessChecker/src/runtime/constraints/runtime.rs:43-53 | A new runtime is in the start state of the specification |
| `RuntimeObject.Runtime.RecordInputs` | Realization/TrustworthinessChecker/src/runtime/constraints/runtime.rs:60-66 | The recording loop appends the inputs with the present time |
| `RuntimeObject.Runtime.FoldRound` | Realization/TrustworthinessChecker/src/runtime/constraints/runtime.rs:69-94 | One round of the loop folds every equation, and reports a change exactly if there was one |
| `RuntimeObject.Runtime.FoldExprs` | Realization/TrustworthinessChecker/src/runtime/constraints/runtime.rs:69-94 | The loop ends in the folded equations, or the solver has panicked |
| `RuntimeObject.Runtime.ReceiveInputs` | Realization/TrustworthinessChecker/src/runtime/constraints/runtime.rs:55-104 | Receiving inputs records, folds and pins, in this order, or the solver panics |
| `RuntimeObject.Runtime.AddUnresolved` | Realization/TrustworthinessChecker/src/runtime/constraints/runtime.rs:96-103 | The loop adds one pinned item for each output behind those that wait |
| `RuntimeObject.Runtime.ResolveRound` | Realization/TrustworthinessChecker/src/runtime/constraints/runtime.rs:109-134 | One round is one pass over the old items, and reports a change exactly if it resolved something |
| `RuntimeObject.Runtime.ResolvePossible` | Realization/TrustworthinessChecker/src/runtime/constraints/runtime.rs:106-135 | The loop computes the fixed point of the passes and ends |
| `RuntimeObject.Runtime.Retain` | Realization/TrustworthinessChecker/src/runtime/constraints/runtime.rs:149-153 | The retained values are the recent ones in order |
| `RuntimeObject.Runtime.Trim` | Realization/TrustworthinessChecker/src/runtime/constraints/runtime.rs:146-154 | Every stream of a collection is trimmed by its own retention |
| `RuntimeObject.Runtime.Cleanup` | Realization/TrustworthinessChecker/src/runtime/constraints/runtime.rs:138-156 | Inputs and resolved outputs are trimmed, nothing else changes |
| `RuntimeObject.Runtime.Step` | Realization/TrustworthinessChecker/src/runtime/constraints/runtime.rs:158-166 | A step in place is the step on values, panics included |
| `RuntimeObject.Runtime.SendResolved` | Realization/TrustworthinessChecker/src/runtime/constraints/runtime.rs:351-360 | Each output sends the value of the time its counter has come to, if it is resolved, and only then counts on |
| `RuntimeObject.Runtime.Monitor` | Realization/TrustworthinessChecker/src/runtime/constraints/runtime.rs:342-371 | The loop of step, send and clean-up is the run of the monitor with its counters |
| `RuntimeObject.PassFromStep` | Realization/TrustworthinessChecker/src/runtime/constraints/runtime.rs:113-131 | One turn of the inner loop sees the values resolved by earlier turns but the unresolved items of before |
| `RuntimeObject.ResolveFromStep` | Realization/TrustworthinessChecker/src/runtime/constraints/runtime.rs:108-134 | One turn of the outer loop |
| `RuntimeObject.MonitorFromStep` | Realization/TrustworthinessChecker/src/runtime/constraints/runtime.rs:347-370 | One turn of the monitor loop |
| `SendCounters.StepComplete` | Realization/TrustworthinessChecker/src/runtime/constraints/runtime.rs:158-166 | A step that leaves nothing unresolved has resolved every output for its own time |
| `SendCounters.CountersAreTheClock` | Realization/TrustworthinessChecker/src/runtime/constraints/runtime.rs:348-360 | As long as nothing outlives its step the counters keep pace with the clock, so what the monitor sends is what the step has resolved for its own time |
| `SendCounters.SendingIsUnaffected` | Realization/TrustworthinessChecker/src/runtime/constraints/runtime.rs:348-371 | So then the monitor with its counters, too, sends the same whether it forgets or not |
| `SendCounters.SentInOrder` | Realization/TrustworthinessChecker/src/runtime/constraints/runtime.rs:348-360 | For every specification, the n-th value sent for an output is one resolved for the n-th time, however late: none is skipped, repeated or out of order |
| `Dependencies.DepsFollowTrace` | Realization/TrustworthinessChecker/src/dep_manage/graph_based.rs:113-166 | The traversal of an expression is a scan over its variables and indices in visiting order: offsets are pushed and never popped |
| `Dependencies.TraceDepsExactly` | Realization/TrustworthinessChecker/src/dep_manage/graph_based.rs:113-166 | `(x, w)` is recorded if and only if `x` is read at a point where the offset `w` is in force |
| `Dependencies.RecordedExactly` | Realization/TrustworthinessChecker/src/dep_manage/graph_based.rs:113-172 | The same for whole expressions: what is recorded depends on everything visited before a variable |
| `Dependencies.TraceIsReading` | Realization/TrustworthinessChecker/src/dep_manage/graph_based.rs:113-172 | For every constructor the traversal visits variables and indices in the order of the text, an index before what it applies to |
| `Dependencies.OccursRecorded` | Realization/TrustworthinessChecker/src/dep_manage/graph_based.rs:113-172 | A variable has a recorded dependency if and only if it occurs somewhere in the expression, below whatever constructors |
| `Dependencies.InstantHidden` | Realization/TrustworthinessChecker/src/dep_manage/graph_based.rs:131-134 | `a[-1] + x` is recorded as `(a + x)[-1]`, so the instantaneous dependency on `x` is not seen |
| `Dependencies.StepsReachVars` | Realization/TrustworthinessChecker/src/dep_manage/graph_based.rs:113-166 | An offset in force at an expression is recorded for every variable of it |
| `Dependencies.RecordedIsRetained` | Realization/TrustworthinessChecker/src/dep_manage/graph_based.rs:113-172 | A retention that covers all recorded offsets is sufficient for the expression, leaks notwithstanding |
| `Dependencies.ChainDenotes` | Realization/TrustworthinessChecker/src/dep_manage/graph_based.rs:131-134 | A variable under several indices denotes the variable shifted by their sum |
| `Dependencies.ChainDeps` | Realization/TrustworthinessChecker/src/dep_manage/graph_based.rs:131-134 | But each index is recorded on its own |
| `Dependencies.OneShift` | Realization/TrustworthinessChecker/src/dep_manage/graph_based.rs:131-134 | The sum of non-positive offsets is zero or one of them exactly if at most one is not zero |
| `Dependencies.ChainRetention` | Realization/TrustworthinessChecker/src/dep_manage/graph_based.rs:248-274 | The recorded retention of a variable under indices reaches as far as it is read back if and only if at most one index is not zero |
| `Dependencies.ChainPinned` | Realization/TrustworthinessChecker/src/runtime/constraints/solver.rs:217-228 | Pinned to a time, a variable under several indices is read at the innermost offset, whatever the others are |
| `Dependencies.ChainMisread` | Realization/TrustworthinessChecker/src/runtime/constraints/solver.rs:217-228 | So pinning keeps the meaning of a variable under indices, in all environments and at all times, if and only if no offset but the innermost one shifts |
| `DepGraphs.SwapRemove` | Realization/TrustworthinessChecker/src/dep_manage/graph_based.rs:104-106 | Removing an edge by moving the last one into its place removes just one copy of that edge |
| `DepGraphs.DepGraph.Empty` | Realization/TrustworthinessChecker/src/dep_manage/graph_based.rs:209-213 | An empty graph has no nodes and no edges |
| `DepGraphs.DepGraph.AddNode` | Realization/TrustworthinessChecker/src/dep_manage/graph_based.rs:64-69 | A node is added at the end and no edge changes |
| `DepGraphs.DepGraph.AddEdge` | Realization/TrustworthinessChecker/src/dep_manage/graph_based.rs:76-76 | One edge is added |
| `DepGraphs.DepGraph.RemoveEdge` | Realization/TrustworthinessChecker/src/dep_manage/graph_based.rs:104-106 | One edge is removed, whichever indices change |
| `DepGraphs.DepGraph.FindEdgeWithWeight` | Realization/TrustworthinessChecker/src/dep_manage/graph_based.rs:36-51 | The index found is that of an edge with both ends and the weight; none is found only if there is none |
| `DepGraphs.DepGraph.MapNodes` | Realization/TrustworthinessChecker/src/dep_manage/graph_based.rs:56-69 | Names stay unique, every name of both graphs has a node, and the map leads to the node of that name |
| `DepGraphs.DepGraph.MergeGraphs` | Realization/TrustworthinessChecker/src/dep_manage/graph_based.rs:55-78 | Merging adds the missing names once each and every edge of the other graph by name |
| `DepGraphs.DepGraph.RemoveIfPresent` | Realization/TrustworthinessChecker/src/dep_manage/graph_based.rs:103-106 | One copy of the edge is removed if there is one |
| `DepGraphs.DepGraph.DiffGraphs` | Realization/TrustworthinessChecker/src/dep_manage/graph_based.rs:80-108 | Diffing subtracts the other graph's edges as a multiset, saturating, although each removal renumbers edges |
| `DepGraphs.DepGraph.RecordRead` | Realization/TrustworthinessChecker/src/dep_manage/graph_based.rs:121-130 | Reading a variable adds a node and one edge for each offset in force, or one of weight 0 |
| `DepGraphs.DepGraph.DepsImpl` | Realization/TrustworthinessChecker/src/dep_manage/graph_based.rs:114-166 | The recursive traversal adds exactly the recorded dependencies and returns the offsets it has collected |
| `DepGraphs.DepGraph.ChildDepsImpl` | Realization/TrustworthinessChecker/src/dep_manage/graph_based.rs:135-165 | The same for the operands of a node, in order |
| `DepGraphs.DepGraph.SexprDependencies` | Realization/TrustworthinessChecker/src/dep_manage/graph_based.rs:168-177 | The graph of an equation is its recorded dependencies, a node for every reading |
| `DepGraphs.DepGraph.constructor` | Realization/TrustworthinessChecker/src/dep_manage/graph_based.rs:229-236 | The graph of a specification has unique names and the recorded dependencies of all its equations |
| `DepGraphs.DepGraph.AddDependency` | Realization/TrustworthinessChecker/src/dep_manage/graph_based.rs:238-241 | Adding a dependency adds its edges and keeps names unique |
| `DepGraphs.DepGraph.RemoveDependency` | Realization/TrustworthinessChecker/src/dep_manage/graph_based.rs:243-246 | Removing one takes its edges away as far as they are there, and keeps names unique |
| `DepGraphs.DepGraph.LongestInto` | Realization/TrustworthinessChecker/src/dep_manage/graph_based.rs:250-258 | The longest weight on edges into a node, or 0 |
| `DepGraphs.DepGraph.LongestTimeDependency` | Realization/TrustworthinessChecker/src/dep_manage/graph_based.rs:248-260 | `None` exactly for an unknown name, else the longest weight into it |
| `DepGraphs.DepGraph.LongestTimeDependencies` | Realization/TrustworthinessChecker/src/dep_manage/graph_based.rs:262-274 | The same for every name at once |
| `DepGraphs.NoSuchEdge` | Realization/TrustworthinessChecker/src/dep_manage/graph_based.rs:43-51 | With unique names, no edge between two indices means no edge between their names |
| `DepGraphs.SpecLabelsHave` | Realization/TrustworthinessChecker/src/dep_manage/graph_based.rs:229-236 | Every recorded dependency of every equation is an edge of the specification's graph |
| `DepGraphs.RunIsNet` | Realization/TrustworthinessChecker/src/dep_manage/graph_based.rs:238-246 | Over any sequence of additions and removals, every edge's multiplicity is its net count at all moments if and only if that count is never negative |
| `DepGraphs.RemoveFirst` | Realization/TrustworthinessChecker/src/dep_manage/graph_based.rs:238-246 | Removing a dependency before adding it is not the same as adding it first |
| `DepGraphs.TotalReordered` | Realization/TrustworthinessChecker/src/dep_manage/graph_based.rs:238-241 | What is added does not depend on the order of additions |
| `DepGraphs.RemovingRestores` | Realization/TrustworthinessChecker/src/dep_manage/graph_based.rs:238-246 | Removing what was added, in any order, restores exactly the previous multiset of edges |
| `ConstraintMonitors.GraphRetains` | Realization/TrustworthinessChecker/src/dep_manage/graph_based.rs:262-274 | The longest dependencies of the specification's graph retain all that a past-only specification without nested indices can read |
| `ConstraintMonitors.RunMonitor` | Realization/TrustworthinessChecker/src/runtime/constraints/runtime.rs:317-376 | Graph, runtime and loop together are the run of the monitor with its counters and some retention, which is sufficient for past-only specifications without nested indices |
| `ConstraintMonitors.MonitorSpec` | Realization/TrustworthinessChecker/src/runtime/constraints/runtime.rs:317-376 | What they send is what a monitor sends that never forgets, on every input on which nothing outlives its step in that one |
| `ConstraintMonitors.RunnableIsProductive` | Realization/TrustworthinessChecker/src/runtime/constraints/runtime.rs:317-376 | A specification without instantaneous cycles, with any retention sufficient for it, is productive |
| `ConstraintMonitors.MonitorDenotation` | Realization/TrustworthinessChecker/src/runtime/constraints/runtime.rs:317-376 | For specifications without instantaneous cycles whose operands are in order, what is sent are the values of the streams at every time, and the monitor panics only if one has no value |
| `SimpleMonitors.MonitorOne` | Realization/TrustworthinessChecker/src/lola_fixtures.rs:145-158 | For `z = x op y` the monitor, on all inputs, sends the results of the operator in order, one for each pair of inputs, and panics if and only if one of them has no result |
| `SimpleMonitors.MonitorSum` | Realization/TrustworthinessChecker/src/lola_fixtures.rs:145-158 | For `z = x + y` on integers every row sent holds the sum of the two inputs of that time |
| `SimpleMonitors.MonitorProduct` | Realization/TrustworthinessChecker/src/lola_fixtures.rs:145-158 | For `z = x * y` their product |
| `SimpleMonitors.MonitorConcatenation` | Realization/TrustworthinessChecker/src/lola_fixtures.rs:145-158 | For strings and `++` the two strings one behind the other |
| `ConstraintMonitors.KeepUnused` | Realization/TrustworthinessChecker/src/runtime/constraints/runtime.rs:342-371 | A monitor that never forgets does not depend on the retention |
| `Parsers.NormIsIdentity` | Realization/TrustworthinessChecker/src/lang/dynamic_lola/ast.rs:485-488 | What printing does to comparisons changes nothing if and only if there is no `<`, `>` or `>=` |
| `Parsers.LevelAtom` | Realization/TrustworthinessChecker/src/lang/dynamic_lola/parser.rs:549-563 | An atom that no operator of a level or above follows is read whole at that level |
| `Parsers.LevelPair` | Realization/TrustworthinessChecker/src/lang/dynamic_lola/parser.rs:549-563 | Two atoms with an operator between them are read as that operator applied to both |
| `Parsers.NamesPrint` | Realization/TrustworthinessChecker/src/lang/dynamic_lola/parser.rs:190-207 | A printed set of names is read back, in order |
| `Parsers.ExprPrint` | Realization/TrustworthinessChecker/src/lang/dynamic_lola/parser.rs:565-572 | A printed expression in front of something that closes it is read back up to the comparisons |
| `Parsers.IfPrint` | Realization/TrustworthinessChecker/src/lang/dynamic_lola/parser.rs:72-90 | A printed conditional is read with whatever follows its `else` as the last branch |
| `Parsers.RestrictedPrint` | Realization/TrustworthinessChecker/src/lang/dynamic_lola/parser.rs:171-188 | A printed restricted dynamic expression is read back |
| `Parsers.DynamicPrint` | Realization/TrustworthinessChecker/src/lang/dynamic_lola/parser.rs:155-169 | A printed plain one is not mistaken for a restricted one |
| `Parsers.PrimaryPrint` | Realization/TrustworthinessChecker/src/lang/dynamic_lola/parser.rs:57-70 | A printed literal, variable or parenthesised operator is what an index applies to |
| `Parsers.AtomPrint` | Realization/TrustworthinessChecker/src/lang/dynamic_lola/parser.rs:420-455 | A printed atom is read back and leaves what follows |
| `Parsers.KeywordPrint` | Realization/TrustworthinessChecker/src/lang/dynamic_lola/parser.rs:420-455 | The same for the forms that start with a keyword or `!` |
| `Parsers.ParsePrint` | Realization/TrustworthinessChecker/src/lang/dynamic_lola/parser.rs:14-16 | Parsing the printed form of a printable expression gives it back with nothing left over, comparisons as printed |
| `RoundTrips.RoundTrip` | Realization/TrustworthinessChecker/src/lang/dynamic_lola/ast.rs:468-526 | Over all expressions: parsing undoes printing if and only if literals are booleans, integers of 64 bits and floats not equal to one, there are no lists, indices are applied to literals, variables and operators, no left operand ends in an open `else` branch, and there is no `<`, `>` or `>=` |
| `RoundTrips.FloatRoundTrip` | Realization/TrustworthinessChecker/src/lang/core/parser.rs:37-60 | A printed float comes back as it was, unless it equals an integer of 64 bits, which is what is read then |
| `RoundTrips.IntegerRoundTrip` | Realization/TrustworthinessChecker/src/lang/core/parser.rs:45-52 | An integer is read back as itself if and only if it is from minus two to the power of 63 up to below two to the power of 63 |
| `RoundTrips.AtomBack` | Realization/TrustworthinessChecker/src/lang/dynamic_lola/parser.rs:420-455 | What is read from its own print as it was, in front of anything, is such an expression, by reading it part by part |
| `TokenWeights.ExprWeighs` | Realization/TrustworthinessChecker/src/lang/dynamic_lola/parser.rs:565-572 | Parsing neither loses nor invents a token but parentheses, and never reads over a closing parenthesis that it has not opened |
| `TokenWeights.PrintWeighs` | Realization/TrustworthinessChecker/src/lang/dynamic_lola/ast.rs:468-526 | Printing gives exactly the tokens of the expression and balanced parentheses |
| `RoundTrips.LevelSplit` | Realization/TrustworthinessChecker/src/lang/dynamic_lola/parser.rs:549-563 | If an operator is read at some level, its left operand is the first atom, with the operator and its right operand next in the input, or is itself an operator bigger than the first atom |
| `RoundTrips.OpenGoesOn` | Realization/TrustworthinessChecker/src/lang/dynamic_lola/parser.rs:72-90 | An open conditional does not stop in front of an operator and an operand |
| `OperatorChains.IndexRoundTrip` | Realization/TrustworthinessChecker/src/lang/dynamic_lola/ast.rs:474-474 | A printed index comes back if and only if it is applied to a literal, a variable or an operator |
| `OperatorChains.SwallowExpr` | Realization/TrustworthinessChecker/src/lang/dynamic_lola/parser.rs:72-90 | What is read instead when the left operand is a conditional: its `else` branch takes in the operator and the right operand |
| `OperatorChains.SwallowAtom` | Realization/TrustworthinessChecker/src/lang/dynamic_lola/parser.rs:227-237 | The same below negations |
| `OperatorChains.OperandRoundTrip` | Realization/TrustworthinessChecker/src/lang/dynamic_lola/ast.rs:473-473 | A printed operator comes back if and only if its left operand does not end in an open `else` branch |
| `OperatorChains.FoldIsTree` | Realization/TrustworthinessChecker/src/lang/dynamic_lola/parser.rs:558-560 | Folding to the left is splitting at the last operator of the level |
| `OperatorChains.LevelChain` | Realization/TrustworthinessChecker/src/lang/dynamic_lola/parser.rs:549-563 | At every level the parser reads a chain of operators of that level and above as it is meant |
| `OperatorChains.ChainParses` | Realization/TrustworthinessChecker/src/lang/dynamic_lola/parser.rs:473-491 | A flat chain of operators is read as the tree split at the last operator of the lowest level that occurs, and so on below |
| `Precedences.BindsTighter` | Realization/TrustworthinessChecker/src/lang/dynamic_lola/parser.rs:473-491 | With the thirteen operators listed in order and any two of them, the later one binds tighter: `a op1 b op2 c` is read as `a op1 (b op2 c)` and `a op2 b op1 c` as `(a op2 b) op1 c`, for all printable operands of which the first two do not end in an open conditional |
| `Precedences.GroupsLeft` | Realization/TrustworthinessChecker/src/lang/dynamic_lola/parser.rs:549-563 | `a op b op c` is read as `(a op b) op c`, for every operator |
| `Precedences.LevelIsPlace` | Realization/TrustworthinessChecker/src/lang/dynamic_lola/parser.rs:473-491 | The level of an operator is its place in that list |
| `OperatorChains.SubtractionIsLooser` | Realization/TrustworthinessChecker/src/lang/dynamic_lola/parser.rs:484-486 | `a - b + c` is read as `a - (b + c)` |
| `Masks.RoundNear` | Realization/lidarocclusion/lidarocclusion/masks.py:309-309 | Rounding is to a nearest integer, to the even one of two |
| `Masks.RoundNegates` | Realization/lidarocclusion/lidarocclusion/masks.py:323-323 | An angle and its negative are the same number of points |
| `Masks.AtRotate` | Realization/lidarocclusion/lidarocclusion/masks.py:305-316 | After a rotation each bearing has the value of the bearing so many points before it, around the circle |
| `Masks.RotateCuts` | Realization/lidarocclusion/lidarocclusion/masks.py:305-316 | Rotating is cutting the circle open elsewhere |
| `Masks.WeakenAt` | Realization/lidarocclusion/lidarocclusion/masks.py:428-429 | After weakening a bearing is seen if and only if one it is widened from was |
| `Masks.StrengthenAt` | Realization/lidarocclusion/lidarocclusion/masks.py:425-426 | After strengthening it is seen if and only if all of them were |
| `Masks.Galois` | Realization/lidarocclusion/lidarocclusion/masks.py:425-429 | Weakening by `n` and strengthening by `-n` form a Galois connection, for every signed `n` |
| `Masks.DeMorgan` | Realization/lidarocclusion/lidarocclusion/masks.py:422-429 | They are duals under inversion at equal `n` |
| `Masks.WeakenAdds` | Realization/lidarocclusion/lidarocclusion/masks.py:318-333 | Weakening twice in one direction adds up |
| `Masks.StrengthenAdds` | Realization/lidarocclusion/lidarocclusion/masks.py:318-333 | So does strengthening |
| `Masks.WeakenRotates` | Realization/lidarocclusion/lidarocclusion/masks.py:318-333 | Weakening commutes with rotation |
| `Masks.StrengthenRotates` | Realization/lidarocclusion/lidarocclusion/masks.py:318-333 | So does strengthening |
| `Masks.WeakenMonotone` | Realization/lidarocclusion/lidarocclusion/masks.py:428-429 | Weakening keeps the order of masks |
| `Masks.StrengthenMonotone` | Realization/lidarocclusion/lidarocclusion/masks.py:425-426 | So does strengthening |
| `Masks.CleanUpKeepsLongRuns` | Realization/Nodes/Analysis/Analysis.py:99-104 | After the four calls a bearing is occluded if and only if it lies in a circular run of `2n+1` consecutive occluded bearings: shorter occlusions vanish, longer ones stay as they are |
| `Masks.CleanUpIsClosing` | Realization/Nodes/Analysis/Analysis.py:99-104 | The clean-up only adds seen bearings, keeps the order of masks, and doing it twice is doing it once |
| `Masks.CleanIsCleanUp` | Realization/Nodes/Analysis/Analysis.py:101-104 | The four calls with an angle are the clean-up with that angle in points |
| `Masks.DistDefined` | Realization/lidarocclusion/lidarocclusion/masks.py:448-454 | Two masks of the asserted shape have a distance if and only if their base angles are equal |
| `Masks.DistIsMetric` | Realization/lidarocclusion/lidarocclusion/masks.py:448-454 | The distance of masks with one base angle is a metric |
| `Masks.DistRotates` | Realization/lidarocclusion/lidarocclusion/masks.py:448-454 | Turning both masks alike does not change it |
| `Masks.TimesIsProduct` | Realization/lidarocclusion/lidarocclusion/masks.py:454-454 | The angle of so many bearings is the product |
| `SlidingMeans.MeanWithin` | Realization/lidarocclusion/lidarocclusion/sliding_lidar_masks.py:34-37 | Every mean lies between 0 and 1 |
| `SlidingMeans.MeanSlides` | Realization/lidarocclusion/lidarocclusion/sliding_lidar_masks.py:25-25 | Adding the scaled difference of the new and the dropped mask turns the mean of one window into that of the next |
| `SlidingMeans.LastGrows` | Realization/lidarocclusion/lidarocclusion/sliding_lidar_masks.py:18-23 | Appending, and dropping the oldest when there are too many, keeps the last `w` masks |
| `SlidingMeans.SlidingMean.constructor` | Realization/lidarocclusion/lidarocclusion/sliding_lidar_masks.py:10-11 | The generator starts with no masks |
| `SlidingMeans.SlidingMean.Next` | Realization/lidarocclusion/lidarocclusion/sliding_lidar_masks.py:14-39 | Each yield, when it is yielded, is the pointwise mean of the last `min(k, w)` masks; it is a new mask during the warm-up and the old one updated in place afterwards |
| `SlidingMeans.AddScaled` | Realization/lidarocclusion/lidarocclusion/masks.py:221-229 | The in-place addition changes every value by the scaled difference |
| `SlidingMeans.Scaled` | Realization/lidarocclusion/lidarocclusion/masks.py:279-283 | Scaling makes a new mask |
| `SlidingMeans.SumOf` | Realization/lidarocclusion/lidarocclusion/sliding_lidar_masks.py:34-37 | The sum over the window, from a scalar zero on |
| `SlidingMeans.ScanList.constructor` | Realization/Nodes/Analysis/Analysis.py:55-55 | No scans have come and none has been consumed |
| `SlidingMeans.ScanList.Append` | Realization/Nodes/Analysis/Analysis.py:90-90 | A scan is added behind the others |
| `SlidingMeans.ScanList.Resume` | Realization/Nodes/Analysis/Analysis.py:60-65 | Resuming the generator yields the next scan of the growing list that has not been consumed |
| `SlidingMeans.ScanAnalysis.constructor` | Realization/Nodes/Analysis/Analysis.py:55-75 | The analysis starts with no scans and no masks |
| `SlidingMeans.ScanAnalysis.Analyse` | Realization/Nodes/Analysis/Analysis.py:90-104 | The `k`-th call consumes the `k`-th scan; its mask is made of the mean of the last scans of the window, turned, compared to the threshold and cleaned up, by the angles that the analysis is written with |
| `SlidingMeans.Turned` | Realization/Nodes/Analysis/Analysis.py:92-92 | Turning makes a new mask |
| `SlidingMeans.ThresholdTurned` | Realization/Nodes/Analysis/Analysis.py:92-99 | Turning the mean before thresholding it or the mask afterwards makes no difference |
| `SlidingMeans.AnalysedInPoints` | Realization/Nodes/Analysis/Analysis.py:92-104 | In points, the turn is a quarter of the circle backwards and the clean-up a 96th of it, both rounded |
| `ScanOcclusions.PublishedOccluded` | Realization/Nodes/Analysis/Analysis.py:38-104 | From the ranges to what is published: a bearing is occluded if and only if, a quarter of the circle further on, it lies in a stretch of 2m + 1 bearings, m a 96th of the circle, each of which has a finite range in fewer than three of ten scans of the window |
| `ScanOcclusions.StretchOccluded` | Realization/Nodes/Analysis/Analysis.py:38-104 | If all scans of the window are infinite at the bearings of a long enough stretch and finite at all others, exactly the bearings of the stretch are published as occluded |
| `SlidingMeans.Above` | Realization/Nodes/Analysis/Analysis.py:99-99 | The threshold, bearing by bearing |
| `RotationPlanner.CommandTurns` | Realization/Nodes/Plan/Plan.py:79-84 | Direction times duration of a command is the angle it was made from |
| `RotationPlanner.LengthBound` | Realization/Nodes/Plan/Plan.py:44-76 | A walk of rotations by any real angles is at least as long as twice the stretch it covers, less how far from its start it ends |
| `RotationPlanner.NoShorterWalk` | Realization/Nodes/Plan/Plan.py:44-76 | Every closed walk of rotations by any real angles over both extremes on the circle has length at least a full turn or twice their distance |
| `RotationPlanner.AnglesInRange` | Realization/Nodes/Plan/Plan.py:50-58 | The extremes lie on either side of straight ahead and within half a turn |
| `RotationPlanner.PlanFails` | Realization/Nodes/Plan/Plan.py:62-76 | The planner fails if and only if the mask has odd size, or its extremes are symmetric, not zero and at most half a turn apart |
| `RotationPlanner.PlanFailsWitness` | Realization/Nodes/Plan/Plan.py:75-76 | A mask with one occluded bearing on either side for which it does |
| `RotationPlanner.RotationsShape` | Realization/Nodes/Plan/Plan.py:62-76 | For given extremes: the rotations return, and their length and the stretch they cover |
| `RotationPlanner.ExtremesSwept` | Realization/Nodes/Plan/Plan.py:62-76 | They pass over every bearing between the extremes |
| `RotationPlanner.AngleIsBearing` | Realization/Nodes/Plan/Plan.py:51-54 | The signed angle of a bearing is that bearing, up to full turns |
| `RotationPlanner.FartherFirst` | Realization/Nodes/Plan/Plan.py:71-74 | There are three rotations if and only if the extremes are on either side, not symmetric and at most half a turn apart; the first one goes to the farther extreme, the second one on to the other |
| `RotationPlanner.PlanIsRight` | Realization/Nodes/Plan/Plan.py:44-76 | A plan brings the robot back to where it started and passes over every occluded bearing, which is given by its index alone, so on the right side |
| `RotationPlanner.ExtremesShortest` | Realization/Nodes/Plan/Plan.py:62-76 | No closed walk of rotations by any real angles over both extremes is shorter than the rotations, of length `min(2, 2(y - x))` |
| `RotationPlanner.PlanIsShortest` | Realization/Nodes/Plan/Plan.py:44-76 | No closed walk of rotations by any real angles over every occluded bearing is shorter than the plan |
| `AnomalyRuns.DiffersIsDistance` | Realization/Nodes/Analysis/Analysis.py:141-141 | With a planned mask, whole numbers decide the comparison as the distance of the two masks against the sensitivity does |
| `AnomalyRuns.FirstAnomaly` | Realization/Nodes/Analysis/Analysis.py:129-145 | With nothing planned yet, the callback records the mask, and if the flag is down it raises it and reports an anomaly if and only if the bearings seen cover more than 1/48 of half a turn |
| `AnomalyRuns.NextAnomaly` | Realization/Nodes/Analysis/Analysis.py:129-145 | With a planned mask it does so if and only if the masks have the same size and their distance exceeds 1/48 of half a turn |
| `AnomalyRuns.FirstRound` | Realization/Nodes/Execute/Execute.py:39-52 | From the start, undisturbed: if what is seen covers enough and there are rotations for it, one round of the three callbacks publishes these, for the mask recorded as planned, and leaves the flag down with nothing on its way |
| `AnomalyRuns.LostReportSticks` | Realization/Nodes/Analysis/Analysis.py:144-145 | The report of the first anomaly can be lost, and then the loop is stuck |
| `AnomalyRuns.LostPlanSticks` | Realization/Nodes/Plan/Plan.py:116-149 | So can the plan that answers it, with the same end |
| `AnomalyRuns.RunInv` | Realization/Nodes/Analysis/Analysis.py:115-148 | Every interleaving of the accesses of the three nodes, with events lost at any moment, keeps the protocol's invariant |
| `AnomalyRuns.OneRoundAtATime` | Realization/Nodes/Analysis/Analysis.py:121-145 | Pending reports, planning rounds not yet published, pending plans and execution rounds not yet reset are at most one together, and none while the flag is down |
| `AnomalyRuns.PublishedIsPlanned` | Realization/Nodes/Plan/Plan.py:116-149 | Whatever execution publishes was planned in the same round from the mask then recorded as planned, returns, and passes over all its occluded bearings, although the directions are written a second time after the event |
| `AnomalyRuns.StuckForEver` | Realization/Nodes/Analysis/Analysis.py:125-127 | Once the flag is up with nothing on its way, it stays so and nothing is published any more |
| `AnomalyRuns.LostRun` | Realization/Nodes/Plan/Plan.py:131-137 | A round is marked as lost exactly if an event was lost or a plan failed along the run |
| `AnomalyRuns.StuckExactlyWhenLost` | Realization/Nodes/Execute/Execute.py:46-52 | The loop is stuck if and only if some event was lost or some plan failed along the run |
| `AnomalyRuns.DoExtendsRun` | Realization/Nodes/Analysis/Analysis.py:115-148 | What a callback does extends the run |
| `AnomalyRuns.PlanEnds` | Realization/Nodes/Plan/Plan.py:116-150 | A planning callback that runs undisturbed ends with directions and an event, or with a lost round |
| `AnomalyRuns.Nodes.constructor` | Realization/Nodes/Analysis/Analysis.py:55-58 | The knowledge base starts with the flag down |
| `AnomalyRuns.Nodes.AnalyseScanData` | Realization/Nodes/Analysis/Analysis.py:115-148 | The callback of analysis in place; with nothing planned yet, the state it leaves is stated outright, by the bearings that are seen |
| `AnomalyRuns.Nodes.Planner` | Realization/Nodes/Plan/Plan.py:104-150 | The callback of planning in place |
| `AnomalyRuns.Nodes.Executer` | Realization/Nodes/Execute/Execute.py:39-52 | The callback of execution in place |
| `Assignments.NextOf` | Realization/TrustworthinessChecker/src/distributed/distribution_graphs.rs:418-449 | The iterator yields the first of what remains and leaves the rest, and yields nothing if nothing remains, then and ever after |
| `Assignments.VarAssignmentsIter.constructor` | Realization/TrustworthinessChecker/src/distributed/distribution_graphs.rs:398-412 | A new iterator for the given variables and locations |
| `Assignments.VarAssignmentsIter.Next` | Realization/TrustworthinessChecker/src/distributed/distribution_graphs.rs:418-449 | The same in place |
| `Assignments.VarAssignmentsIter.Collect` | Realization/TrustworthinessChecker/src/distributed/distribution_graphs.rs:452-457 | Taking items until there is none ends and gives all that remained, in order |
| `Assignments.YieldsPlacements` | Realization/TrustworthinessChecker/src/distributed/distribution_graphs.rs:397-450 | For distinct variables, an assignment is yielded if and only if it places exactly these variables, each on one of the locations, the empty cases included |
| `Assignments.YieldsOnce` | Realization/TrustworthinessChecker/src/distributed/distribution_graphs.rs:397-450 | For distinct locations, none is yielded twice |
| `Assignments.YieldsPower` | Realization/TrustworthinessChecker/src/distributed/distribution_graphs.rs:397-450 | There are `locations to the power of variables` of them |
| `Assignments.YieldsInOrder` | Realization/TrustworthinessChecker/src/distributed/distribution_graphs.rs:418-450 | The assignments come like numbers that are counted up, with the locations as digits and the first variable as the lowest place |
| `Assignments.PossibleVarAssignments` | Realization/TrustworthinessChecker/src/distributed/distribution_graphs.rs:452-457 | The enumeration is complete, without repetition, of that size and in that order |
| `Assignments.LabelsAreRight` | Realization/TrustworthinessChecker/src/distributed/distribution_graphs.rs:497-516 | Every node has a label, the central one exactly its own variables, any other one the variables placed on it, in their order and each as often as it is given |
| `Assignments.PlacedOnce` | Realization/TrustworthinessChecker/src/distributed/distribution_graphs.rs:497-516 | A variable placed on a node that is not central is in the label of that node and of no other such node |
| `Assignments.AllLabelsHave` | Realization/TrustworthinessChecker/src/distributed/distribution_graphs.rs:497-523 | The labellings of all placements are exactly the possible ones |
| `Assignments.PossibleLabelledDistGraphs` | Realization/TrustworthinessChecker/src/distributed/distribution_graphs.rs:467-524 | One labelling is yielded for each placement, and every possible labelling is among them |
| `TypeChecker.CheckedIsTyped` | Realization/TrustworthinessChecker/src/lang/dynamic_lola/type_checker.rs:602-675 | What the checker returns is well typed, and erasing its types gives the original expression |
| `TypeChecker.TypedIsChecked` | Realization/TrustworthinessChecker/src/lang/dynamic_lola/type_checker.rs:602-675 | Conversely every well-typed expression is what the checker returns for its erasure: the checker accepts all that can be typed |
| `TypeChecker.CheckRaw` | Realization/TrustworthinessChecker/src/lang/dynamic_lola/type_checker.rs:602-675 | The check appends to the error log exactly the errors of the parts that are themselves at fault, in order |
| `TypeChecker.CheckBinOp` | Realization/TrustworthinessChecker/src/lang/dynamic_lola/type_checker.rs:354-436 | The same for binary operators, both operands checked first |
| `TypeChecker.CheckDefault` | Realization/TrustworthinessChecker/src/lang/dynamic_lola/type_checker.rs:438-480 | The same for defaults |
| `TypeChecker.CheckIf` | Realization/TrustworthinessChecker/src/lang/dynamic_lola/type_checker.rs:482-536 | The same for conditionals, all three parts checked first |
| `TypeChecker.ErrorsAreFaults` | Realization/TrustworthinessChecker/src/lang/dynamic_lola/type_checker.rs:327-675 | An error is logged if and only if it is that of a part, at any place, whose operands all check but which does not itself: an undeclared variable under its name, an unknown value, or else a type error |
| `TypeChecker.NoErrors` | Realization/TrustworthinessChecker/src/lang/dynamic_lola/type_checker.rs:327-675 | Nothing is logged if and only if the expression checks |
| `TypeChecker.UndeclaredReported` | Realization/TrustworthinessChecker/src/lang/dynamic_lola/type_checker.rs:574-600 | A variable is reported as undeclared if and only if it occurs in the expression and has no annotation |
| `TypeChecker.AcceptedOperators` | Realization/TrustworthinessChecker/src/lang/dynamic_lola/type_checker.rs:354-436 | The accepted operators are those for which the solver has results on operands of the type, but for comparisons of floats, orders of strings and the orders of integers other than `<=`, and with equality of truth values |
| `TypeChecker.FloatsRefused` | Realization/TrustworthinessChecker/src/lang/dynamic_lola/type_checker.rs:438-571 | Indices, defaults and conditionals check on parts of every type but floats |
| `TypeChecker.TypeCheck` | Realization/TrustworthinessChecker/src/lang/dynamic_lola/type_checker.rs:303-325 | The errors of a specification are those of its equations, in order; it is accepted if and only if all its equations are and then there are none; its typed equations have the same keys and erase to the original ones |
| `TypeChecker.UnwrappedTyped` | Realization/TrustworthinessChecker/src/lang/dynamic_lola/type_checker.rs:316-319 | Without errors no result is missing, so unwrapping cannot fail |
| `TypeChecker.MeaningTyped` | Realization/TrustworthinessChecker/src/semantics/untimed_typed_lola/semantics.rs:39-245 | A well-typed expression has values of its type, or unknown ones |
| `TypeChecker.UnknownExactly` | Realization/TrustworthinessChecker/src/semantics/untimed_typed_lola/combinators.rs:11-107 | Where unknown values come from in the typed runtime: operators and negations if an operand is unknown, conditionals if the condition or the branch taken is, defaults if both parts are, indices before the first value |
| `TypeChecker.OperatorsAgree` | Realization/TrustworthinessChecker/src/semantics/untimed_typed_lola/combinators.rs:24-34 | The typed and the untyped operator agree on operands of its type if and only if neither is unknown |
| `TypeChecker.MeaningsAgree` | Realization/TrustworthinessChecker/src/semantics/untimed_typed_lola/semantics.rs:18-36 | The typed and the untyped runtime agree at every time at which no operator meets an unknown value |
| `TypeChecker.MeaningsDiffer` | Realization/TrustworthinessChecker/src/semantics/untimed_untyped_lola/combinators.rs:77-83 | Before the first value, `a[-1] && a` is false to the untyped runtime and unknown to the typed one |
| `TypeChecker.GuardedIsKnown` | Realization/TrustworthinessChecker/src/semantics/untimed_typed_lola/combinators.rs:174-183 | If every look into the past is given a default before it is used, no operator ever meets an unknown value |
| `TypeChecker.GuardedAgrees` | Realization/TrustworthinessChecker/src/semantics/untimed_typed_lola/semantics.rs:18-36 | So for a checked expression written in that way both runtimes agree at all times, in every environment that matches the annotations |
| `TypeChecker.StraightAgrees` | Realization/TrustworthinessChecker/src/semantics/untimed_typed_lola/semantics.rs:18-36 | For literals, variables, negations, operators other than division and remainder, and looks into the past, in every environment that matches the annotations: both runtimes agree at all times if and only if no operator or negation is applied to what may look back |
| `TypeChecker.UnknownAtFirst` | Realization/TrustworthinessChecker/src/semantics/untimed_typed_lola/combinators.rs:174-183 | Such an expression is unknown to the typed runtime exactly for as many steps as it looks back |
| `TypeChecker.AnnotationUnchecked` | Realization/TrustworthinessChecker/src/lang/dynamic_lola/type_checker.rs:303-325 | `y = "s"` with `y` annotated as an integer is accepted, and no streams that solve it match the annotation |
| `TypeChecker.SolutionsMatch` | Realization/TrustworthinessChecker/src/lang/dynamic_lola/type_checker.rs:303-325 | Streams that solve an accepted specification on matching inputs match all annotations if and only if every annotated equation has the annotated type and is never unknown |
| `TypeChecker.HonestSolutions` | Realization/TrustworthinessChecker/src/lang/dynamic_lola/type_checker.rs:303-325 | If the equations guard and default their looks into the past, the types alone decide, and streams that match the annotations solve the typed equations if and only if they solve the untyped ones |
| `TypeChecker.RuntimesAgree` | Realization/TrustworthinessChecker/src/semantics/untimed_untyped_lola/combinators.rs:97-163 | The stream runtime and the constraint solver agree on an operator wherever the solver has a result, if and only if it does not ask whether a float equals, or is at least, an integer that it equals |
| `TypeChecker.Errors.constructor` | Realization/TrustworthinessChecker/src/lang/dynamic_lola/type_checker.rs:306-306 | The log starts empty |
| `TypeChecker.Errors.Push` | Realization/TrustworthinessChecker/src/lang/dynamic_lola/type_checker.rs:327-351 | One error is appended |
| `FixDynamics.InstalledAt` | Realization/TrustworthinessChecker/src/lang/dynamic_lola/ast.rs:305-396 | At every place of an equation, at any depth: a plain dynamic expression is given the list of exactly the declared variables other than its own, in the order of their declaration, which binds each to its own stream; a written list keeps exactly its allowed names, in their order, and they are bound to their own streams if and only if they are in the order of the declarations, each once |
| `FixDynamics.TraverseRestricts` | Realization/TrustworthinessChecker/src/lang/dynamic_lola/ast.rs:310-383 | After the rewrite every dynamic expression, at any depth, is restricted, and to the given variables only; which ones exactly is said by `FixDynamics.InstalledAt` |
| `FixDynamics.TraverseErases` | Realization/TrustworthinessChecker/src/lang/dynamic_lola/ast.rs:310-383 | Apart from its restrictions the expression is what it was |
| `FixDynamics.TraverseKeeps` | Realization/TrustworthinessChecker/src/lang/dynamic_lola/ast.rs:310-383 | The rewrite changes nothing if and only if there is nothing to be done |
| `FixDynamics.FixDynamicIsRight` | Realization/TrustworthinessChecker/src/lang/dynamic_lola/ast.rs:305-396 | The rewritten specification has the same equations, the same but for restrictions, none of them reads itself or an undeclared variable dynamically, and rewriting it again changes nothing |
| `FixDynamics.RestrictionBinds` | Realization/TrustworthinessChecker/src/runtime/asynchronous.rs:695-716 | A restricted context binds every name to its own stream if and only if the names are written in the order of the context, each once and each known to it |
| `FixDynamics.InstalledBinds` | Realization/TrustworthinessChecker/src/lang/dynamic_lola/ast.rs:384-395 | The declared variables without one, in order, are such a list; `FixDynamics.InstalledAt` says that it is the one installed |
| `FixDynamics.WrittenOrderSwaps` | Realization/TrustworthinessChecker/src/lang/dynamic_lola/ast.rs:317-325 | A user-written list in another order is kept in that order and gives two variables each other's streams |
| `Maple.PhaseOn` | Realization/TrustworthinessChecker/src/lola_fixtures.rs:216-230 | Each phase is on at a time if and only if the sequence has been kept to so far and has come to its letter |
| `Maple.MapleKept` | Realization/TrustworthinessChecker/src/lola_fixtures.rs:216-230 | The output is true at a time if and only if the stages up to then go round `m a p l e` from the start |
| `Maple.OnePhase` | Realization/TrustworthinessChecker/src/lola_fixtures.rs:216-230 | At most one phase is on at any time |
| `Maple.OnceFalse` | Realization/TrustworthinessChecker/src/lola_fixtures.rs:216-230 | Once the output is false it stays false |
| `MapleMonitor.SpecRunnable` | Realization/TrustworthinessChecker/src/lola_fixtures.rs:216-230 | The specification meets all that the monitor's correctness asks for, mutual dependence included |
| `MapleMonitor.SolvesIsSolution` | Realization/TrustworthinessChecker/src/lola_fixtures.rs:216-230 | Streams that solve the specification on stage inputs are a solution of the maple equations |
| `MapleMonitor.MonitorMaple` | Realization/TrustworthinessChecker/src/lola_fixtures.rs:216-230 | The monitor, run on any stages, sends true for the output at exactly the times up to which the stages go round the sequence |

## Left out

- VarManagers.VarManager.Tick: when nothing blocks it; ticks that wait for a permit or for room in a channel, or are cancelled midway, are steps of `Broadcast`.
- VarManagers.VarManager.RunLoop: with room in the channels for what is left of the input, no cancellation and no outstanding request; the other interleavings are runs of `Broadcast`.
- TypeChecker.MeaningsAgree: one direction for expressions with conditionals and defaults, in which an unknown operand may have no influence on the result; `TypeChecker.OperatorsAgree` is exact for a single operator and `TypeChecker.StraightAgrees` for expressions without them.
- TypeChecker.CheckRaw: for the constructors that the checker does not refuse with a panic; error messages and the types named in them are not modelled.
- ConstraintDenotations.MonitorComputesDenotation: for equations that folding does not panic on, and for a sufficient condition on operand order, exact for the specification of `OperandOrder.KeptBefore` only.
- GarbageCollection.ForgettingIsInvisible: under a sufficient condition on the run; an exact one is given for the specification of `LateRuns.ForgettingIsSeenExactly`.
- Dependencies.ChainRetention: for a variable under any number of indices, not for indices around larger expressions; neither is `Dependencies.ChainMisread`.
- AnomalyRuns.Nodes.AnalyseScanData: undisturbed by the other nodes, as the other two callbacks; interleavings are runs of the step relation.
- Floating point: floats are exact reals, without rounding, infinities and not-a-number; division of floats by zero counts as a panic; the comparison with the threshold and the angles of masks are exact.
- Machine integers: integers and offsets are unbounded, so no overflow of `i64`, `usize` or `isize`; only printed literals distinguish integers of 64 bits.
- Lists as values and list literals in equations; the printed forms of strings, lists, the unit and the unknown value, none of which is read back as what it was, are tokens that nothing reads.
- Characters: the parser is modelled over tokens, without whitespace, comments, or identifiers that start like a keyword or a literal. A printed number is one token, an integer if it has no decimal point and fits into 64 bits and a float otherwise, as the parser tries them; that the decimal form of a float gives its value back, and that the integer parser refuses numbers beyond 64 bits, is assumed.
- `dynamic`, `defer` and `update` at run time: no expression text is parsed while monitoring, so the runtime changes no dependency.
- The maps from names to lists of unresolved items are one ordered list of items; the order within and between names is kept. Outputs are resolved and sent in one order, of which nothing is asked.
- Nodes and edges of a graph are sequences in index order; `petgraph` itself, productivity by cycle search and effective monitorability are not part of this model.
- Contexts: their clock, nesting, subcontexts other than the restricted one, and history buffers.
- Fairness of the executor and liveness: nothing is said about a step ever being taken, except that a waiting tick is never stuck for good.
- The families of typed expressions, one per type, are one datatype with a typing predicate.
- The boxed iterator inside an assignment iterator is a value that is replaced as a whole.
- Lidar masks built from intervals, probability masks other than as sequences of numbers, plots, and the region behind the robot, which the analysis computes but does not use.
- The commands of a plan are modelled in units of the base angle, not as floats times pi.
- MQTT, Redis, ROS, files, serialisation, command line, dashboards, builders and orchestration.
- Schedulers, planners of the distributed runtime and their caching, and the grammar of distribution constraints, which would repeat the proofs about expressions.
