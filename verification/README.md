# Safety island verification

A Dafny model of the safety island's hard core, with proofs over every run of it:

1. **The supervised-deadline protocol** (`Judge`, `SupervisorSpec`, `RouteTable`, `ReactionPass`,
   `SupervisorRuns`, `FloorRuns`, `DirectPath`, `AgeWrap`, `SampleRuns`, `PassVerdicts`, `ResponseWatch`,
   `ResumeRuns`, and the class `Supervisor`): five routes with dues behind one
   timer, the reaction pass that judges them, the latch that is never released, the floor's verdicts, and
   the direct path that owns the two output slots, hands them to executor ticks and takes them back for good.
2. **The braking law** (`BrakeLaw`, `SettleBudget`, `OperatorSpec`, `BrakingRuns`, `BrakingLimits`, `SeedRuns`,
   `VelocityRuns`, and the class `EmergencyStopOperator`): the direct path's closed form, the operator's integrated ramp, the control moving
   between them, and the budget arithmetic.
3. **The MRM handler** (`HandlerSpec`, `HandlerRuns`, `BehaviorChoice`, `HandlerInputs`, `StartUp`, `TakeoverWindow`,
   the class `MrmHandler`) and
   its composition with the supervisor (`Island`, `IslandRuns`, `IslandFloor`), where a tick is not atomic: its
   supervisor calls follow one by one and reaction passes interleave anywhere; and with the operator as well
   (`WholeIsland`), where its requests travel in order and may be lost.
4. **The trace window and its decoder** (`TraceFormat`, `TraceDecoder`, `TraceRoundTrip`, `PreTriggerSpec`,
   `PreTrigger`, `WindowSpec`, `TraceWindow`, `WindowRuns`, `WindowOpening`, `MarkerTable`, `RecordPolicy`, `WindowPolicy`,
   `TakeStamps`, `TakeSink`).

Each component that the island updates in place is a class whose methods are proved equal to functions on its
abstract state; the functions carry the theorems. A run is a sequence of states and a sequence of timed events,
and a theorem about runs holds at every index of every run. `dafny verify dfyconfig.toml` checks the project.

## How the code is read

* Time is one clock in milliseconds (nanoseconds in the trace), read once per locked section, callback or
  request. `Trunc32` is every place where the code stores or subtracts 32-bit times; nothing else is bounded.
* `nros_cpp_route_watch_next_due_us` is the input `left` of a wake, a request's fate is an input of the tick,
  the timer is "the earliest due", and the RAM trace backend is a byte sequence.
* `Prompt` says that time does not pass a wake that is due: the reaction thread is never kept from the
  semaphore, its timer or its own wait. Only the theorems that name it assume it.

Where a natural claim is false of the code, the code is kept, the failing case is a lemma, and the claim is
proved with the exact condition:

* The half-step bound on the stepwise velocity fails by the kink step (`BrakeLaw.HalfStepBoundFails`). What
  always holds is `(a0 - A) h / 2 + |J| h^2 / 8`. For any ticks `BrakeLaw.HalfStepBoundExactly` says when the
  half-step bound holds of the clamped velocity the operator sends. For ticks `h` apart it holds up to the
  n-th tick, where n is the number of whole steps in the drop; after that iff `rest (|J| h - rest)` is at most
  `2 |J|` times what the closed form lies below zero (`BrakeLaw.HalfStepBoundIff`).
* A wait on a braking command whose age has wrapped 2^32 ms re-arms the floor in the past, and the next pass
  waits again, without bound. `AgeWrap` gives the runs from boot; `ReactionPass.PassMakesProgress` the exact
  condition, and `FloorRuns.WaitsAccounted` counts the waits of every run.
* Monotone braking needs the operator to stay OPERATING after its takeover and the latch to be younger than
  2^32 ms; `BrakingLimits` gives a run that releases the brakes without either. The handler provides the first
  by itself when no cancel is in flight at the takeover (`WholeIsland.HandlerKeepsSteady`).
* A takeover request outlives its window when the operation mode leaves AUTONOMOUS: in a run from boot, for any
  parameters that use it and for any time (`TakeoverWindow.RequestOutlivesWindow`); `TakeoverWindow.OutlivesExactly` says exactly when.
* One tick under the latch is not always enough for the emergency stop: a comfortable stop that has just
  reached standstill takes a second one (`HandlerRuns.LostTick`, `HandlerRuns.LatchHolds`).
* A speed sample taken at a multiple of 2^32 ms reads as none (`SampleRuns.ReadingsAre`).
* A pull-over is never accepted: where it is in use and offered, a fault brings the emergency stop, and
  a stop that has ended is cancelled for it (`BehaviorChoice.StartsBehavior`, `BehaviorChoice.StopHolds`).
* A take whose second reads 0xFFFFFFFF before any other second of its input has no stamp
  (`TakeStamps.JoinRecovers`).

The code and its comments disagree in one place: the header comment of
`src/zephyr_entry/src/island_supervisor.c` (lines 138-140) says `mrm_state` stays MRM_OPERATING on a vehicle
fault; `island_judge_mrm_state` and the handler report MRM_FAILED, and so does the model.

## Model

| member | source | states |
|---|---|---|
| `RouteTable.EarliestIsLeast` | src/zephyr_entry/src/island_supervisor.c:495-511 | the timer is stopped iff no route is armed, else on the least armed due |
| `RouteTable.StepKeeps` | src/zephyr_entry/src/island_supervisor.c:495-609 | every locked section keeps the route table's invariant: record mirrors dues, route 4 only beside route 3, route 3 iff the stage is not idle |
| `RouteTable.InvAlways` | src/zephyr_entry/src/island_supervisor.c:495-609 | the invariant holds at every lock release of every run |
| `SupervisorRuns.RouteTableAlways` | src/zephyr_entry/src/island_supervisor.c:495-609 | the same spelled out, with resume after handover after latch, and at most one floor miss that ever latched |
| `ReactionPass.Judged` | src/zephyr_entry/src/island_supervisor.c:846-1011 | a pass asks for the latch iff some due is missed, judged on the state before the pass |
| `ReactionPass.MissBrakes` | src/zephyr_entry/src/island_supervisor.c:632-651 | a pass ends latched iff it began latched, a cause was pending or a due was missed; the pass that latches calls every registered direct function once, in that pass |
| `ReactionPass.AnsweredIsNoMiss` | src/zephyr_entry/src/island_supervisor.c:852-884 | an expiry of route 1 that the route watch reads as answered is no miss |
| `ReactionPass.PassMakesProgress` | src/zephyr_entry/src/island_supervisor.c:856-1011 | after a pass every armed due is later than the pass, except iff a verdict waited on an age that wrapped 2^32 ms |
| `AgeWrap.AgeWraps` | src/zephyr_entry/src/island_supervisor.c:930-958 | a run from boot whose last pass waits in the past and leaves the floor armed there |
| `AgeWrap.StuckPass` | src/zephyr_entry/src/island_supervisor.c:930-958 | from any state with a wrapped age that reads as young, a pass waits, counts the wait, and leaves a state in which the next pass does the same |
| `AgeWrap.WaitsWithoutBound` | src/zephyr_entry/src/island_supervisor.c:930-958 | for every n a run from boot with n floor waits, all of them unpaid |
| `SupervisorRuns.ProgressAlways` | src/zephyr_entry/src/island_supervisor.c:856-1011 | in every run, while the braking command is younger than 2^32 ms, every wake leaves all armed dues later |
| `SupervisorRuns.NothingIsUndone` | src/zephyr_entry/src/island_supervisor.c:632-651 | the latch, its time and cause, and the first vehicle fault never change once set |
| `SupervisorRuns.SinceCoversStarts` | src/zephyr_entry/src/island_supervisor.c:726-751 | the braking command's start is never earlier than any latch or operator resume so far |
| `SupervisorRuns.NoFalseFault` | src/zephyr_entry/src/island_supervisor.c:888-1006 | a vehicle fault is recorded only under an earlier latch, a whole span after every braking start, without a fresh standstill (route 4: nor a fresh drop), and is final |
| `PassVerdicts.FirstRoutes` | src/zephyr_entry/src/island_supervisor.c:852-886 | every wake clears routes 0 and 2 at their due, and route 1 if its expiry stands or nothing is left; otherwise route 1 is re-armed at the first whole millisecond at or after the end of what the executor says is left; a due still ahead stays |
| `PassVerdicts.ArmAndDone` | src/zephyr_entry/src/island_supervisor.c:566-609 | arming sets the route's own due, clearing takes it, and route 4 goes with route 3; the others stay |
| `PassVerdicts.LatchCause` | src/zephyr_entry/src/island_supervisor.c:1015-1026 | the cause of a latch is a missed due before the hook before SWT0 |
| `PassVerdicts.CauseLatches` | src/zephyr_entry/src/island_supervisor.c:1093-1100 | in a prompt run the output is latched before time moves on from a hook call or SWT0's first timeout |
| `SampleRuns.SampleIsLast` | src/zephyr_entry/src/island_supervisor.c:1329-1333 | the sample is the last one taken, its time truncated |
| `SampleRuns.ReadingsAre` | src/zephyr_entry/src/island_supervisor_judge.h:16-46 | standstill is a last sample of 0 at most 300 ms old, mod 2^32; a sample at a multiple of 2^32 ms reads as none |
| `PassVerdicts.FloorJudgedBy` | src/zephyr_entry/src/island_supervisor.c:920-1006 | a wake that finds route 3 late: before any sample another span, on a fresh 0 met, otherwise latched, waited out or the vehicle fault, with counters, dues and stage |
| `PassVerdicts.ArmWatches` | src/zephyr_entry/src/island_supervisor.c:566-589 | the handler's arm of the floor also arms route 4 exactly when it is in use and the sample is fresh |
| `PassVerdicts.MissWatches` | src/zephyr_entry/src/island_supervisor.c:960-1000 | so does a miss that latches, with another floor span from there |
| `PassVerdicts.WaitWatches` | src/zephyr_entry/src/island_supervisor.c:930-958 | a wait of route 4 re-arms it exactly when the braking command started on a fresh sample |
| `PassVerdicts.ResumeWatches` | src/zephyr_entry/src/island_supervisor.c:726-751 | so does the operator slot's resume, when the floor is not armed |
| `ResponseWatch.BrakeFrom` | src/zephyr_entry/src/island_supervisor.c:1027-1036 | the braking command's start and reference are those of its last start in the run |
| `ResponseWatch.WatchedFrom` | src/zephyr_entry/src/island_supervisor.c:532-553 | in every run an armed route 4 judges by the speed in the state before the step that started its watch, fresh there and a response span before its due |
| `ResponseWatch.ResponseJudgedBy` | src/zephyr_entry/src/island_supervisor.c:888-958 | a wake that finds route 4 late: with the vehicle slowed by the drop or at standstill on a fresh sample, no latch, no wait and no fault of it; otherwise, route 3 not late, exactly one of the three |
| `ResponseWatch.NoFalseResponse` | src/zephyr_entry/src/island_supervisor.c:888-1006 | a vehicle fault of route 4 found the vehicle, on a fresh sample or none, neither at standstill nor the drop below its speed when the watch began |
| `ResumeRuns.ResumedExactly` | src/zephyr_entry/src/island_supervisor.c:705-754 | a served step takes a slot back exactly when its last answered report lies RESUME_PERIODS of that report's period behind, in 32-bit ms; no other step does |
| `ResumeRuns.PublishedExactly` | src/zephyr_entry/src/island_supervisor.c:756-792 | the direct path publishes every slot of its own, once, exactly in a served step that latches, takes a slot back, or reached the next publish |
| `ResumeRuns.PublishSpacing` | src/zephyr_entry/src/island_supervisor.c:779-792 | two direct publishes of a slot are a direct period apart unless the later one takes a slot back |
| `ResumeRuns.SleepsExactly` | src/zephyr_entry/src/island_supervisor.c:794-819 | after every served step the thread sleeps to the first of its next publish, the first moment a slot's silence is over, and SWT0's feed |
| `ResumeRuns.SwtRuns` | src/zephyr_entry/src/island_supervisor.c:812-817 | the feed belongs to that exactly once SWT0 was started |
| `FloorRuns.UnpaidIsWrapped` | src/zephyr_entry/src/island_supervisor.c:930-958 | a wait that no early due pays for happens only on a braking command older than 2^32 ms that reads as young |
| `FloorRuns.WaitsAccounted` | src/zephyr_entry/src/island_supervisor.c:886-1007 | in every run, no hypothesis: the floor's waits are at least the unpaid ones and at most those, one per braking start and one per early arm; the response's alike, without the arms |
| `FloorRuns.BoundedWaits` | src/zephyr_entry/src/island_supervisor.c:886-1007 | so at most two of each where no wait is unpaid and no arm is early |
| `FloorRuns.YoungWaits` | src/zephyr_entry/src/island_supervisor.c:886-1007 | and while the braking command is young at every pass, only early arms add to the starts |
| `FloorRuns.PursuedAlways` | src/zephyr_entry/src/island_supervisor.c:886-1007 | along a prompt run with the vehicle moving the fault is recorded or the floor is armed, not late, with its verdict due by a bound that never moves |
| `FloorRuns.BoundedVerdict` | src/zephyr_entry/src/island_supervisor.c:886-1036 | the vehicle fault is recorded by two floor spans after the armed due, three after the call |
| `DirectPath.OneOwner` | src/zephyr_entry/src/island_supervisor.c:669-819 | a slot's owner only moves direct, executor, direct; who publishes owns it; no step has both |
| `DirectPath.BoundedSilence` | src/zephyr_entry/src/island_supervisor.c:669-819 | from the latch on the last braking command is never older than the larger of the direct period and RESUME_PERIODS tick periods |
| `DirectPath.PassLetsTimePass` | src/zephyr_entry/src/island_supervisor.c:794-819 | after a pass every deadline is in the future, so promptness never stops the clock |
| `SupervisorClass.Supervisor.constructor` | src/zephyr_entry/src/island_supervisor.c:1335-1350 | at boot nothing is armed or latched |
| `SupervisorClass.Supervisor.RearmLocked` | src/zephyr_entry/src/island_supervisor.c:495-511 | the loop over the dues sets the timer to the specification's earliest due |
| `SupervisorClass.Supervisor.ResponseArmLocked` | src/zephyr_entry/src/island_supervisor.c:532-553 | route 4 from a start and a reference speed, or cleared without a fresh one |
| `SupervisorClass.Supervisor.Arm` | src/zephyr_entry/src/island_supervisor.c:566-589 | arming a route is the specification's step |
| `SupervisorClass.Supervisor.Done` | src/zephyr_entry/src/island_supervisor.c:591-609 | clearing a route is the specification's step |
| `SupervisorClass.Supervisor.JudgeFloorRoute` | src/zephyr_entry/src/island_supervisor.c:920-1006 | route 3 past its due: met, wait, latch, vehicle fault, or unseen |
| `SupervisorClass.Supervisor.JudgeResponseRoute` | src/zephyr_entry/src/island_supervisor.c:888-1006 | route 4 past its due |
| `SupervisorClass.Supervisor.JudgeAll` | src/zephyr_entry/src/island_supervisor.c:856-1011 | the route loop of a pass |
| `SupervisorClass.Supervisor.DriveSafeState` | src/zephyr_entry/src/island_supervisor.c:632-651 | the latch, its time and cause, once |
| `SupervisorClass.Supervisor.ResumeOne` | src/zephyr_entry/src/island_supervisor.c:705-754 | a silent slot is resumed; the operator's restarts braking and arms the floor |
| `SupervisorClass.Supervisor.Publish` | src/zephyr_entry/src/island_supervisor.c:756-777 | the direct function of every slot the direct path owns is called |
| `SupervisorClass.Supervisor.Service` | src/zephyr_entry/src/island_supervisor.c:779-792 | watch, then publish when due |
| `SupervisorClass.Supervisor.NextWait` | src/zephyr_entry/src/island_supervisor.c:794-819 | the thread's own wait: the next publish, resume deadline or watchdog feed |
| `SupervisorClass.Supervisor.OnWake` | src/zephyr_entry/src/island_supervisor.c:821-1040 | one wake of the reaction thread |
| `SupervisorClass.Supervisor.OnTimeout` | src/zephyr_entry/src/island_supervisor.c:833-839 | one timeout of the reaction thread |
| `SupervisorClass.Supervisor.Handover` | src/zephyr_entry/src/island_supervisor.c:1291-1317 | a tick's report: the handover, the alive time and period, and whether the tick may publish |
| `BrakeLaw.AccelerationIsRamp` | src/autoware_mrm_emergency_stop_operator/src/mrm_emergency_stop_operator/mrm_emergency_stop_operator_core.cpp:117-131 | the direct path's piecewise acceleration is `max(a0 + J t, A)` from the clamped start |
| `BrakeLaw.IntegralIsArea` | src/autoware_mrm_emergency_stop_operator/src/mrm_emergency_stop_operator/mrm_emergency_stop_operator_core.cpp:117-131 | the closed-form velocity obeys the area law of that ramp in both of its pieces |
| `BrakeLaw.ClampOnce` | src/autoware_mrm_emergency_stop_operator/src/mrm_emergency_stop_operator/mrm_emergency_stop_operator_core.cpp:355-366 | clamping the velocity at zero at every tick is clamping it once at the end |
| `BrakeLaw.StepwiseRefinesClosedForm` | src/autoware_mrm_emergency_stop_operator/src/mrm_emergency_stop_operator/mrm_emergency_stop_operator_core.cpp:355-366 | for any ticks at most h apart the acceleration is the closed form's and the velocity is above it by at most (a0 - A) h/2 + abs(J) h^2/8 |
| `BrakeLaw.HalfStepBoundExactly` | src/autoware_mrm_emergency_stop_operator/src/mrm_emergency_stop_operator/mrm_emergency_stop_operator_core.cpp:355-366 | for any ticks, the velocity sent is within (a0 - A) h/2 of the closed form iff what the steps add, a sum over the tick times, is at most that share and what the closed form lies below zero |
| `BrakeLaw.HalfStepBoundIff` | src/autoware_mrm_emergency_stop_operator/src/mrm_emergency_stop_operator/mrm_emergency_stop_operator_core.cpp:355-366 | for ticks h apart and a drop of n whole steps and a rest: up to the n-th tick always, after it iff rest (abs(J) h - rest) is at most 2 abs(J) times what the closed form lies below zero |
| `BrakeLaw.HalfStepBoundMoving` | src/autoware_mrm_emergency_stop_operator/src/mrm_emergency_stop_operator/mrm_emergency_stop_operator_core.cpp:355-366 | while the closed form has not reached zero, after the n-th tick iff the drop takes a whole number of steps |
| `BrakeLaw.HalfStepBoundFails` | src/autoware_mrm_emergency_stop_operator/src/mrm_emergency_stop_operator/mrm_emergency_stop_operator_core.cpp:355-366 | one step of the operator's own law that exceeds it |
| `SettleBudget.BudgetEqualsLaw` | tools/board/tlcommon.py:439-446 | from a zero seed the direct path's velocity is positive exactly before `settle_s`, in both regimes |
| `SettleBudget.CurveIsVelocity` | tools/board/tlcommon.py:449-462 | the curve's three branches are the direct path's velocity up to the settle time |
| `SettleBudget.StopCurve` | tools/board/tlcommon.py:449-462 | the loop samples that velocity at n even steps |
| `OperatorSpec.ProjectsToBehaviour` | src/autoware_mrm_emergency_stop_operator/src/mrm_emergency_stop_operator/mrm_emergency_stop_operator_core.cpp:265-328 | the supervisor under the operator and the direct path is a run of the supervisor |
| `BrakingRuns.MonotoneBraking` | src/autoware_mrm_emergency_stop_operator/src/mrm_emergency_stop_operator/mrm_emergency_stop_operator_core.cpp:108-146 | from the latch through handover and resume the commanded acceleration stays in [A, max(a0, A)] and never increases |
| `BrakingRuns.ExactAlways` | src/autoware_mrm_emergency_stop_operator/src/mrm_emergency_stop_operator/mrm_emergency_stop_operator_core.cpp:287-325 | while no tick gap exceeds the clamp every command is exactly the closed form's |
| `BrakingRuns.CommandIsYoung` | src/autoware_mrm_emergency_stop_operator/src/mrm_emergency_stop_operator/mrm_emergency_stop_operator_core.cpp:287-325 | the age bound of the supervisor, on the commands actually sent |
| `BrakingRuns.PromptBrakingIsExact` | src/autoware_mrm_emergency_stop_operator/src/mrm_emergency_stop_operator/mrm_emergency_stop_operator_core.cpp:287-325 | when the allowed silence is within the clamp every command of a prompt run is exact |
| `SeedRuns.OperatingIsLast` | src/autoware_mrm_emergency_stop_operator/src/mrm_emergency_stop_operator/mrm_emergency_stop_operator_core.cpp:216-249 | the operator is OPERATING exactly when the last operate request said so |
| `SeedRuns.StartIsLastControl` | src/autoware_mrm_emergency_stop_operator/src/mrm_emergency_stop_operator/mrm_emergency_stop_operator_core.cpp:108-116 | in every run, once latched, the direct path's velocity, acceleration and steering are those of the last control command taken while not OPERATING before the step that latched, and 0 without one |
| `SeedRuns.DirectCarries` | src/autoware_mrm_emergency_stop_operator/src/mrm_emergency_stop_operator/mrm_emergency_stop_operator_core.cpp:117-146 | every direct command is the ramp from that command's acceleration, its area from that velocity clamped at 0, and that steering |
| `SeedRuns.TickCarries` | src/autoware_mrm_emergency_stop_operator/src/mrm_emergency_stop_operator/mrm_emergency_stop_operator_core.cpp:340-371 | under the latch the operator's tick goes on from the last command sent, whichever path sent it: one step of at most 0.1 s, jerk and steering included |
| `SeedRuns.TickBeforeLatch` | src/autoware_mrm_emergency_stop_operator/src/mrm_emergency_stop_operator/mrm_emergency_stop_operator_core.cpp:265-328 | before the latch a tick passes the last noted command through or goes on from it; without any control command it sends the target |
| `SeedRuns.SteeringHeld` | src/autoware_mrm_emergency_stop_operator/src/mrm_emergency_stop_operator/mrm_emergency_stop_operator_core.cpp:108-146 | the steering of every command since the latch is that control command's |
| `SeedRuns.BrakesFromLastControl` | src/autoware_mrm_emergency_stop_operator/src/mrm_emergency_stop_operator/mrm_emergency_stop_operator_core.cpp:108-146 | monotone braking with the bound written out: never above the larger of that command's acceleration and the target |
| `VelocityRuns.VelocityHeld` | src/autoware_mrm_emergency_stop_operator/src/mrm_emergency_stop_operator/mrm_emergency_stop_operator_core.cpp:340-371 | while no tick gap exceeds the clamp every commanded velocity is at least the closed form's for its time and at most (a0 - A) 0.05 + abs(J)/800 above it, through handover and resume |
| `VelocityRuns.PromptVelocity` | src/autoware_mrm_emergency_stop_operator/src/mrm_emergency_stop_operator/mrm_emergency_stop_operator_core.cpp:340-371 | the same in every prompt run whose allowed silence is within the clamp, from that control command's velocity and acceleration |
| `BrakingLimits.UnsteadyReleases` | src/autoware_mrm_emergency_stop_operator/src/mrm_emergency_stop_operator/mrm_emergency_stop_operator_core.cpp:216-249 | for every law a run in which an operator taken off OPERATING after its takeover commands a higher acceleration under the latch |
| `BrakingLimits.DirectSendsTruncated` | src/autoware_mrm_emergency_stop_operator/src/mrm_emergency_stop_operator/mrm_emergency_stop_operator_core.cpp:108-131 | a direct publish sends the ramp at the truncated time since the latch |
| `BrakingLimits.RampRestarts` | src/autoware_mrm_emergency_stop_operator/src/mrm_emergency_stop_operator/mrm_emergency_stop_operator_core.cpp:108-131 | a whole number of 2^32 ms after the latch the publish sends the ramp's start again |
| `BrakingLimits.WrapReleases` | src/autoware_mrm_emergency_stop_operator/src/mrm_emergency_stop_operator/mrm_emergency_stop_operator_core.cpp:108-131 | for every law a run whose direct publish 2^32 ms after the latch is above the one before it |
| `WholeIsland.IslandPart` | src/autoware_mrm_handler/src/mrm_handler/mrm_handler_core.cpp:819-915 | handler and supervisor under the operator, with the requests in flight, are a run of the island, so everything proved of those holds here |
| `WholeIsland.SystemPart` | src/autoware_mrm_emergency_stop_operator/src/mrm_emergency_stop_operator/mrm_emergency_stop_operator_core.cpp:265-328 | operator and supervisor under the handler, with its requests in flight, are a run of the two |
| `WholeIsland.DeliversOldest` | src/autoware_mrm_emergency_stop_operator/src/mrm_emergency_stop_operator/mrm_emergency_stop_operator_core.cpp:216-249 | a delivery puts the operator where the oldest request neither delivered nor lost says |
| `WholeIsland.HandlerKeepsSteady` | src/autoware_mrm_handler/src/mrm_handler/mrm_handler_core.cpp:488-537 | with no cancel in flight at the takeover, the handler never takes the operator off OPERATING after its takeover |
| `WholeIsland.IslandBrakesMonotonically` | src/autoware_mrm_emergency_stop_operator/src/mrm_emergency_stop_operator/mrm_emergency_stop_operator_core.cpp:287-325 | monotone braking of handler, operator, direct path and supervisor together, whatever the inputs, the driver and the transport do |
| `EmergencyOperator.EmergencyStopOperator.OnControlCommand` | src/autoware_mrm_emergency_stop_operator/src/mrm_emergency_stop_operator/mrm_emergency_stop_operator_core.cpp:216-230 | the command and the direct path's seed are noted only while not OPERATING |
| `EmergencyOperator.EmergencyStopOperator.DirectBrake` | src/autoware_mrm_emergency_stop_operator/src/mrm_emergency_stop_operator/mrm_emergency_stop_operator_core.cpp:108-146 | the direct command is the closed form from the seed taken at its first call |
| `EmergencyOperator.EmergencyStopOperator.CalcTarget` | src/autoware_mrm_emergency_stop_operator/src/mrm_emergency_stop_operator/mrm_emergency_stop_operator_core.cpp:330-380 | one integrated step with the dt clamp |
| `EmergencyOperator.EmergencyStopOperator.OnTimer` | src/autoware_mrm_emergency_stop_operator/src/mrm_emergency_stop_operator/mrm_emergency_stop_operator_core.cpp:265-328 | the tick with its takeover and its report is the composed system's step, and what it publishes |
| `HandlerRuns.CoherentAlways` | src/autoware_mrm_handler/src/mrm_handler/mrm_handler_core.cpp:488-537 | after every tick NORMAL iff no behaviour, MRM_FAILED only in the emergency stop, and a pull-over never becomes the behaviour |
| `HandlerRuns.Ladder` | src/autoware_mrm_handler/src/mrm_handler/mrm_handler_core.cpp:925-998 | within a fault episode the behaviour only climbs NONE, COMFORTABLE, EMERGENCY, and MRM_FAILED stays |
| `HandlerRuns.LostTick` | src/autoware_mrm_handler/src/mrm_handler/mrm_handler_core.cpp:1053-1101 | a tick with an input lost or the latch read never cancels the emergency stop, calls the comfortable stop or returns to NORMAL, and ends in the emergency stop on all but one exact kind of tick |
| `HandlerRuns.LatchHolds` | src/autoware_mrm_handler/src/mrm_handler/mrm_handler_core.cpp:925-998 | two ticks that read the latch, and the emergency stop is the behaviour for good |
| `StartUp.RunReached` | src/autoware_mrm_handler/src/mrm_handler/mrm_handler_core.cpp:735-792 | RUN holds exactly from the first tick that finds every input established or the INIT budget spent |
| `StartUp.InitEndsOnce` | src/autoware_mrm_handler/src/mrm_handler/mrm_handler_core.cpp:735-792 | at most one INIT_DONE or INIT_TIMEOUT in a run |
| `StartUp.MonitorsArmedOnce` | src/autoware_mrm_handler/src/mrm_handler/mrm_handler_core.cpp:735-792 | the monitors are armed at most once and no start-up fault follows |
| `StartUp.FailureSpan` | src/autoware_mrm_handler/src/mrm_handler/mrm_handler_core.cpp:735-792 | the start-up fault stands exactly from INIT_TIMEOUT to the tick that recovers |
| `StartUp.StampIsLastArrival` | src/autoware_mrm_handler/include/autoware/mrm_handler/mrm_handler_core.hpp:177-191 | the timeout's stamp is the arrival record's last sample, and a take's own time |
| `StartUp.EstablishedIsFresh` | src/autoware_mrm_handler/src/mrm_handler/mrm_handler_core.cpp:690-724 | a tick that arms the monitors never sees the availability stream as timed out |
| `BehaviorChoice.StartsExactly` | src/autoware_mrm_handler/src/mrm_handler/mrm_handler_core.cpp:956-966 | from NORMAL a fault starts an MRM exactly in autonomous control and, unless an input is lost, when the driver's time is up |
| `BehaviorChoice.DriverInControl` | src/autoware_mrm_handler/src/mrm_handler/mrm_handler_core.cpp:1007-1018 | a driver in control has no request, and no MRM starts |
| `BehaviorChoice.StartsBehavior` | src/autoware_mrm_handler/src/mrm_handler/mrm_handler_core.cpp:1053-1072 | with no input lost it calls the comfortable stop exactly when it is available and in use, else the emergency stop; a pull-over and a call that does not get out fall to the emergency stop; with the requests, and routes 2 and 3 |
| `BehaviorChoice.ComfortGoesOn` | src/autoware_mrm_handler/src/mrm_handler/mrm_handler_core.cpp:1073-1087 | a comfortable stop stays exactly while it is available and in use and no input is lost; otherwise it is cancelled and the emergency stop called |
| `BehaviorChoice.StopHolds` | src/autoware_mrm_handler/src/mrm_handler/mrm_handler_core.cpp:984-988 | a comfortable stop that has ended holds on the same condition, an emergency stop holds; but a pull-over offered and in use has either cancelled and falls to the emergency stop |
| `BehaviorChoice.FailedHolds` | src/autoware_mrm_handler/src/mrm_handler/mrm_handler_core.cpp:989-990 | MRM_FAILED holds with no request until the fault ends |
| `BehaviorChoice.EmergencyGoesOn` | src/autoware_mrm_handler/src/mrm_handler/mrm_handler_core.cpp:1088-1099 | under the emergency stop no more requests while the vehicle moves |
| `BehaviorChoice.StandstillSucceeds` | src/autoware_mrm_handler/src/mrm_handler/mrm_handler_core.cpp:967-982 | the standstill ends the running stop and meets its route |
| `BehaviorChoice.FreshWindow` | src/autoware_mrm_handler/src/mrm_handler/mrm_handler_core.cpp:948-956 | the fault's end ends the driver's window too |
| `BehaviorChoice.FaultEnds` | src/autoware_mrm_handler/src/mrm_handler/mrm_handler_core.cpp:488-537 | the fault's end cancels what runs and clears its route; a cancel that fails brings the emergency stop |
| `HandlerInputs.InputsAre` | src/autoware_mrm_handler/src/mrm_handler/mrm_handler_core.cpp:373-405 | the cached availability, mode, control mode and speed are the last ones heard |
| `HandlerInputs.HeldExactly` | src/autoware_mrm_handler/src/mrm_handler/mrm_handler_core.cpp:354-371 | the availability fault is held exactly from the first take that ends an unbroken streak of withdrawing takes longer than the recovery time |
| `HandlerInputs.FaultExactly` | src/autoware_mrm_handler/src/mrm_handler/mrm_handler_core.cpp:1110-1113 | a RUN tick finds a fault exactly when the stream is silent past max_age, the start-up failed, the latch is read, the fault is held, or the last take does not offer the mode last heard |
| `HandlerInputs.RunsExactly` | src/autoware_mrm_handler/src/mrm_handler/mrm_handler_core.cpp:695-776 | RUN holds exactly from the first tick with every input there, two arrivals of each periodic one at most max_age apart and no older, or the budget spent |
| `HandlerInputs.ArmsExactly` | src/autoware_mrm_handler/src/mrm_handler/mrm_handler_core.cpp:735-792 | a tick arms the monitors exactly when it finds every input there in INIT or after a failed start-up |
| `TakeoverWindow.WindowOpens` | src/autoware_mrm_handler/src/mrm_handler/mrm_handler_core.cpp:1007-1042 | the ODD exit in NORMAL opens a window, or goes to the MRM if one has expired |
| `TakeoverWindow.WindowExact` | src/autoware_mrm_handler/src/mrm_handler/mrm_handler_core.cpp:1007-1042 | NORMAL with the request on until the first tick at or after the timeout, which starts the MRM and drops the request |
| `TakeoverWindow.NoSecondWindow` | src/autoware_mrm_handler/src/mrm_handler/mrm_handler_core.cpp:948-966 | no second window until a tick finds the fault gone |
| `TakeoverWindow.OneWindowAlways` | src/autoware_mrm_handler/src/mrm_handler/mrm_handler_core.cpp:1007-1042 | a request is on only where it is in use and has not expired |
| `TakeoverWindow.OutlivesExactly` | src/autoware_mrm_handler/src/mrm_handler/mrm_handler_core.cpp:1013-1028 | the request stays on beside an MRM iff the tick returned early past it |
| `TakeoverWindow.RequestOutlivesWindow` | src/autoware_mrm_handler/src/mrm_handler/mrm_handler_core.cpp:1019-1023 | for all parameters that use it and every t, a run from boot in which the mode leaves AUTONOMOUS and t ms later the request is on beside an MRM |
| `HandlerClass.MrmHandler.constructor` | src/autoware_mrm_handler/src/mrm_handler/mrm_handler_core.cpp:316-326 | INIT from construction, a stream never heard as old as the node |
| `HandlerClass.MrmHandler.OnOperationModeAvailability` | src/autoware_mrm_handler/src/mrm_handler/mrm_handler_core.cpp:330-371 | a take's stamp, arrival and holding, and route 0 moved on once the monitors are armed |
| `HandlerClass.MrmHandler.OnOdometry` | src/autoware_mrm_handler/src/mrm_handler/mrm_handler_core.cpp:373-397 | the speed noted here and in the supervisor |
| `HandlerClass.MrmHandler.OnComfortableStopStatus` | src/autoware_mrm_handler/src/mrm_handler/mrm_handler_core.cpp:407-417 | an available sample is noted, any other restarts the count |
| `HandlerClass.MrmHandler.OnEmergencyStopStatus` | src/autoware_mrm_handler/src/mrm_handler/mrm_handler_core.cpp:419-429 | the same for the emergency operator |
| `HandlerClass.MrmHandler.UpdatePhase` | src/autoware_mrm_handler/src/mrm_handler/mrm_handler_core.cpp:735-792 | the lifecycle step and what it announces |
| `HandlerClass.MrmHandler.UpdateTakeoverRequest` | src/autoware_mrm_handler/src/mrm_handler/mrm_handler_core.cpp:1007-1042 | the request step and whether the MRM waits |
| `HandlerClass.MrmHandler.UpdateMrmState` | src/autoware_mrm_handler/src/mrm_handler/mrm_handler_core.cpp:925-998 | the state decision and the routes it finishes |
| `HandlerClass.MrmHandler.RequestMrmBehavior` | src/autoware_mrm_handler/src/mrm_handler/mrm_handler_core.cpp:539-637 | route 3 armed or cleared before the send, route 2 only after one that went out |
| `HandlerClass.MrmHandler.HandleFailedRequest` | src/autoware_mrm_handler/src/mrm_handler/mrm_handler_core.cpp:527-537 | the emergency call after a failed request, MRM_FAILED if it fails too |
| `HandlerClass.MrmHandler.OperateMrm` | src/autoware_mrm_handler/src/mrm_handler/mrm_handler_core.cpp:488-525 | cancel, call and fallback, their requests and supervisor calls in order |
| `HandlerClass.MrmHandler.OnTimer` | src/autoware_mrm_handler/src/mrm_handler/mrm_handler_core.cpp:819-915 | the whole tick on one clock: handler, requests and supervisor |
| `Island.TickCalls` | src/autoware_mrm_handler/src/mrm_handler/mrm_handler_core.cpp:819-896 | a RUN tick finishes route 0 iff it saw the stream time out, and touches only its own routes and slot |
| `Island.SupervisorPart` | src/autoware_mrm_handler/src/mrm_handler/mrm_handler_core.cpp:819-915 | the island's supervisor, under interleaved ticks, callbacks and passes, is a run of the supervisor |
| `Island.HandlerPart` | src/autoware_mrm_handler/src/mrm_handler/mrm_handler_core.cpp:819-915 | the island's handler is a run of the handler |
| `IslandRuns.WatchAlways` | src/autoware_mrm_handler/src/mrm_handler/mrm_handler_core.cpp:334-349 | an armed route 0 is due max_age + CALL_MRM after the last take, and every completed tick started too early to see that take's loss |
| `IslandRuns.PunctualHandlerNeverFires` | src/zephyr_entry/src/island_supervisor.c:852-861 | no pass less than CALL_MRM after the last completed tick's start finds route 0 late, for any pattern of takes |
| `IslandRuns.EndedTickNeverFires` | src/zephyr_entry/src/island_supervisor.c:852-861 | the same over the events: while the last tick to end started less than CALL_MRM before the pass |
| `IslandRuns.CadenceNeverFires` | src/zephyr_entry/src/island_supervisor.c:852-861 | the same from the next tick's completion |
| `IslandRuns.SilenceIsLatched` | src/zephyr_entry/src/island_supervisor.c:852-861 | if takes and ticks stop after an armed take, the first pass at take + max_age + CALL_MRM ends latched |
| `IslandRuns.LossIsAnswered` | src/autoware_mrm_handler/src/mrm_handler/mrm_handler_core.cpp:819-886 | the loss of the stream is answered by then: by a tick that saw it, with the MRM on in autonomous control, or by the latch |
| `IslandFloor.SameSpeedAlways` | src/autoware_mrm_handler/src/mrm_handler/mrm_handler_core.cpp:373-397 | the supervisor's sample is the handler's last odometry, in every run |
| `IslandFloor.QuietTick` | src/autoware_mrm_handler/src/mrm_handler/mrm_handler_core.cpp:925-998 | while the fault lasts and the vehicle moves a tick under the emergency stop neither clears nor re-arms route 3 |
| `IslandFloor.EmergencyStopIsPursued` | src/autoware_mrm_handler/src/mrm_handler/mrm_handler_core.cpp:581-598 | from an emergency call, whether or not its request gets out, the vehicle fault is recorded within three floor spans unless the vehicle stops or the fault clears |
| `IslandFloor.WaitsAccounted` | src/zephyr_entry/src/island_supervisor.c:886-1007 | with the handler's own arms, in every run of the island: the unpaid waits and at most two more, of the floor and of the response |
| `IslandFloor.AtMostTwoWaits` | src/zephyr_entry/src/island_supervisor.c:886-1007 | so at most two of each where every wait is paid |
| `IslandFloor.FaultReachesHandler` | src/autoware_mrm_handler/src/mrm_handler/mrm_handler_core.cpp:929-945 | a recorded vehicle fault leaves the handler in MRM_FAILED and the emergency stop from its next RUN tick, for good |
| `IslandFloor.LatchReachesHandler` | src/autoware_mrm_handler/src/mrm_handler/mrm_handler_core.cpp:836-838 | once the output is latched, the second tick leaves the handler in the emergency stop for good |
| `TraceDecoder.StartsInside` | src/safety_island_tracing/island_trace.py:151-163 | the 64 zeros keep every fixed-size read of a started record inside the buffer, for any bytes |
| `TraceDecoder.WindowIsText` | src/safety_island_tracing/island_trace.py:205-213 | a windowed provenance is one that holds the text window=trigger |
| `TraceDecoder.Records` | src/safety_island_tracing/island_trace.py:157-213 | the record loop computes the recursive parse and where the last windowed segment starts |
| `TraceDecoder.Load` | src/safety_island_tracing/island_trace.py:151-221 | the whole decode of a dump, with the anchor |
| `TraceFormat.HeaderLayout` | src/safety_island_tracing/include/island_trace.h:185-199 | bytes 0 to 3 of a record are its 32-bit stamp, 4 and 5 its id, little-endian, and the payload follows |
| `TraceFormat.PayloadLayout` | src/safety_island_tracing/include/island_trace.h:185-199 | each record type's id and the little-endian field at every offset of its payload |
| `TraceRoundTrip.BodyBack` | src/safety_island_tracing/include/island_trace.h:185-199 | each record type's fields read back from its payload |
| `TraceRoundTrip.UnwrapBack` | src/safety_island_tracing/island_trace.py:167-174 | the signed modular difference recovers the true difference within half a turn |
| `TraceRoundTrip.PadRestores` | src/safety_island_tracing/island_trace.py:588-595 | padding restores what trimming zeros took, and stops the decoder behind the last record |
| `TraceRoundTrip.RoundTrip` | src/safety_island_tracing/include/island_trace.h:450-481 | decoding the trimmed dump of any steady stream gives back every record and nothing else |
| `TraceRoundTrip.DifferencesExact` | src/safety_island_tracing/island_trace.py:167-174 | every decoded time difference within a segment is the true one |
| `TraceRoundTrip.AnchorExact` | src/safety_island_tracing/island_trace.py:205-221 | a windowed segment comes out at its true times iff its first heartbeat's uptime is within half a turn of its stamp (at exactly half: iff the turn is even) |
| `PreTriggerSpec.HistoryHeld` | src/safety_island_tracing/include/island_trace.h:539-551 | the ring is the end of the history, at most two halves, and all of it or more than a half less one record |
| `PreTriggerSpec.SummedIsTrue` | src/safety_island_tracing/include/island_trace.h:618-634 | the summed 32-bit differences are the true time since the oldest record |
| `PreTriggerSpec.RecentExact` | src/safety_island_tracing/include/island_trace.h:637-652 | the records kept are exactly those at most pre_ms old, and a suffix |
| `PreTriggerSpec.FlushIsRecent` | src/safety_island_tracing/include/island_trace.h:618-657 | with forward stamps less than 2^32 ns apart, what the flush keeps by the ages it computes is exactly what is recent in the whole ring |
| `PreTrigger.SumHalf` | src/safety_island_tracing/include/island_trace.h:624-633 | pass 1 over a half's bytes sums the clock over its records |
| `PreTrigger.KeepHalf` | src/safety_island_tracing/include/island_trace.h:637-653 | pass 2 finds the first record young enough and counts from it |
| `PreTrigger.FlushHalves` | src/safety_island_tracing/include/island_trace.h:605-658 | the flushed bytes are those of the records kept by computed age, for any stamps |
| `PreTrigger.PreRing.Put` | src/safety_island_tracing/include/island_trace.h:539-551 | one record into the halves: the older half gives way when the current one is full |
| `PreTrigger.PreRing.Flush` | src/safety_island_tracing/include/island_trace.h:605-658 | the flush of the ring, with kept + pre_lost = pre_n mod 2^32 |
| `PreTrigger.PreRing.Rearm` | src/safety_island_tracing/include/island_trace.h:724-744 | an empty ring and zero counts |
| `TraceWindow.PackIsEncode` | src/safety_island_tracing/include/island_trace.h:553-561 | a record packed on its 32-bit stamp is the stream's encoding of it at its true time |
| `TraceWindow.Window.Fire` | src/safety_island_tracing/include/island_trace.h:605-678 | the byte stream grows by exactly the records kept and the TRIGGER record, and the policy forgets what it saw |
| `TraceWindow.Window.Marker` | src/safety_island_tracing/include/island_trace.h:680-717 | a marker arms, opens, is judged, and goes to the stream or the ring, in bytes as in the specification |
| `TraceWindow.Window.Heartbeat` | src/safety_island_tracing/include/island_trace.h:747-776 | a re-arm asked for comes first; then the heartbeat goes to the stream after the trigger and into the ring before |
| `TraceWindow.Window.Rearm` | src/safety_island_tracing/include/island_trace.h:724-744 | a new stream, an empty ring, a blank policy |
| `TraceWindow.Window.ReadOut` | src/safety_island_tracing/island_trace.py:582-595 | the read-out is the trimmed dump of the records written |
| `WindowRuns.TriggerSaves` | src/safety_island_tracing/include/island_trace.h:605-678 | in every run the event that opens the window saves exactly the ring's records at most pre_ms old, a suffix of all put since the re-arm, then the TRIGGER record and the marker, with kept + pre_lost = pre_n |
| `WindowRuns.StreamGrows` | src/safety_island_tracing/include/island_trace.h:680-717 | until a re-arm the stream only grows |
| `WindowRuns.RunDecodes` | src/safety_island_tracing/island_trace.py:158-221 | in every state of every run the dump decodes, cleanly, to exactly the records written, in order, and to their true times iff the first heartbeat names the turn |
| `WindowOpening.OpensExactly` | src/safety_island_tracing/include/island_trace.h:680-717 | over the events alone: a shut window is opened exactly by a violation, by the trigger once armed since the last re-arm, or by the arm marker once ever re-armed |
| `WindowOpening.OpenExactly` | src/safety_island_tracing/include/island_trace.h:680-744 | the window is open exactly when some event opened it and no re-arm came since |
| `WindowOpening.GivenIs` | src/safety_island_tracing/include/island_trace.h:539-603 | while it is shut the ring was given every heartbeat and every mark the policy keeps since the last re-arm, and with those the policy dropped that is all that came, mod 2^32 |
| `WindowOpening.TriggerTells` | src/safety_island_tracing/include/island_trace.h:605-678 | the TRIGGER record names the opening marker, pre_ms and SPIN_KEEP and counts what was saved, lost and dropped, which add up to all that came |
| `MarkerTable.BuildTable` | src/safety_island_tracing/gen_markers.py:310-358 | ids count from 1 and each path's EXIT is one above its ENTRY, for every contract |
| `MarkerTable.WindowPolicy` | src/safety_island_tracing/gen_markers.py:375-403 | the policy by id; every SPIN_EXIT's own SPIN_ENTRY is the id below |
| `MarkerTable.PolicyByElement` | src/safety_island_tracing/gen_markers.py:375-396 | by its place in the table: timer paths are spins, takes are recorded on change unless guarded or served, publishes on change, all else every time |
| `RecordPolicy.ExitFollowsEntry` | src/safety_island_tracing/include/island_trace.h:564-593 | an EXIT is kept iff its path's last ENTRY was or the window was re-armed in between |
| `RecordPolicy.SpinsBounded` | src/safety_island_tracing/include/island_trace.h:577-586 | at most SPIN_KEEP - 1 ENTRYs are dropped in a row |
| `RecordPolicy.ChangesRecorded` | src/safety_island_tracing/include/island_trace.h:570-576 | what is recorded of a CHANGE marker is what was marked with adjacent duplicates removed |
| `RecordPolicy.SpinsAlternate` | src/safety_island_tracing/include/island_trace.h:577-590 | where a path's ENTRY and EXIT alternate, so do those that are kept |
| `RecordPolicy.SpinRate` | src/safety_island_tracing/include/island_trace.h:577-586 | from a trigger or a re-arm on, at least one in SPIN_KEEP ENTRYs is kept |
| `RecordPolicy.EntryDropped` | src/safety_island_tracing/include/island_trace.h:577-586 | an ENTRY is dropped exactly when the last one since the trigger had the same argument and fewer than SPIN_KEEP - 1 were dropped in a row |
| `RecordPolicy.EveryRecorded` | src/safety_island_tracing/include/island_trace.h:564-593 | a marker to be recorded every time is, and so is one the table does not rule |
| `WindowPolicy.EveryDecoded` | src/safety_island_tracing/include/island_trace.h:564-593 | and is in the decoded trace with every mark since the window opened |
| `WindowPolicy.PolicyPart` | src/safety_island_tracing/include/island_trace.h:680-717 | every run of the window holds a run of the policy, with its memory at every state |
| `WindowPolicy.ChangesDecoded` | src/safety_island_tracing/include/island_trace.h:570-576 | in every run, behind the TRIGGER record the decoded values of a CHANGE marker are those marked since the window opened, adjacent duplicates removed |
| `WindowPolicy.SpinsDecoded` | src/safety_island_tracing/include/island_trace.h:577-590 | and a path whose ENTRY and EXIT alternate is decoded alternating, with at least one in SPIN_KEEP of its ENTRYs |
| `RecordPolicy.Recorder.Keep` | src/safety_island_tracing/include/island_trace.h:564-593 | the verdict and the new memory on one marker |
| `RecordPolicy.Recorder.Clear` | src/safety_island_tracing/include/island_trace.h:672-675 | what a trigger and a re-arm forget |
| `TakeStamps.ForwardsPicked` | src/safety_island_tracing/include/island_trace.h:386-404 | exactly one take in `keep` is forwarded per input, from its first one on |
| `TakeStamps.JoinRecovers` | src/safety_island_tracing/island_trace.py:276-302 | for any interleaving the join recovers input, sequence number and full stamp of every forwarded take; a stamp is missing exactly while every second of its input so far reads 0xFFFFFFFF |
| `TakeStamps.AllStamped` | src/safety_island_tracing/island_trace.py:276-302 | without such a second every stamp is there |
| `TakeSink.BindIsFresh` | src/safety_island_tracing/include/island_trace.h:423-434 | a newly bound input forwards its next take and owes its second |
| `TakeSink.NrosSink.OnEvent` | src/safety_island_tracing/include/island_trace.h:360-421 | one executor event through the sink: its new state and its marks |
| `TakeSink.NrosSink.TakeBind` | src/safety_island_tracing/include/island_trace.h:423-434 | an input binds once, to the slot of the take its callback runs for |
| `TakeSink.JoinTakes` | src/safety_island_tracing/island_trace.py:276-302 | the decoder's loop is the fold of the join over the marks |

## Left out

- The record's diagnostic words (arms, dones, fired, standstill_met, first-fire words, self cost), levels, priorities, GPIO, the SWT0 driver and its feed: they do not bear on the reaction.
- Clock reads inside one locked section, one callback or one tick's readings are one read; races finer than a locked section are not modelled.
- Float32 and double rounding: the braking law, the budget and the decoder's division are over exact numbers.
- `island_supervisor_set_direct` after construction: the slots are registered at boot.
- 64-bit overflow of the millisecond clock and of dues.
- The methods that only store a value or set a flag (speed, control mode, operation mode, operate, hook, SWT0) are in the classes and have no row.
- FloorRuns.BoundedWaits: the corollary of FloorRuns.WaitsAccounted, which has no hypothesis, for runs without unpaid waits and early arms; with unpaid waits there is no bound (AgeWrap.WaitsWithoutBound).
- IslandFloor.AtMostTwoWaits: the corollary of IslandFloor.WaitsAccounted without unpaid waits.
- FloorRuns.BoundedVerdict: the braking command's age stays below 2^32 ms until the verdict is due.
- BrakingRuns.MonotoneBraking: stated for operators that stay OPERATING after their takeover and for latches younger than 2^32 ms; BrakingLimits gives the runs that fail without each, and WholeIsland.IslandBrakesMonotonically discharges the first from the handler's own ticks.
- WholeIsland.IslandBrakesMonotonically: asks that no cancel is in flight at the operator's takeover; a cancel sent before the latch and delivered after the takeover is BrakingLimits.UnsteadyReleases.
- SupervisorClass.Supervisor.constructor: the settings of the record at boot only, not the thread and timer set-up beside them.
- The MRM handler's publishers, its LED and button updates and its log lines: outputs of the state that is modelled.
- A request's reply: the handler only logs it.
- `island_monitors_armed_uptime_ms` reads 0 when the monitors are armed at an uptime of a multiple of 2^32 ms, and route 0 is then never armed; the theorems on route 0 are about runs in which it is armed.
- HandlerClass.MrmHandler.OnTimer: every supervisor call falls on the tick's own clock; the calls on their own clocks, with passes in between, are in Island.
- WindowRuns.RunDecodes: for windows never silent for 2^31 ns, as the 100 ms heartbeat provides.
- Records of Zephyr's own events, the dump's header and the marker names: the decoder is restricted to the four island record types with 16-bit event ids.
- The capacity of the RAM trace backend: the stream is unbounded.
- `join_violations`, `guarded_inputs` and the choice of the detector and arm markers: lookups with easy facts.
- TakeStamps.JoinRecovers: bindings are made before the stream begins, and each take's three events arrive as one block.
- MarkerTable.BuildTable: takes the contract's elements as lists already sorted.
- `island_judge_shed`, `island_autoware_gate_emergency`, the comfortable stop operator, the lock probe, the spin diagnostics and the board tooling.
