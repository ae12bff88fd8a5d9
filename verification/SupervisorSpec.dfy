/**
 * The supervisor as a state machine: one state, one function per locked section, and behaviours.
 * Every step reads the clock once. The class `Supervisor` is proved against these functions.
 */
module SupervisorSpec {
  import opened Words
  import Judge

  const ROUTES: nat := 5
  const CALL_MRM: nat := 0
  const EXECUTOR: nat := 1
  const COMFORTABLE: nat := 2
  const FLOOR: nat := 3
  const RESPONSE: nat := 4

  const SLOTS: nat := 2
  const HANDLER: nat := 0
  const OPERATOR: nat := 1

  /** The Kconfig values; `Valid` is what Kconfig's ranges and the build assertion admit. */
  datatype Config = Config(
    emergencyMs: nat, responseMs: nat, observeMs: nat, dropMmS: nat,
    directPeriodMs: nat, resumePeriods: nat, swtMs: nat)
  {
    function FloorSpan(): nat { emergencyMs + observeMs }
    function ResponseSpan(): nat { responseMs + observeMs }
    predicate Valid() {
      responseMs < emergencyMs && FloorSpan() < U32 && 0 < directPeriodMs < U32 && 2 <= resumePeriods <= 10
    }
  }

  /** A route: its due (`due_valid`, `due_ms`) and its words in the record (`armed`, `due_ms`). */
  datatype Route = Route(valid: bool, due: int, armed: bool, due32: nat)

  /** A direct-path slot: registration, direct calls, and the executor path's handover and reports. */
  datatype Slot = Slot(registered: bool, calls: nat, handover: bool, resumed: bool, alive: nat, period: nat)

  /** The five routes, by id 0..4. */
  datatype Table = Table(callMrm: Route, executor: Route, comfortable: Route, floor: Route, response: Route)
  {
    function At(i: nat): Route
      requires i < ROUTES
    {
      if i == CALL_MRM then callMrm else if i == EXECUTOR then executor else if i == COMFORTABLE then comfortable
      else if i == FLOOR then floor else response
    }

    function With(i: nat, r: Route): Table
      requires i < ROUTES
    {
      if i == CALL_MRM then this.(callMrm := r) else if i == EXECUTOR then this.(executor := r)
      else if i == COMFORTABLE then this.(comfortable := r) else if i == FLOOR then this.(floor := r)
      else this.(response := r)
    }

    function List(): seq<Route> { [callMrm, executor, comfortable, floor, response] }
  }

  /** The two slots, by id 0..1. */
  datatype Slots = Slots(handler: Slot, operator: Slot)
  {
    function At(i: nat): Slot
      requires i < SLOTS
    {
      if i == HANDLER then handler else operator
    }

    function With(i: nat, x: Slot): Slots
      requires i < SLOTS
    {
      if i == HANDLER then this.(handler := x) else this.(operator := x)
    }
  }

  datatype Cause = NoCause | RouteCause | SwtCause | HookCause
  datatype Fault = NoFault | Fault(at32: nat, speed: nat, route: nat)

  /** The latest kinematic_state sample: |v| and its truncated uptime, 0 when none was taken. */
  datatype Sample = Sample(speed: nat, at: nat)

  /** The island's braking command: its start, and the speed noted then. */
  datatype Brake = Brake(since: int, ref: nat, refOk: bool)

  /** The floor's words in the record. */
  datatype Floor = Floor(stage: Judge.Stage, ref: nat, waits: nat, responseWaits: nat, latches: nat, responseLatches: nat)

  /** The reaction thread's wake sources: the semaphore, the two pending causes, SWT0 running, its own wait. */
  datatype Thread = Thread(wake: bool, hook: bool, swt: bool, swtRunning: bool, waitUntil: Option<int>)

  datatype State = State(
    cfg: Config,
    routes: Table,
    timer: Option<int>,
    slots: Slots,
    latched: bool, latchMs: int, cause: Cause,
    brake: Brake,
    directNext: int,
    sample: Sample,
    floor: Floor,
    fault: Fault,
    thread: Thread)

  // ------------------------------------------------------------------ the route table

  function Armed(due: int): Route { Route(true, due, true, Trunc32(due)) }

  function Cleared(r: Route): Route { r.(valid := false, armed := false) }

  function Min(a: Option<int>, d: int): Option<int>
  {
    if a.None? || d < a.value then Some(d) else a
  }

  /** The earliest due among `t`, `None` when none is armed. */
  function Earliest(t: seq<Route>): Option<int>
  {
    if t == [] then None
    else
      var e := Earliest(t[..|t| - 1]);
      if t[|t| - 1].valid then Min(e, t[|t| - 1].due) else e
  }

  function Rearm(s: State): State { s.(timer := Earliest(s.routes.List())) }

  predicate Fresh(s: State, now: int) { !Judge.Stale(now, s.sample.at) }

  predicate Stopped(s: State, now: int) { Judge.Standstill(now, s.sample.speed, s.sample.at) }

  function ResponseArm(s: State, start: int, ref: nat, refOk: bool): State
  {
    if s.cfg.responseMs == 0 then s
    else if !refOk then s.(routes := s.routes.(response := Cleared(s.routes.response)))
    else s.(routes := s.routes.(response := Armed(start + s.cfg.ResponseSpan())), floor := s.floor.(ref := ref))
  }

  /** Arm without the timer. */
  function ArmRoute(s: State, now: int, route: nat, due: int): State
    requires route < ROUTES
  {
    var a := s.(routes := s.routes.With(route, Armed(due)));
    if route == FLOOR
    then ResponseArm(a.(floor := a.floor.(stage := Judge.OperatorStage)), now, a.sample.speed, Fresh(a, now))
    else a
  }

  function ArmStep(s: State, now: int, route: nat, due: int): State
  {
    if route >= ROUTES then s else Rearm(ArmRoute(s, now, route, due))
  }

  /** Done without the timer. */
  function ClearRoute(s: State, route: nat): State
    requires route < ROUTES
  {
    var a := s.(routes := s.routes.With(route, Cleared(s.routes.At(route))));
    if route == FLOOR
    then a.(floor := a.floor.(stage := Judge.Idle),
            routes := if a.routes.response.valid then a.routes.(response := Cleared(a.routes.response)) else a.routes)
    else a
  }

  function DoneStep(s: State, route: nat): State
  {
    if route >= ROUTES || !s.routes.At(route).valid then s else Rearm(ClearRoute(s, route))
  }

  // ------------------------------------------------------------------ the reaction pass

  /** The pass so far: the state, and whether a judged route asks for the latch. */
  datatype Pass = Pass(s: State, fired: bool)

  /** The age of the island's braking command, as the judge is given it. */
  function Braked(s: State, now: int): nat { if s.latched then Trunc32(now - s.brake.since) else 0 }

  predicate Late(r: Route, now: int) { r.valid && r.due <= now }

  function ExecutorDue(nowUs: int, left: nat): int { (nowUs + left + 999) / 1000 }

  /** A floor or response miss with nothing latched: one settle for the direct path. */
  function FloorLatch(s: State, now: int): State
  {
    ResponseArm(
      s.(floor := s.floor.(stage := Judge.DirectStage),
         routes := s.routes.(floor := Armed(now + s.cfg.FloorSpan()))),
      now, s.sample.speed, Fresh(s, now))
  }

  /** A floor or response miss under a braking command that ran its span: final. */
  function FloorFault(s: State, now: int, route: nat): State
    requires route == FLOOR || route == RESPONSE
  {
    s.(floor := s.floor.(stage := Judge.Idle),
       routes := s.routes.(floor := Cleared(s.routes.floor), response := Cleared(s.routes.response)),
       fault := if s.fault.NoFault? then Fault(Trunc32(now), s.sample.speed, route) else s.fault)
  }

  predicate Answering(s: State, now: int)
  {
    Judge.Responded(Stopped(s, now), Fresh(s, now), s.floor.ref, s.sample.speed, s.cfg.dropMmS)
  }

  function FloorVerdict(s: State, now: int): Judge.Verdict
  {
    Judge.Floor(Stopped(s, now), s.latched, Braked(s, now), s.cfg.FloorSpan())
  }

  function ResponseVerdict(s: State, now: int): Judge.Verdict
  {
    Judge.Floor(Answering(s, now), s.latched, Braked(s, now), s.cfg.ResponseSpan())
  }

  /** What route 3's verdict does. */
  function ApplyFloor(p: Pass, now: int, v: Judge.Verdict): Pass
  {
    var s := p.s;
    match v
    case Met =>
      p.(s := s.(floor := s.floor.(stage := Judge.Idle),
                 routes := s.routes.(floor := Cleared(s.routes.floor), response := Cleared(s.routes.response))))
    case Wait =>
      p.(s := s.(floor := s.floor.(stage := Judge.DirectStage, waits := s.floor.waits + 1),
                 routes := s.routes.(floor := Armed(s.brake.since + s.cfg.FloorSpan()))))
    case Latch => Pass(FloorLatch(s.(floor := s.floor.(latches := s.floor.latches + 1)), now), true)
    case VehicleFault => p.(s := FloorFault(s, now, FLOOR))
  }

  /** What route 4's verdict does. */
  function ApplyResponse(p: Pass, now: int, v: Judge.Verdict): Pass
  {
    var s := p.s.(routes := p.s.routes.(response := Cleared(p.s.routes.response)));
    match v
    case Met => p.(s := s)
    case Wait =>
      p.(s := ResponseArm(s.(floor := s.floor.(responseWaits := s.floor.responseWaits + 1)),
                          s.brake.since, s.brake.ref, s.brake.refOk))
    case Latch => Pass(FloorLatch(s.(floor := s.floor.(responseLatches := s.floor.responseLatches + 1)), now), true)
    case VehicleFault => p.(s := FloorFault(s, now, RESPONSE))
  }

  /** Before any sample the floor watches another span. */
  function JudgeFloor(p: Pass, now: int): Pass
  {
    if Judge.Unseen(p.s.sample.at)
    then p.(s := p.s.(routes := p.s.routes.(floor := Armed(now + p.s.cfg.FloorSpan()))))
    else ApplyFloor(p, now, FloorVerdict(p.s, now))
  }

  function JudgeResponse(p: Pass, now: int): Pass { ApplyResponse(p, now, ResponseVerdict(p.s, now)) }

  function JudgeExecutor(p: Pass, left: nat, nowUs: int): Pass
  {
    var s := p.s;
    if left == U64_MAX then p.(s := s.(routes := s.routes.(executor := Cleared(s.routes.executor))))
    else if left != 0 then p.(s := s.(routes := s.routes.(executor := Armed(ExecutorDue(nowUs, left)))))
    else Pass(s.(routes := s.routes.(executor := Cleared(s.routes.executor))), true)
  }

  function JudgeComfortable(p: Pass, now: int): Pass
  {
    var s := p.s;
    Pass(s.(routes := s.routes.(comfortable := Cleared(s.routes.comfortable))), p.fired || !Stopped(s, now))
  }

  function JudgeCallMrm(p: Pass): Pass
  {
    Pass(p.s.(routes := p.s.routes.(callMrm := Cleared(p.s.routes.callMrm))), true)
  }

  /** Route `i` at the pass: untouched before its due, else cleared and judged. */
  function JudgeRoute(p: Pass, i: nat, now: int, left: nat, nowUs: int): Pass
    requires i < ROUTES
  {
    if !Late(p.s.routes.At(i), now) then p
    else if i == CALL_MRM then JudgeCallMrm(p)
    else if i == EXECUTOR then JudgeExecutor(p, left, nowUs)
    else if i == COMFORTABLE then JudgeComfortable(p, now)
    else if i == FLOOR then JudgeFloor(p, now)
    else JudgeResponse(p, now)
  }

  function JudgeRoutes(s: State, n: nat, now: int, left: nat, nowUs: int): Pass
    requires n <= ROUTES
  {
    if n == 0 then Pass(s, false)
    else JudgeRoute(JudgeRoutes(s, n - 1, now, left, nowUs), n - 1, now, left, nowUs)
  }

  function SafeState(s: State, now: int, cause: Cause): State
  {
    if s.latched then s else s.(latched := true, latchMs := now, cause := cause)
  }

  /** Everything a pass may latch on, in the order the thread looks. */
  function LatchAll(p: Pass, now: int): State
  {
    var a := if p.fired then SafeState(p.s, now, RouteCause) else p.s;
    var b := if a.thread.hook then SafeState(a, now, HookCause) else a;
    var c := if b.thread.swt then SafeState(b, now, SwtCause) else b;
    c.(thread := c.thread.(hook := false, swt := false))
  }

  /** The braking command (re)starts: at a latch, or at the operator slot's resume. */
  function BrakeStart(s: State, now: int): State
  {
    s.(brake := Brake(now, s.sample.speed, Fresh(s, now)))
  }

  // ------------------------------------------------------------------ the direct path

  predicate Owns(x: Slot) { x.registered && (!x.handover || x.resumed) }

  predicate Watched(x: Slot) { x.registered && x.handover && !x.resumed }

  predicate Pending(s: State) { Owns(s.slots.handler) || Owns(s.slots.operator) }

  function Period(s: State, x: Slot): nat { if x.period != 0 then x.period else s.cfg.directPeriodMs }

  /** The silence a handed-over slot is allowed, a 32-bit product. */
  function Limit(s: State, x: Slot): nat { Trunc32(Period(s, x) * s.cfg.resumePeriods) }

  predicate Silent(s: State, x: Slot, now: int)
  {
    Watched(x) && Judge.Resume(now, x.alive, Period(s, x), s.cfg.resumePeriods)
  }

  /** The operator slot's resume restarts the braking command; the floor is armed for it if it is not. */
  function ResumeBraking(s: State, now: int): State
  {
    var b := BrakeStart(s, now);
    if b.routes.floor.valid then b
    else
      Rearm(ResponseArm(
              b.(routes := b.routes.(floor := Armed(now + b.cfg.FloorSpan())),
                 floor := b.floor.(stage := Judge.DirectStage)),
              now, b.brake.ref, b.brake.refOk))
  }

  function ResumeSlot(s: State, i: nat, now: int): State
    requires i < SLOTS
  {
    if !Silent(s, s.slots.At(i), now) then s
    else
      var a := s.(slots := s.slots.With(i, s.slots.At(i).(resumed := true)));
      if i == OPERATOR then ResumeBraking(a, now) else a
  }

  function DirectWatch(s: State, now: int): State { ResumeSlot(ResumeSlot(s, HANDLER, now), OPERATOR, now) }

  function Called(x: Slot): Slot { if Owns(x) then x.(calls := x.calls + 1) else x }

  function DirectPublish(s: State): State
  {
    s.(slots := Slots(Called(s.slots.handler), Called(s.slots.operator)))
  }

  function DirectService(s: State, now: int): State
  {
    var w := DirectWatch(s, now);
    var n := if w.slots != s.slots then w.(directNext := now) else w;
    if Pending(n) && now >= n.directNext
    then DirectPublish(n).(directNext := now + n.cfg.directPeriodMs)
    else n
  }

  function ResumeDue(s: State, x: Slot, now: int): int
  {
    var silent, limit := Trunc32(now - x.alive), Limit(s, x);
    if silent >= limit then now else now + (limit - silent)
  }

  function WatchDue(s: State, e: Option<int>, x: Slot, now: int): Option<int>
  {
    if Watched(x) then Min(e, ResumeDue(s, x, now)) else e
  }

  /** When the thread next runs by itself: `None` is forever. */
  function LatchedWait(s: State, now: int): Option<int>
  {
    if !s.latched then None
    else
      var e := if Pending(s) then Some(s.directNext) else None;
      var w := WatchDue(s, WatchDue(s, e, s.slots.handler, now), s.slots.operator, now);
      if s.thread.swtRunning then Min(w, now + s.cfg.swtMs / 4) else w
  }

  function Sleep(s: State, now: int): State { s.(thread := s.thread.(waitUntil := LatchedWait(s, now))) }

  /** A wake up to the direct path: judge, re-arm, latch, start braking if this pass latched. */
  function React(s: State, now: int, left: nat, nowUs: int): State
  {
    var p := JudgeRoutes(s, ROUTES, now, left, nowUs);
    var l := LatchAll(p.(s := Rearm(p.s)), now);
    if !s.latched && l.latched then BrakeStart(l, now).(directNext := now) else l
  }

  function Serve(s: State, now: int): State { Sleep(if s.latched then DirectService(s, now) else s, now) }

  /** One wake of the reaction thread: react, serve the direct path, sleep. */
  function WakeStep(s: State, now: int, left: nat, nowUs: int): State
  {
    Serve(React(s.(thread := s.thread.(wake := false)), now, left, nowUs), now)
  }

  /** The thread's wait ran out: a publish period or a resume deadline. */
  function TimeoutStep(s: State, now: int): State { Serve(s, now) }

  // ------------------------------------------------------------------ the executor's side

  /** The slot's executor path may publish this tick (what the report answers). */
  predicate Holds(s: State, slot: nat) { slot < SLOTS && s.latched && !s.slots.At(slot).resumed }

  function ReportStep(s: State, now: int, slot: nat, period: nat): State
  {
    if !Holds(s, slot) then s
    else
      var x := s.slots.At(slot);
      s.(slots := s.slots.With(slot, x.(alive := Trunc32(now), period := period, handover := true)),
         thread := s.thread.(wake := s.thread.wake || !x.handover))
  }

  function SpeedStep(s: State, now: int, speed: nat): State { s.(sample := Sample(speed, Trunc32(now))) }

  // ------------------------------------------------------------------ behaviours

  datatype Event =
    | Arm(route: nat, due: int)
    | Done(route: nat)
    | NoteSpeed(speed: nat)
    | Report(slot: nat, period: nat)
    | Hook
    | SwtFire
    | SwtStart
    | Wake(left: nat, nowUs: int)
    | Timeout

  datatype Timed = Timed(at: nat, ev: Event)

  function Step(s: State, now: int, ev: Event): State
  {
    match ev
    case Arm(route, due) => ArmStep(s, now, route, due)
    case Done(route) => DoneStep(s, route)
    case NoteSpeed(speed) => SpeedStep(s, now, speed)
    case Report(slot, period) => ReportStep(s, now, slot, period)
    case Hook => s.(thread := s.thread.(hook := true, wake := true))
    case SwtFire => s.(thread := s.thread.(swt := true, wake := true))
    case SwtStart => s.(thread := s.thread.(swtRunning := true))
    case Wake(left, nowUs) => WakeStep(s, now, left, nowUs)
    case Timeout => TimeoutStep(s, now)
  }

  const OFF: Route := Route(false, 0, false, 0)

  predicate Untouched(x: Slot) { !x.handover && !x.resumed && x.calls == 0 }

  /** At boot: nothing armed, nothing latched; the slots are registered at construction. */
  predicate Boot(s: State)
  {
    && s.cfg.Valid()
    && s.routes == Table(OFF, OFF, OFF, OFF, OFF)
    && Untouched(s.slots.handler) && Untouched(s.slots.operator)
    && s.timer.None? && !s.latched && s.fault.NoFault? && s.sample == Sample(0, 0)
    && s.floor == Floor(Judge.Idle, 0, 0, 0, 0, 0)
    && s.thread == Thread(false, false, false, false, None)
  }

  /** Route 4 is armed by the supervisor alone; a pass reads a microsecond clock no earlier than its ms. */
  predicate Admissible(e: Timed)
  {
    match e.ev
    case Arm(route, _) => route != RESPONSE
    case Wake(_, nowUs) => nowUs >= 1000 * e.at
    case _ => true
  }

  /** `ss` are the states of a run of `es` from boot, one event per lock release, on one clock. */
  ghost predicate Behaviour(ss: seq<State>, es: seq<Timed>)
  {
    |ss| == |es| + 1 && Boot(ss[0]) && forall k | 0 <= k < |es| :: StepAt(ss, es, k)
  }

  ghost predicate StepAt(ss: seq<State>, es: seq<Timed>, k: nat)
    requires |ss| == |es| + 1 && k < |es|
  {
    && Admissible(es[k]) && ss[k + 1] == Step(ss[k], es[k].at, es[k].ev)
    && (k > 0 ==> es[k - 1].at <= es[k].at)
  }

  predicate NotPast(deadline: Option<int>, prev: int, at: int)
  {
    deadline.Some? ==> at <= (if deadline.value < prev then prev else deadline.value)
  }

  /** Time does not pass a wake that is due: the semaphore, the timer, or the thread's own wait. */
  predicate Prompt(s: State, prev: int, at: int)
  {
    (s.thread.wake ==> at <= prev) && NotPast(s.timer, prev, at) && NotPast(s.thread.waitUntil, prev, at)
  }

  /** The run is prompt from its `m`-th state on: the reaction thread is never kept from a due wake. */
  ghost predicate PromptFrom(ss: seq<State>, es: seq<Timed>, m: nat)
    requires |ss| == |es| + 1
  {
    forall k | m <= k < |es| && 0 < k :: Prompt(ss[k], es[k - 1].at, es[k].at)
  }
}
