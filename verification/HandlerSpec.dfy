/**
 * The MRM handler as a state machine: its callbacks, its timer tick, and the requests and supervisor
 * calls each of them makes. One clock, in milliseconds, is read once per callback or tick.
 */
module HandlerSpec {
  import opened Words
  import S = SupervisorSpec

  datatype Params = Params(
    maxAge: nat, initTimeout: nat, takeoverTimeout: nat, recovery: nat,
    useTakeover: bool, useComfortable: bool, usePullOver: bool, useHolding: bool,
    periodMs: nat, callMrmMs: nat, comfortableMs: nat, emergencyMs: nat, observeMs: nat)

  /** What the availability stream says may run. */
  datatype Availability = Availability(
    stop: bool, autonomous: bool, local: bool, remote: bool, pullOver: bool, comfortableStop: bool)

  datatype Mode = Unknown | StopMode | Autonomous | Local | Remote | Invalid
  datatype Control = AutonomousControl | OtherControl

  /** The cached samples; speed is |v| in mm/s. */
  datatype Inputs = Inputs(
    availability: Availability, heardAvailability: bool, heardComfortable: bool, heardEmergency: bool,
    speed: Option<nat>, control: Option<Control>, mode: Option<Mode>)

  /** The last two arrivals of a periodic input. */
  datatype Arrivals = Arrivals(count: nat, prev: int, last: int)
  {
    function Note(t: int): Arrivals { Arrivals(if count < 2 then count + 1 else count, last, t) }
    function Reset(): Arrivals { this.(count := 0) }
    predicate Established(window: int, now: int) { count >= 2 && last - prev <= window && now - last <= window }
  }

  datatype Streams = Streams(availability: Arrivals, comfortable: Arrivals, emergency: Arrivals)

  datatype MrmState = Normal | Operating | Succeeded | Failed
  datatype Behavior = NoBehavior | PullOver | ComfortableStop | EmergencyStop
  datatype Mrm = Mrm(state: MrmState, behavior: Behavior)

  datatype Phase = Init | Run

  /** The start-up lifecycle; `monitorsAt` is the truncated uptime the monitors were armed at, 0 before. */
  datatype Life = Life(boot: int, phase: Phase, failed: bool, monitorsAt: nat)

  datatype Takeover = Takeover(requested: bool, expired: bool, since: int)

  /** The value fault's holding: since when the current mode is unavailable, and whether it is held. */
  datatype Holding = Holding(since: Option<int>, held: bool)

  datatype Handler = Handler(
    p: Params, inp: Inputs, streams: Streams, life: Life, stamp: int,
    timedOut: bool, latchSeen: bool, holding: Holding, takeover: Takeover, mrm: Mrm)

  /** A call into the supervisor; a due is relative to the clock at the call. */
  datatype Call = ArmIn(route: nat, span: nat) | Finish(route: nat) | Alive(slot: nat, period: nat)

  function Event(c: Call, now: int): S.Event
  {
    match c
    case ArmIn(route, span) => S.Arm(route, now + span)
    case Finish(route) => S.Done(route)
    case Alive(slot, period) => S.Report(slot, period)
  }

  /** What becomes of a request: sent, refused by the transport, or not even serialised. */
  datatype Outcome = Sent | Refused | Unserialised

  datatype Request = Request(behavior: Behavior, operate: bool)

  /** A tick's requests, by their place: the cancel, the call, and the failed request's emergency call. */
  datatype Sends = Sends(cancel: Outcome, call: Outcome, emergency: Outcome)

  /** A step's result: the handler, the requests handed to the transport, and the supervisor calls, in order. */
  datatype Out = Out(h: Handler, tried: seq<Request>, calls: seq<Call>)

  const NOTHING: Availability := Availability(false, false, false, false, false, false)

  function Boot(p: Params, now: int): Handler
  {
    Handler(p, Inputs(NOTHING, false, false, false, None, None, None),
            Streams(Arrivals(0, 0, 0), Arrivals(0, 0, 0), Arrivals(0, 0, 0)),
            Life(now, Init, false, 0), now, false, false, Holding(None, false), Takeover(false, false, 0),
            Mrm(Normal, NoBehavior))
  }

  // ------------------------------------------------------------------ what the handler reads

  function CurrentMode(h: Handler): Mode { if h.inp.mode.Some? then h.inp.mode.value else Unknown }

  predicate Available(h: Handler)
  {
    var a := h.inp.availability;
    match CurrentMode(h)
    case StopMode => a.stop
    case Autonomous => a.autonomous
    case Local => a.local
    case Remote => a.remote
    case _ => false
  }

  predicate AtStandstill(h: Handler) { h.inp.speed == Some(0) }

  predicate InAutonomousControl(h: Handler) { h.inp.control == Some(AutonomousControl) }

  predicate InputLost(h: Handler) { h.timedOut || h.life.failed || h.latchSeen }

  predicate Emergency(h: Handler) { !Available(h) || h.holding.held || InputLost(h) }

  // ------------------------------------------------------------------ the callbacks

  function OnAvailability(h: Handler, now: int, a: Availability): Handler
  {
    var g := h.(stamp := now, streams := h.streams.(availability := h.streams.availability.Note(now)),
                inp := h.inp.(availability := a, heardAvailability := true));
    HoldingStep(g, now)
  }

  /** The emergency is held once the current mode has been unavailable for the recovery time. */
  function HoldingStep(g: Handler, now: int): Handler
  {
    if !g.p.useHolding || g.holding.held then g
    else if Available(g) then g.(holding := Holding(None, false))
    else
      var since := if g.holding.since.Some? then g.holding.since.value else now;
      g.(holding := Holding(Some(since), now - since > g.p.recovery))
  }

  /** A take moves route 0's due on, once the monitors are armed. */
  function TakeCalls(h: Handler): seq<Call>
  {
    if h.life.monitorsAt != 0 then [ArmIn(S.CALL_MRM, h.p.maxAge + h.p.callMrmMs)] else []
  }

  function OnComfortableStatus(h: Handler, now: int, available: bool): Handler
  {
    var c := h.streams.comfortable;
    h.(inp := h.inp.(heardComfortable := true),
       streams := h.streams.(comfortable := if available then c.Note(now) else c.Reset()))
  }

  function OnEmergencyStatus(h: Handler, now: int, available: bool): Handler
  {
    var c := h.streams.emergency;
    h.(inp := h.inp.(heardEmergency := true),
       streams := h.streams.(emergency := if available then c.Note(now) else c.Reset()))
  }

  // ------------------------------------------------------------------ the start-up lifecycle

  datatype Mark = NoMark | InitDone | InitTimeout | InitRecovery

  /** Every required input is heard and, if periodic, established. */
  predicate AllEstablished(h: Handler, now: int)
  {
    && h.inp.heardAvailability && h.streams.availability.Established(h.p.maxAge, now)
    && h.inp.mode.Some?
    && (h.p.useComfortable ==> h.inp.heardComfortable && h.streams.comfortable.Established(h.p.maxAge, now))
    && h.inp.heardEmergency && h.streams.emergency.Established(h.p.maxAge, now)
  }

  /** What the tick's lifecycle step announces. */
  function PhaseMark(h: Handler, now: int): Mark
  {
    if h.life.phase.Run?
    then if h.life.failed && AllEstablished(h, now) then InitRecovery else NoMark
    else if AllEstablished(h, now) then InitDone
    else if now - h.life.boot >= h.p.initTimeout then InitTimeout
    else NoMark
  }

  predicate ArmsMonitors(m: Mark) { m.InitDone? || m.InitRecovery? }

  function PhaseStep(h: Handler, now: int): Handler
  {
    match PhaseMark(h, now)
    case NoMark => h
    case InitTimeout => h.(life := h.life.(phase := Run, failed := true))
    case InitDone => h.(life := h.life.(phase := Run, monitorsAt := Trunc32(now)))
    case InitRecovery => h.(life := h.life.(failed := false, monitorsAt := Trunc32(now)))
  }

  // ------------------------------------------------------------------ the state

  /** Whether the MRM must wait for the driver, and the request. */
  function TakeoverStep(h: Handler, now: int): (Takeover, bool)
  {
    var t := h.takeover;
    if !InAutonomousControl(h) then (t.(requested := false), false)
    else if !h.p.useTakeover || t.expired || CurrentMode(h) != Autonomous then (t, false)
    else if InputLost(h) then (t.(requested := false), false)
    else if !t.requested then (Takeover(true, t.expired, now), true)
    else if now - t.since < h.p.takeoverTimeout then (t, true)
    else (Takeover(false, true, t.since), false)
  }

  function WithState(h: Handler, s: MrmState): Handler { h.(mrm := h.mrm.(state := s)) }

  /** Route 2 or 3 is met when the handler itself sees the standstill. */
  function StandstillCalls(b: Behavior): seq<Call>
  {
    if b.ComfortableStop? then [Finish(S.COMFORTABLE)] else if b.EmergencyStop? then [Finish(S.FLOOR)] else []
  }

  function CurrentBehavior(h: Handler): Behavior
  {
    var a, b := h.inp.availability, h.mrm.behavior;
    if InputLost(h) then EmergencyStop
    else if (b.NoBehavior? || b.PullOver? || AtStandstill(h)) && a.pullOver && h.p.usePullOver then PullOver
    else if !b.EmergencyStop? && a.comfortableStop && h.p.useComfortable then ComfortableStop
    else EmergencyStop
  }

  /** The tick's state decision; `fault` is the supervisor's vehicle fault. */
  function UpdateState(h: Handler, now: int, fault: bool): Out
  {
    if h.latchSeen && fault then Out(h.(mrm := Mrm(Failed, EmergencyStop)), [], [])
    else if !Emergency(h)
    then Out(WithState(h, Normal).(takeover := Takeover(false, false, h.takeover.since)), [], [])
    else
      match h.mrm.state
      case Normal =>
        var (t, wait) := TakeoverStep(h, now);
        var g := h.(takeover := t);
        Out(if !wait && InAutonomousControl(h) then WithState(g, Operating) else g, [], [])
      case Operating =>
        if !AtStandstill(h) then Out(h, [], [])
        else
          Out(if !h.mrm.behavior.PullOver? || h.inp.mode == Some(StopMode) then WithState(h, Succeeded) else h,
              [], StandstillCalls(h.mrm.behavior))
      case Succeeded => Out(if h.mrm.behavior != CurrentBehavior(h) then WithState(h, Operating) else h, [], [])
      case Failed => Out(h, [], [])
  }

  // ------------------------------------------------------------------ the requests

  predicate Accepted(b: Behavior, o: Outcome)
  {
    match b
    case NoBehavior => !o.Unserialised?
    case PullOver => false
    case _ => o.Sent?
  }

  function Tried(b: Behavior, operate: bool, o: Outcome): seq<Request>
  {
    if o.Unserialised? || b.NoBehavior? || b.PullOver? then [] else [Request(b, operate)]
  }

  /** The floor is armed before the send, the comfortable stop only once its request is sent. */
  function RequestCalls(p: Params, b: Behavior, operate: bool, o: Outcome): seq<Call>
  {
    if o.Unserialised? then []
    else
      match b
      case EmergencyStop => [if operate then ArmIn(S.FLOOR, p.emergencyMs + p.observeMs) else Finish(S.FLOOR)]
      case ComfortableStop =>
        if o.Sent? then [if operate then ArmIn(S.COMFORTABLE, p.comfortableMs + p.observeMs) else Finish(S.COMFORTABLE)] else []
      case _ => []
  }

  /** A request that failed falls to the emergency stop. */
  function FailedRequest(h: Handler, o: Outcome): Out
  {
    Out(h.(mrm := Mrm(if Accepted(EmergencyStop, o) then Operating else Failed, EmergencyStop)),
        Tried(EmergencyStop, true, o), RequestCalls(h.p, EmergencyStop, true, o))
  }

  function After(tried: seq<Request>, calls: seq<Call>, o: Out): Out { Out(o.h, tried + o.tried, calls + o.calls) }

  function Operate(h: Handler, sends: Sends): Out
  {
    var b := h.mrm.behavior;
    var next := if h.mrm.state.Normal? then NoBehavior else CurrentBehavior(h);
    if h.mrm.state.Succeeded? || h.mrm.state.Failed? || next == b then Out(h, [], [])
    else
      After(Tried(b, false, sends.cancel), RequestCalls(h.p, b, false, sends.cancel),
            if !Accepted(b, sends.cancel) then FailedRequest(h, sends.emergency)
            else if h.mrm.state.Normal? then Out(h.(mrm := Mrm(Normal, NoBehavior)), [], [])
            else CallNext(h, next, sends))
  }

  function CallNext(h: Handler, next: Behavior, sends: Sends): Out
  {
    After(Tried(next, true, sends.call), RequestCalls(h.p, next, true, sends.call),
          if Accepted(next, sends.call) then Out(h.(mrm := h.mrm.(behavior := next)), [], [])
          else FailedRequest(h, sends.emergency))
  }

  // ------------------------------------------------------------------ the tick

  /** What a tick reads of the supervisor and of the transport. */
  datatype Read = Read(latched: bool, fault: bool, sends: Sends)

  /** A RUN tick's own reading of its inputs, before it decides. */
  function Sense(h: Handler, now: int, latched: bool): Handler
  {
    h.(timedOut := now - h.stamp > h.p.maxAge, latchSeen := latched)
  }

  function Decide(h: Handler, now: int, fault: bool, sends: Sends): Out
  {
    var u := UpdateState(h, now, fault);
    After(u.tried, u.calls, Operate(u.h, sends))
  }

  /** The reaction to a lost stream is out, and a tick that read the latch reports itself alive. */
  function ClosingCalls(h: Handler): seq<Call>
  {
    (if h.timedOut then [Finish(S.CALL_MRM)] else []) + (if h.latchSeen then [Alive(S.HANDLER, h.p.periodMs)] else [])
  }

  /** The handler as a RUN tick at `now` judges it. */
  function Sensed(h: Handler, now: int, latched: bool): Handler { Sense(PhaseStep(h, now), now, latched) }

  /** The timer tick: silent in INIT. */
  function Tick(h: Handler, now: int, r: Read): Out
  {
    var g := PhaseStep(h, now);
    if g.life.phase.Init? then Out(g, [], [])
    else
      var s := Sense(g, now, r.latched);
      var d := Decide(s, now, r.fault, r.sends);
      Out(d.h, d.tried, d.calls + ClosingCalls(s))
  }

  // ------------------------------------------------------------------ behaviours

  datatype Step =
    | Take(a: Availability)
    | Odometry(speed: nat)
    | ControlMode(c: Control)
    | OperationMode(m: Mode)
    | ComfortableStatus(available: bool)
    | EmergencyStatus(available: bool)
    | OnTimer(r: Read)
    | Elsewhere

  datatype Timed = Timed(at: int, ev: Step)

  function Next(h: Handler, now: int, e: Step): Out
  {
    match e
    case Take(a) => Out(OnAvailability(h, now, a), [], TakeCalls(h))
    case Odometry(speed) => Out(h.(inp := h.inp.(speed := Some(speed))), [], [])
    case ControlMode(c) => Out(h.(inp := h.inp.(control := Some(c))), [], [])
    case OperationMode(m) => Out(h.(inp := h.inp.(mode := Some(m))), [], [])
    case ComfortableStatus(available) => Out(OnComfortableStatus(h, now, available), [], [])
    case EmergencyStatus(available) => Out(OnEmergencyStatus(h, now, available), [], [])
    case OnTimer(r) => Tick(h, now, r)
    case Elsewhere => Out(h, [], [])
  }

  /** `hs` are the handler's states along the callbacks and ticks `es`, from its construction, on one clock. */
  ghost predicate HandlerRun(hs: seq<Handler>, es: seq<Timed>)
  {
    && |hs| == |es| + 1
    && hs[0] == Boot(hs[0].p, hs[0].life.boot)
    && (forall k | 0 <= k < |es| :: StepAt(hs, es, k))
  }

  ghost predicate StepAt(hs: seq<Handler>, es: seq<Timed>, k: nat)
    requires |hs| == |es| + 1 && k < |es|
  {
    && hs[0].life.boot <= es[k].at && hs[k + 1] == Next(hs[k], es[k].at, es[k].ev).h
    && (k > 0 ==> es[k - 1].at <= es[k].at)
  }
}
