/** The emergency operator and its half of the direct path, beside the supervisor, as one state machine. */
module OperatorSpec {
  import opened Words
  import opened SupervisorSpec
  import opened BrakeLaw

  /** A longitudinal command: its stamp on the island's clock (ms), velocity, acceleration, jerk; and the steering. */
  datatype Cmd = Cmd(stamp: int, v: real, a: real, j: real, steer: real)

  /** The operator's fields. */
  datatype Operator = Operator(law: Law, period: nat, operating: bool, prev: Cmd, subscribed: bool, takenOver: bool)

  /** The direct path's own words: the seed, the start taken from it at the first call, the last command. */
  datatype Direct = Direct(seed: Option<Cmd>, v0: real, a0: real, steer: real, last: Option<Cmd>)

  function Seconds(ms: int): real { ms as real / 1000.0 }

  // ------------------------------------------------------------------ the direct path's command

  /** At its first call the direct path takes its start from the seed. */
  function Seeded(d: Direct, n: nat): Direct
  {
    if n != 0 then d
    else if d.seed.None? then d.(v0 := 0.0, a0 := 0.0, steer := 0.0)
    else d.(v0 := d.seed.value.v, a0 := d.seed.value.a, steer := d.seed.value.steer)
  }

  function DirectCmd(l: Law, d: Direct, sinceMs: nat, stamp: int): Cmd
    requires l.Valid()
  {
    var t := Seconds(sinceMs);
    var a := Acceleration(l, d.a0, t);
    Cmd(stamp, Velocity(l, d.v0, d.a0, t), a, if a > l.target then l.jerk else 0.0, d.steer)
  }

  // ------------------------------------------------------------------ the operator's command

  const MAX_DT: real := 0.1

  function ClampDt(raw: real): real { if raw < 0.0 then 0.0 else if raw > MAX_DT then MAX_DT else raw }

  /** `calcTargetAcceleration`. */
  function TargetCmd(o: Operator, now: int): Cmd
  {
    if !o.subscribed then Cmd(now, 0.0, o.law.target, 0.0, 0.0)
    else
      var dt := ClampDt(Seconds(now - o.prev.stamp));
      var p := BrakeLaw.Step(o.law, Point(o.prev.v, o.prev.a), dt);
      Cmd(now, p.v, p.a, if o.prev.a == o.law.target then 0.0 else o.law.jerk, o.prev.steer)
  }

  // ------------------------------------------------------------------ the system

  datatype System = System(s: State, o: Operator, d: Direct)

  datatype SysEvent =
    | Sup(ev: Event)
    | OpTick
    | Control(msg: Cmd)
    | Operate(on: bool)

  datatype SysTimed = SysTimed(at: nat, ev: SysEvent)

  /** The tick reports to the supervisor: it is OPERATING and has taken over, or takes over now. */
  predicate Reports(y: System) { y.o.operating && (y.o.takenOver || y.s.latched) }

  /** What the event does on the supervisor's side; a tick without a report, and the rest, touch nothing there. */
  function SupEvent(y: System, ev: SysEvent): Event
  {
    match ev
    case Sup(e) => e
    case OpTick => if Reports(y) then Report(OPERATOR, y.o.period) else Done(ROUTES)
    case _ => Done(ROUTES)
  }

  /** The operator at its tick, before it computes its command: at the takeover it continues the direct path's. */
  function TakeOver(y: System): Operator
  {
    if !y.o.takenOver && y.s.latched then
      if y.d.last.Some? then y.o.(takenOver := true, prev := y.d.last.value, subscribed := true)
      else y.o.(takenOver := true)
    else y.o
  }

  /** The tick publishes a command of its own. */
  predicate TickSends(y: System) { y.o.operating && (TakeOver(y).takenOver ==> Holds(y.s, OPERATOR)) }

  /** The direct path's function is called in this step. */
  predicate DirectCalled(s: State, t: State) { t.slots.operator.calls > s.slots.operator.calls }

  function SysStep(y: System, at: int, ev: SysEvent): System
    requires y.o.law.Valid()
  {
    var t := SupervisorSpec.Step(y.s, at, SupEvent(y, ev));
    match ev
    case Sup(e) =>
      if DirectCalled(y.s, t) then
        var d := Seeded(y.d, y.s.slots.operator.calls);
        System(t, y.o, d.(last := Some(DirectCmd(y.o.law, d, Trunc32(at - t.latchMs), at))))
      else System(t, y.o, y.d)
    case OpTick =>
      if y.o.operating then
        var o := TakeOver(y);
        System(t, if TickSends(y) then o.(prev := TargetCmd(o, at)) else o, y.d)
      else System(t, y.o, y.d)
    case Control(msg) =>
      if !y.o.operating then System(t, y.o.(prev := msg, subscribed := true), y.d.(seed := Some(msg)))
      else System(t, y.o, y.d)
    case Operate(on) => System(t, y.o.(operating := on), y.d)
  }

  /** What the step puts on the emergency control topic; not OPERATING and unlatched, the last command passes through. */
  function Sent(y: System, at: int, ev: SysEvent): Option<Cmd>
    requires y.o.law.Valid()
  {
    match ev
    case Sup(_) => if DirectCalled(y.s, SysStep(y, at, ev).s) then SysStep(y, at, ev).d.last else None
    case OpTick =>
      if y.o.operating then if TickSends(y) then Some(SysStep(y, at, ev).o.prev) else None
      else if !y.s.latched then Some(y.o.prev) else None
    case _ => None
  }

  predicate SysBoot(y: System)
  {
    && Boot(y.s) && y.s.slots.operator.registered && y.o.law.Valid()
    && !y.o.operating && !y.o.subscribed && !y.o.takenOver
    && y.d.seed.None? && y.d.last.None?
  }

  /** The operator's reports come from its tick alone. */
  predicate SysAdmissible(e: SysTimed)
  {
    e.ev.Sup? ==> Admissible(Timed(e.at, e.ev.ev)) && !(e.ev.ev.Report? && e.ev.ev.slot == OPERATOR)
  }

  ghost predicate SysRun(ys: seq<System>, es: seq<SysTimed>)
  {
    |ys| == |es| + 1 && SysBoot(ys[0]) && forall k | 0 <= k < |es| :: SysStepAt(ys, es, k)
  }

  ghost predicate SysStepAt(ys: seq<System>, es: seq<SysTimed>, k: nat)
    requires |ys| == |es| + 1 && k < |es|
  {
    && ys[k].o.law.Valid() && SysAdmissible(es[k]) && ys[k + 1] == SysStep(ys[k], es[k].at, es[k].ev)
    && (k > 0 ==> es[k - 1].at <= es[k].at)
  }

  // ------------------------------------------------------------------ its supervisor is a supervisor

  ghost function States(ys: seq<System>): seq<State> { seq(|ys|, i requires 0 <= i < |ys| => ys[i].s) }

  ghost function Events(ys: seq<System>, es: seq<SysTimed>): seq<Timed>
    requires |ys| == |es| + 1
  {
    seq(|es|, i requires 0 <= i < |es| => Timed(es[i].at, SupEvent(ys[i], es[i].ev)))
  }

  lemma SysStepSupervisor(y: System, at: int, ev: SysEvent)
    requires y.o.law.Valid()
    ensures SysStep(y, at, ev).s == SupervisorSpec.Step(y.s, at, SupEvent(y, ev))
  {
  }

  lemma ProjectsToBehaviour(ys: seq<System>, es: seq<SysTimed>)
    requires SysRun(ys, es)
    ensures Behaviour(States(ys), Events(ys, es))
  {
    var ss, ts := States(ys), Events(ys, es);
    forall k | 0 <= k < |ts|
      ensures StepAt(ss, ts, k)
    {
      assert SysStepAt(ys, es, k);
      SysStepSupervisor(ys[k], es[k].at, es[k].ev);
    }
  }
}
