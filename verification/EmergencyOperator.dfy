/** The emergency stop operator as it runs: its callbacks update its fields, and its direct function runs on the reaction thread. */
module EmergencyOperator {
  import opened Words
  import opened SupervisorSpec
  import opened BrakeLaw
  import opened OperatorSpec
  import opened SupervisorClass

  /** The direct path's piecewise ramp, `t` after its start. */
  method ClosedForm(l: Law, v0: real, a0: real, t: real) returns (acc: real, vel: real)
    requires l.Valid()
    ensures acc == Acceleration(l, a0, t) && vel == Velocity(l, v0, a0, t)
  {
    var a := if a0 < l.target then l.target else a0;
    var ramp := (l.target - a) / l.jerk;
    if t < ramp {
      acc := a + l.jerk * t;
      vel := v0 + a * t + 0.5 * l.jerk * t * t;
    } else {
      acc := l.target;
      vel := v0 + a * ramp + 0.5 * l.jerk * ramp * ramp + l.target * (t - ramp);
    }
    assert acc == Acceleration(l, a0, t) && vel == Integral(l, v0, a0, t);
    if vel < 0.0 {
      vel := 0.0;
    }
  }

  /** One integrated step: the velocity stops at zero, the acceleration at the target. */
  method Integrated(l: Law, p: Point, dt: real) returns (q: Point)
    ensures q == BrakeLaw.Step(l, p, dt)
  {
    var v, a := p.v + p.a * dt, p.a + l.jerk * dt;
    if v < 0.0 { v := 0.0; }
    if a < l.target { a := l.target; }
    q := Point(v, a);
  }

  class EmergencyStopOperator {
    const law: Law
    const period: nat
    var operating: bool
    var prev: Cmd
    var subscribed: bool
    var takenOver: bool
    var seed: Option<Cmd>
    var v0: real
    var a0: real
    var steer: real
    var last: Option<Cmd>

    function View(): Operator
      reads this
    {
      Operator(law, period, operating, prev, subscribed, takenOver)
    }

    function Words(): Direct
      reads this
    {
      Direct(seed, v0, a0, steer, last)
    }

    constructor (law: Law, updateRate: nat)
      requires updateRate > 0
      ensures View().law == law && View().period == 1000 / updateRate
      ensures !operating && !subscribed && !takenOver && seed.None? && last.None?
    {
      this.law := law;
      this.period := 1000 / updateRate;
      operating, subscribed, takenOver := false, false, false;
      prev := Cmd(0, 0.0, 0.0, 0.0, 0.0);
      seed, last := None, None;
      v0, a0, steer := 0.0, 0.0, 0.0;
    }

    method OnControlCommand(msg: Cmd)
      modifies this`prev, this`subscribed, this`seed
      ensures !operating ==> View() == old(View()).(prev := msg, subscribed := true) && Words() == old(Words()).(seed := Some(msg))
      ensures operating ==> View() == old(View()) && Words() == old(Words())
    {
      if !operating {
        prev := msg;
        subscribed := true;
        seed := Some(msg);
      }
    }

    method OperateEmergencyStop(on: bool)
      modifies this`operating
      ensures View() == old(View()).(operating := on)
    {
      operating := on;
    }

    /** The direct path's function, call `n`, `sinceMs` after the latch. */
    method DirectBrake(n: nat, sinceMs: nat, stamp: int) returns (c: Cmd)
      requires law.Valid()
      modifies this`v0, this`a0, this`steer, this`last
      ensures Words() == Seeded(old(Words()), n).(last := Some(c))
      ensures c == DirectCmd(law, Seeded(old(Words()), n), sinceMs, stamp)
    {
      if n == 0 {
        v0 := if seed.Some? then seed.value.v else 0.0;
        a0 := if seed.Some? then seed.value.a else 0.0;
        steer := if seed.Some? then seed.value.steer else 0.0;
      }
      var acc, vel := ClosedForm(law, v0, a0, Seconds(sinceMs));
      c := Cmd(stamp, vel, acc, if acc > law.target then law.jerk else 0.0, steer);
      last := Some(c);
    }

    method CalcTarget(now: int) returns (c: Cmd)
      ensures c == TargetCmd(View(), now)
    {
      if !subscribed {
        return Cmd(now, 0.0, law.target, 0.0, 0.0);
      }
      var dt := Seconds(now - prev.stamp);
      if dt < 0.0 { dt := 0.0; }
      if dt > MAX_DT { dt := MAX_DT; }
      var p := Integrated(law, Point(prev.v, prev.a), dt);
      c := Cmd(now, p.v, p.a, if prev.a == law.target then 0.0 else law.jerk, prev.steer);
    }

    /** The operator's tick: `sent` is what it puts on the emergency control topic. */
    method OnTimer(sup: Supervisor, now: int) returns (sent: Option<Cmd>)
      requires law.Valid() && sup.Valid()
      modifies this`prev, this`subscribed, this`takenOver, sup
      ensures sup.Valid()
      ensures System(sup.View(), View(), Words()) == SysStep(old(System(sup.View(), View(), Words())), now, OpTick)
      ensures sent == Sent(old(System(sup.View(), View(), Words())), now, OpTick)
    {
      sent := None;
      if operating {
        var publish := true;
        if !takenOver && sup.latched {
          takenOver := true;
          if last.Some? {
            prev := last.value;
            subscribed := true;
          }
        }
        if takenOver {
          publish := sup.Handover(OPERATOR, period, now);
        }
        if publish {
          prev := CalcTarget(now);
          sent := Some(prev);
        }
      } else if !sup.latched {
        sent := Some(prev);
      }
    }
  }
}
