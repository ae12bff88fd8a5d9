/** What the braking commands carry on from: the last control command, in acceleration, velocity and steering. */
module SeedRuns {
  import opened Words
  import opened SupervisorSpec
  import opened RouteTable
  import opened SupervisorRuns
  import opened BrakeLaw
  import opened OperatorSpec
  import opened BrakingRuns
  import DirectPath

  // ------------------------------------------------------------------ the seed

  /** The last control command taken while the operator was not OPERATING. */
  ghost function LastControl(ys: seq<System>, es: seq<SysTimed>, k: nat): Option<Cmd>
    requires |ys| == |es| + 1 && k <= |es|
  {
    if k == 0 then None
    else if es[k - 1].ev.Control? && !ys[k - 1].o.operating then Some(es[k - 1].ev.msg)
    else LastControl(ys, es, k - 1)
  }

  /** What braking starts from: that command, and rest without one. */
  function StartOf(c: Option<Cmd>): Cmd { if c.Some? then c.value else Cmd(0, 0.0, 0.0, 0.0, 0.0) }

  lemma {:induction false} SeedIsLast(ys: seq<System>, es: seq<SysTimed>, k: nat)
    requires SysRun(ys, es) && k <= |es|
    ensures ys[k].d.seed == LastControl(ys, es, k)
  {
    if k > 0 {
      SeedIsLast(ys, es, k - 1);
      assert SysStepAt(ys, es, k - 1);
    }
  }

  /** The operator is OPERATING exactly when the last operate request said so, and never before one. */
  ghost function LastOperate(es: seq<SysTimed>, k: nat): bool
    requires k <= |es|
  {
    k > 0 && if es[k - 1].ev.Operate? then es[k - 1].ev.on else LastOperate(es, k - 1)
  }

  lemma {:induction false} OperatingIsLast(ys: seq<System>, es: seq<SysTimed>, k: nat)
    requires SysRun(ys, es) && k <= |es|
    ensures ys[k].o.operating == LastOperate(es, k)
  {
    if k > 0 {
      OperatingIsLast(ys, es, k - 1);
      assert SysStepAt(ys, es, k - 1);
    }
  }

  // ------------------------------------------------------------------ the start

  lemma SysTaken(ys: seq<System>, es: seq<SysTimed>, k: nat)
    requires SysRun(ys, es) && k < |es|
    ensures Inv(ys[k].s) && ClockOk(ys[k].s, es[k].at) && SysAdmissible(es[k]) && ys[k].o.law.Valid()
    ensures ys[k + 1] == SysStep(ys[k], es[k].at, es[k].ev) && (ys[k].s.latched ==> ys[k + 1].s.latched)
  {
    SupervisorAt(ys, es, k);
    assert SysStepAt(ys, es, k);
    if ys[k].s.latched { LatchHolds(ys[k], es[k]); }
  }

  /** Before the latch nothing was called; the latch's own step is the first call. */
  lemma {:induction false} QuietBefore(ys: seq<System>, es: seq<SysTimed>, k: nat)
    requires SysRun(ys, es) && k <= |es| && !ys[k].s.latched
    ensures Quiet(ys[k])
  {
    if k > 0 {
      SysTaken(ys, es, k - 1);
      QuietBefore(ys, es, k - 1);
      LatchStarts(ys[k - 1], es[k - 1]);
    }
  }

  predicate StartsFrom(d: Direct, c: Cmd) { d.v0 == c.v && d.a0 == c.a && d.steer == c.steer }

  /** The latch's own step takes the start from the seed and calls. */
  lemma LatchTakesSeed(y: System, e: SysTimed)
    requires Inv(y.s) && ClockOk(y.s, e.at) && SysAdmissible(e) && Quiet(y) && !y.s.latched
    ensures var z := SysStep(y, e.at, e.ev);
            z.s.latched ==> StartsFrom(z.d, StartOf(y.d.seed)) && z.s.slots.operator.calls == 1 && z.s.latchMs == e.at
                            && z.s.slots.operator.registered
  {
    SysStepSupervisor(y, e.at, e.ev);
    LatchPass(y.s, Timed(e.at, SupEvent(y, e.ev)));
    if !e.ev.Sup? { QuietForward(y.s, Timed(e.at, SupEvent(y, e.ev))); }
  }

  /** From then on the start stays. */
  lemma StartStays(y: System, e: SysTimed)
    requires Inv(y.s) && ClockOk(y.s, e.at) && SysAdmissible(e) && y.o.law.Valid() && y.s.latched && y.s.slots.operator.calls > 0
    ensures var z := SysStep(y, e.at, e.ev);
            && z.d.v0 == y.d.v0 && z.d.a0 == y.d.a0 && z.d.steer == y.d.steer
            && z.s.slots.operator.calls > 0 && z.s.latchMs == y.s.latchMs && z.s.latched
            && z.s.slots.operator.registered == y.s.slots.operator.registered
  {
    SysStepSupervisor(y, e.at, e.ev);
    StepForward(y.s, Timed(e.at, SupEvent(y, e.ev)));
  }

  /**
   * Once the output is latched, the direct path's start is the last control command taken while the operator was not
   * OPERATING before the step that latched, and rest without one; whatever is taken later.
   */
  lemma {:induction false} StartIsLastControl(ys: seq<System>, es: seq<SysTimed>, k: nat) returns (j: nat)
    requires SysRun(ys, es) && k <= |es| && ys[k].s.latched
    ensures j < k && !ys[j].s.latched && ys[j + 1].s.latched && ys[k].s.latchMs == es[j].at
    ensures StartsFrom(ys[k].d, StartOf(LastControl(ys, es, j)))
    ensures ys[k].s.slots.operator.calls > 0 && ys[k].s.slots.operator.registered
  {
    assert k > 0;
    SysTaken(ys, es, k - 1);
    if ys[k - 1].s.latched {
      j := StartIsLastControl(ys, es, k - 1);
      StartStays(ys[k - 1], es[k - 1]);
    } else {
      j := k - 1;
      QuietBefore(ys, es, j);
      SeedIsLast(ys, es, j);
      LatchTakesSeed(ys[j], es[j]);
    }
  }

  // ------------------------------------------------------------------ what each command carries

  /** The direct path's command `ms` after the latch, from the start `c`: the ramp, its area above zero, the start's steering. */
  predicate DirectFrom(l: Law, c: Cmd, ms: int, sent: Cmd)
    requires l.Valid()
  {
    var t, a := Seconds(ms), MaxReal(c.a, l.target);
    && sent.a == Ramp(l, a, t) && sent.v == MaxReal(Integral(l, c.v, c.a, t), 0.0)
    && sent.j == (if sent.a > l.target then l.jerk else 0.0) && sent.steer == c.steer
  }

  lemma DirectSends(y: System, at: int, ev: Event, c: Cmd)
    requires y.o.law.Valid() && DirectCalled(y.s, SysStep(y, at, Sup(ev)).s)
    requires StartsFrom(SysStep(y, at, Sup(ev)).d, c)
    ensures var z, sent := SysStep(y, at, Sup(ev)), Sent(y, at, Sup(ev));
            sent.Some? && sent.value.stamp == at && DirectFrom(y.o.law, c, Trunc32(at - z.s.latchMs), sent.value)
  {
    AccelerationIsRamp(y.o.law, c.a, Seconds(Trunc32(at - SysStep(y, at, Sup(ev)).s.latchMs)));
  }

  /** Every direct command of a run starts from the last control command before the latch. */
  lemma DirectCarries(ys: seq<System>, es: seq<SysTimed>, cs: seq<Option<Cmd>>, k: nat) returns (j: nat)
    requires Transcript(ys, es, cs) && k < |es| && es[k].ev.Sup? && DirectCalled(ys[k].s, ys[k + 1].s) && ys[k + 1].s.latched
    ensures j <= k && !ys[j].s.latched && ys[j + 1].s.latched && ys[k].o.law.Valid()
    ensures cs[k + 1].Some? && cs[k + 1].value.stamp == es[k].at
    ensures DirectFrom(ys[k].o.law, StartOf(LastControl(ys, es, j)), Trunc32(es[k].at - es[j].at), cs[k + 1].value)
  {
    j := StartIsLastControl(ys, es, k + 1);
    TranscriptStep(ys, es, cs, k);
    DirectSends(ys[k], es[k].at, es[k].ev.ev, StartOf(LastControl(ys, es, j)));
  }

  /** One step on from the command `p`, `ms` later and at most 0.1 s. */
  predicate Continues(l: Law, p: Cmd, ms: int, sent: Cmd)
  {
    var dt := if Seconds(ms) < 0.0 then 0.0 else if Seconds(ms) > 0.1 then 0.1 else Seconds(ms);
    && sent.v == MaxReal(p.v + p.a * dt, 0.0) && sent.a == MaxReal(p.a + l.jerk * dt, l.target)
    && sent.j == (if p.a == l.target then 0.0 else l.jerk) && sent.steer == p.steer
  }

  lemma TickContinues(y: System, at: int, p: Cmd)
    requires y.o.law.Valid() && y.s.latched && TickSends(y) && OnCourse(y, p, at)
    ensures Sent(y, at, OpTick).Some? && Sent(y, at, OpTick).value.stamp == at
    ensures Continues(y.o.law, p, at - p.stamp, Sent(y, at, OpTick).value)
  {
    assert TakeOver(y).prev == p && TakeOver(y).subscribed;
    TargetContinues(TakeOver(y), at);
    assert Sent(y, at, OpTick) == Some(TargetCmd(TakeOver(y), at));
  }

  lemma TargetContinues(o: Operator, at: int)
    requires o.subscribed
    ensures TargetCmd(o, at).stamp == at && Continues(o.law, o.prev, at - o.prev.stamp, TargetCmd(o, at))
  {
  }

  /** Under the latch the operator's tick goes on from the last command sent, whichever path sent it. */
  lemma TickCarries(ys: seq<System>, es: seq<SysTimed>, cs: seq<Option<Cmd>>, k: nat)
    requires Transcript(ys, es, cs) && k < |es| && Undisturbed(ys, es, k) && ys[k].s.latched
    requires es[k].ev.OpTick? && TickSends(ys[k])
    ensures cs[k].Some? && cs[k + 1].Some? && cs[k + 1].value.stamp == es[k].at && ys[k].o.law.Valid()
    ensures Continues(ys[k].o.law, cs[k].value, es[k].at - cs[k].value.stamp, cs[k + 1].value)
  {
    CourseAlways(ys, es, cs, k);
    TranscriptStep(ys, es, cs, k);
    CourseLater(ys[k], cs[k], if k == 0 then 0 else es[k - 1].at, es[k].at);
    TickContinues(ys[k], es[k].at, cs[k].value);
  }

  /** Under the latch nobody else sends. */
  lemma OthersSilent(ys: seq<System>, es: seq<SysTimed>, cs: seq<Option<Cmd>>, k: nat)
    requires Transcript(ys, es, cs) && k < |es| && ys[k].s.latched
    requires !(es[k].ev.OpTick? && TickSends(ys[k])) && !(es[k].ev.Sup? && DirectCalled(ys[k].s, ys[k + 1].s))
    ensures cs[k + 1] == cs[k]
  {
    TranscriptStep(ys, es, cs, k);
  }

  /** The steering of every command since the latch is that of the control command braking started from. */
  lemma {:induction false} SteeringHeld(ys: seq<System>, es: seq<SysTimed>, cs: seq<Option<Cmd>>, k: nat) returns (j: nat)
    requires Transcript(ys, es, cs) && k <= |es| && Undisturbed(ys, es, k) && ys[k].s.latched
    ensures j < k && !ys[j].s.latched && ys[j + 1].s.latched
    ensures cs[k].Some? && cs[k].value.steer == StartOf(LastControl(ys, es, j)).steer == ys[k].d.steer
  {
    if ys[k - 1].s.latched {
      var i := SteeringHeld(ys, es, cs, k - 1);
      SteeringStep(ys, es, cs, k - 1);
    } else {
      FirstSteers(ys, es, cs, k - 1);
    }
    j := StartIsLastControl(ys, es, k);
  }

  lemma DirectSteers(ys: seq<System>, es: seq<SysTimed>, cs: seq<Option<Cmd>>, k: nat)
    requires Transcript(ys, es, cs) && k < |es| && ys[k + 1].s.latched && es[k].ev.Sup? && DirectCalled(ys[k].s, ys[k + 1].s)
    ensures cs[k + 1].Some? && cs[k + 1].value.steer == ys[k + 1].d.steer
  {
    TranscriptStep(ys, es, cs, k);
    var d := ys[k + 1].d;
    DirectSends(ys[k], es[k].at, es[k].ev.ev, Cmd(0, d.v0, d.a0, 0.0, d.steer));
  }

  lemma FirstSteers(ys: seq<System>, es: seq<SysTimed>, cs: seq<Option<Cmd>>, k: nat)
    requires Transcript(ys, es, cs) && k < |es| && !ys[k].s.latched && ys[k + 1].s.latched
    ensures cs[k + 1].Some? && cs[k + 1].value.steer == ys[k + 1].d.steer
  {
    FirstIsDirect(ys, es, k);
    DirectSteers(ys, es, cs, k);
  }

  lemma SteeringStep(ys: seq<System>, es: seq<SysTimed>, cs: seq<Option<Cmd>>, k: nat)
    requires Transcript(ys, es, cs) && k < |es| && Undisturbed(ys, es, k + 1) && ys[k].s.latched && ys[k + 1].s.latched
    requires cs[k].Some? && cs[k].value.steer == ys[k].d.steer
    ensures cs[k + 1].Some? && cs[k + 1].value.steer == ys[k + 1].d.steer
  {
    StartIsOne(ys, es, k);
    if es[k].ev.Sup? && DirectCalled(ys[k].s, ys[k + 1].s) { DirectSteers(ys, es, cs, k); }
    else if es[k].ev.OpTick? && TickSends(ys[k]) { TickCarries(ys, es, cs, k); }
    else { OthersSilent(ys, es, cs, k); }
  }

  lemma StartIsOne(ys: seq<System>, es: seq<SysTimed>, k: nat)
    requires SysRun(ys, es) && k < |es| && ys[k].s.latched
    ensures ys[k + 1].d.steer == ys[k].d.steer && ys[k + 1].d.a0 == ys[k].d.a0 && ys[k + 1].d.v0 == ys[k].d.v0
    ensures ys[k + 1].s.latchMs == ys[k].s.latchMs && ys[k + 1].o.law == ys[k].o.law
  {
    var i := StartIsLastControl(ys, es, k);
    SysTaken(ys, es, k);
    StartStays(ys[k], es[k]);
  }

  lemma FirstIsDirect(ys: seq<System>, es: seq<SysTimed>, k: nat)
    requires SysRun(ys, es) && k < |es| && !ys[k].s.latched && ys[k + 1].s.latched
    ensures es[k].ev.Sup? && DirectCalled(ys[k].s, ys[k + 1].s)
  {
    SysTaken(ys, es, k);
    QuietBefore(ys, es, k);
    LatchTakesSeed(ys[k], es[k]);
    if !es[k].ev.Sup? {
      SysStepSupervisor(ys[k], es[k].at, es[k].ev);
      QuietForward(ys[k].s, Timed(es[k].at, SupEvent(ys[k], es[k].ev)));
    }
  }

  /**
   * Monotone braking, from the control command before the latch: every later command's acceleration lies between the
   * target and the larger of that command's and the target, and never rises.
   */
  lemma BrakesFromLastControl(ys: seq<System>, es: seq<SysTimed>, cs: seq<Option<Cmd>>, m: nat, k: nat) returns (j: nat)
    requires Transcript(ys, es, cs) && m <= k <= |es| && Undisturbed(ys, es, k) && ys[m].s.latched
    ensures ys[k].s.latched && cs[m].Some? && cs[k].Some? && j < k && !ys[j].s.latched && ys[j + 1].s.latched
    ensures var c, target := StartOf(LastControl(ys, es, j)), ys[k].o.law.target;
            target <= cs[k].value.a <= MaxReal(c.a, target) && cs[k].value.a <= cs[m].value.a
  {
    MonotoneBraking(ys, es, cs, m, k);
    j := StartIsLastControl(ys, es, k);
  }

  // ------------------------------------------------------------------ before the latch

  /** The last command noted: a control command taken while not OPERATING, or the operator's own. */
  ghost function Noted(ys: seq<System>, es: seq<SysTimed>, cs: seq<Option<Cmd>>, k: nat): Option<Cmd>
    requires |ys| == |es| + 1 == |cs| && k <= |es|
  {
    if k == 0 then None
    else if es[k - 1].ev.Control? && !ys[k - 1].o.operating then Some(es[k - 1].ev.msg)
    else if es[k - 1].ev.OpTick? && ys[k - 1].o.operating then cs[k]
    else Noted(ys, es, cs, k - 1)
  }

  lemma NotedStep(y: System, e: SysTimed)
    requires y.o.law.Valid() && !y.s.latched && !y.o.takenOver
    ensures var z := SysStep(y, e.at, e.ev);
            && z.o.law == y.o.law && z.o.takenOver == y.o.takenOver
            && (if e.ev.Control? && !y.o.operating then z.o.prev == e.ev.msg && z.o.subscribed
                else z.o.subscribed == y.o.subscribed
                     && (if e.ev.OpTick? && y.o.operating then Sent(y, e.at, e.ev) == Some(z.o.prev) else z.o.prev == y.o.prev))
  {
  }

  lemma {:induction false} NotedIs(ys: seq<System>, es: seq<SysTimed>, cs: seq<Option<Cmd>>, k: nat)
    requires Transcript(ys, es, cs) && k <= |es| && !ys[k].s.latched
    ensures !ys[k].o.takenOver && ys[k].o.subscribed == LastControl(ys, es, k).Some?
    ensures Noted(ys, es, cs, k).Some? ==> ys[k].o.prev == Noted(ys, es, cs, k).value
    ensures LastControl(ys, es, k).Some? ==> Noted(ys, es, cs, k).Some?
  {
    if k > 0 {
      SysTaken(ys, es, k - 1);
      NotedIs(ys, es, cs, k - 1);
      TranscriptStep(ys, es, cs, k - 1);
      NotedStep(ys[k - 1], es[k - 1]);
    }
  }

  /**
   * Before the latch a tick that is not OPERATING passes the last noted command through; an OPERATING one goes on from
   * it, or sends the target when no control command was ever taken.
   */
  lemma TickBeforeLatch(ys: seq<System>, es: seq<SysTimed>, cs: seq<Option<Cmd>>, k: nat)
    requires Transcript(ys, es, cs) && k < |es| && !ys[k].s.latched && es[k].ev.OpTick?
    ensures ys[k].o.law.Valid() && cs[k + 1].Some?
    ensures var n, sent := Noted(ys, es, cs, k), cs[k + 1].value;
            && (!ys[k].o.operating && n.Some? ==> sent == n.value)
            && (ys[k].o.operating && LastControl(ys, es, k).Some? ==>
                  n.Some? && sent.stamp == es[k].at && Continues(ys[k].o.law, n.value, es[k].at - n.value.stamp, sent))
            && (ys[k].o.operating && LastControl(ys, es, k).None? ==> sent == Cmd(es[k].at, 0.0, ys[k].o.law.target, 0.0, 0.0))
  {
    NotedIs(ys, es, cs, k);
    TranscriptStep(ys, es, cs, k);
    if ys[k].o.operating && ys[k].o.subscribed { TargetContinues(ys[k].o, es[k].at); }
  }

  // ------------------------------------------------------------------ the velocity

  /** While the ramp is above zero the area only grows. */
  lemma AreaAboveStart(l: Law, j: real, v0: real, a0: real, t: real)
    requires Magnitude(l, j) && a0 >= l.target && t >= 0.0 && Ramp(l, a0, t) > 0.0
    ensures Integral(l, v0, a0, t) >= v0
  {
    IntegralIsArea(l, j, v0, a0, t);
    var a := Ramp(l, a0, t);
    assert a0 == a + j * t;
    AreaOf(j, a, l.target, t);
    MulPos(a, t);
    MulPos(t, t);
    MulPos(j, t * t);
    DivideOut(j, v0 + l.target * t + (a * t - l.target * t), Integral(l, v0, a0, t));
  }

  lemma AreaOf(j: real, a: real, target: real, t: real)
    ensures Sq(a + j * t - target) - Sq(a - target) == 2.0 * j * (a * t - target * t) + j * (j * (t * t))
  {
  }
}
