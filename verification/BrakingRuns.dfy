/** The braking command over whole runs, through handover and resume: it only ever brakes harder. */
module BrakingRuns {
  import opened Words
  import opened SupervisorSpec
  import opened RouteTable
  import opened SupervisorRuns
  import opened DirectPath
  import opened BrakeLaw
  import opened OperatorSpec
  import ReactionPass

  // ------------------------------------------------------------------ the ramp

  lemma RampFalls(l: Law, a: real, s: real, t: real)
    requires l.Valid() && s <= t
    ensures Ramp(l, a, t) <= Ramp(l, a, s)
  {
    MulPos(t - s, -l.jerk);
    Distributes(l.jerk, t, -s);
  }

  /** A tick of `dt` from a command at or above the ramp stays at or above it, below the command, and exact if it was. */
  lemma TickOnRamp(l: Law, a0: real, c: real, s: real, t: real, dt: real)
    requires l.Valid() && a0 >= l.target && 0.0 <= s <= t && 0.0 <= dt <= t - s
    requires Ramp(l, a0, s) <= c
    ensures Ramp(l, a0, t) <= Ramp(l, c, dt) <= c
    ensures c == Ramp(l, a0, s) && dt == t - s ==> Ramp(l, c, dt) == Ramp(l, a0, t)
  {
    RampAdds(l, a0, s, dt);
    RampFalls(l, a0, s + dt, t);
    Falling(l, dt);
    RampOrder(l, Ramp(l, a0, s), c, dt);
  }

  lemma Falling(l: Law, dt: real)
    requires l.Valid() && dt >= 0.0
    ensures l.jerk * dt <= 0.0
  {
    MulPos(dt, -l.jerk);
  }

  /** From a harder command the ramp is harder. */
  lemma RampOrder(l: Law, b: real, c: real, dt: real)
    requires l.target <= b <= c && l.jerk * dt <= 0.0
    ensures Ramp(l, b, dt) <= Ramp(l, c, dt) <= c
  {
  }

  // ------------------------------------------------------------------ the invariant

  /** Seconds since the latch. */
  function Since(y: System, ms: int): real { Seconds(ms - y.s.latchMs) }

  /** The acceleration the direct path started from. */
  function Start(y: System): real { Entry(y.o.law, y.d.a0) }

  /** Who would send next holds the last command `c`. */
  predicate Holder(y: System, c: Cmd)
  {
    match OwnerOf(y.s.slots.operator)
    case DirectFirst => y.d.last == Some(c) && !y.o.takenOver
    case Executor => y.o.takenOver && y.o.subscribed && y.o.prev == c
    case DirectForGood => y.o.takenOver
  }

  /** The last command since the latch lies between the closed form's ramp and the ramp's start. */
  predicate OnCourse(y: System, c: Cmd, now: int)
  {
    && y.o.law.Valid() && y.s.slots.operator.registered && y.s.slots.operator.calls > 0
    && y.s.latchMs <= c.stamp <= now
    && Ramp(y.o.law, Start(y), Since(y, c.stamp)) <= c.a <= Start(y)
    && Holder(y, c)
  }

  /** The last command is exactly the closed form's. */
  predicate Exact(y: System, c: Cmd) { c.a == Ramp(y.o.law, Start(y), Since(y, c.stamp)) }

  /** Before the latch nothing is handed over and nothing was called. */
  predicate Quiet(y: System)
  {
    y.o.law.Valid() && y.s.slots.operator.registered && y.s.slots.operator.calls == 0 && !y.o.takenOver
  }

  /** After the takeover no control command is taken while the operator is not OPERATING. */
  predicate Steady(y: System, e: SysTimed) { e.ev.Control? && Watched(y.s.slots.operator) ==> y.o.operating }

  // ------------------------------------------------------------------ one step

  /** What the step sends is as exact as `c`: the direct path's always, the operator's while its gap is within the clamp. */
  predicate Renews(y: System, c: Cmd, at: int, z: System) { DirectCalled(y.s, z.s) || (Exact(y, c) && at - c.stamp <= 100) }

  /** The step keeps the course: what it sends brakes no less than `c`, and exactly if the gap allows. */
  predicate Keeps(y: System, z: System, c: Cmd, sent: Option<Cmd>, at: int)
  {
    match sent
    case None => OnCourse(z, c, at) && (Exact(y, c) ==> Exact(z, c))
    case Some(d) => OnCourse(z, d, at) && d.stamp == at && d.a <= c.a
                    && (Renews(y, c, at, z) ==> Exact(z, d))
  }

  /** The direct path's command at `since` ms, against a command `c` of no later a time on the ramp. */
  lemma DirectCmdOnRamp(l: Law, d: Direct, since: nat, stamp: int, s: real, c: real)
    requires l.Valid() && s <= Seconds(since) && Ramp(l, Entry(l, d.a0), s) <= c
    ensures DirectCmd(l, d, since, stamp).a == Ramp(l, Entry(l, d.a0), Seconds(since)) <= c
    ensures DirectCmd(l, d, since, stamp).a <= Entry(l, d.a0)
  {
    AccelerationIsRamp(l, d.a0, Seconds(since));
    RampFalls(l, Entry(l, d.a0), s, Seconds(since));
    MulPos(Seconds(since), -l.jerk);
  }

  /** A step on the supervisor's side under the latch: the owner moves only with a direct call, and never to the executor. */
  lemma SupervisorSide(s: State, e: Timed)
    requires Inv(s) && ClockOk(s, e.at) && Admissible(e) && s.latched && s.slots.operator.registered
    requires !(e.ev.Report? && e.ev.slot == OPERATOR)
    ensures var t := SupervisorSpec.Step(s, e.at, e.ev);
            && t.latched && t.latchMs == s.latchMs && t.slots.operator.registered
            && t.slots.operator.calls >= s.slots.operator.calls
            && (DirectCalled(s, t) ==> (OwnerOf(t.slots.operator).DirectFirst? <==> OwnerOf(s.slots.operator).DirectFirst?)
                                       && !OwnerOf(t.slots.operator).Executor?)
            && (!DirectCalled(s, t) ==> OwnerOf(t.slots.operator) == OwnerOf(s.slots.operator))
  {
    StepOwner(s, e, OPERATOR);
    StepForward(s, e);
    HandoverKept(s, e);
    if !DirectCalled(s, SupervisorSpec.Step(s, e.at, e.ev)) { OwnerKept(s, e); }
  }

  lemma HandoverKept(s: State, e: Timed)
    requires Inv(s) && ClockOk(s, e.at) && Admissible(e) && !(e.ev.Report? && e.ev.slot == OPERATOR)
    ensures SupervisorSpec.Step(s, e.at, e.ev).slots.operator.handover == s.slots.operator.handover
  {
    match e.ev
    case Wake(left, nowUs) => WakeMovesOne(s, e.at, left, nowUs, OPERATOR);
    case Timeout => if s.latched { SlotsInService(s, e.at); }
    case _ =>
  }

  lemma DirectKeeps(y: System, e: SysTimed, c: Cmd)
    requires Inv(y.s) && ClockOk(y.s, e.at) && SysAdmissible(e) && e.ev.Sup? && y.s.latched
    requires OnCourse(y, c, e.at) && e.at - y.s.latchMs < U32
    ensures Keeps(y, SysStep(y, e.at, e.ev), c, Sent(y, e.at, e.ev), e.at)
  {
    SupervisorSide(y.s, Timed(e.at, e.ev.ev));
    TruncBelow(e.at - y.s.latchMs);
    DirectCmdOnRamp(y.o.law, y.d, e.at - y.s.latchMs, e.at, Since(y, c.stamp), c.a);
  }

  lemma TickKeeps(y: System, e: SysTimed, c: Cmd)
    requires Inv(y.s) && ClockOk(y.s, e.at) && e.ev.OpTick? && y.s.latched && OnCourse(y, c, e.at)
    ensures Keeps(y, SysStep(y, e.at, e.ev), c, Sent(y, e.at, e.ev), e.at)
  {
    if TickSends(y) {
      var o := TakeOver(y);
      assert o.prev == c && o.subscribed;
      var raw := Seconds(e.at - c.stamp);
      assert raw == Since(y, e.at) - Since(y, c.stamp);
      TickOnRamp(y.o.law, Start(y), c.a, Since(y, c.stamp), Since(y, e.at), ClampDt(raw));
    }
  }

  lemma RestKeeps(y: System, e: SysTimed, c: Cmd)
    requires (e.ev.Control? || e.ev.Operate?) && y.s.latched && OnCourse(y, c, e.at) && Steady(y, e)
    ensures Keeps(y, SysStep(y, e.at, e.ev), c, Sent(y, e.at, e.ev), e.at)
  {
  }

  lemma StepKeepsCourse(y: System, e: SysTimed, c: Cmd)
    requires Inv(y.s) && ClockOk(y.s, e.at) && SysAdmissible(e) && y.s.latched
    requires OnCourse(y, c, e.at) && e.at - y.s.latchMs < U32 && Steady(y, e)
    ensures Keeps(y, SysStep(y, e.at, e.ev), c, Sent(y, e.at, e.ev), e.at)
  {
    match e.ev
    case Sup(_) => DirectKeeps(y, e, c);
    case OpTick => TickKeeps(y, e, c);
    case _ => RestKeeps(y, e, c);
  }

  /** The latch's own pass sends the ramp's start. */
  lemma LatchStarts(y: System, e: SysTimed)
    requires Inv(y.s) && ClockOk(y.s, e.at) && SysAdmissible(e) && Quiet(y) && !y.s.latched
    ensures var z := SysStep(y, e.at, e.ev);
            if z.s.latched
            then Sent(y, e.at, e.ev).Some? && OnCourse(z, Sent(y, e.at, e.ev).value, e.at)
                 && Exact(z, Sent(y, e.at, e.ev).value) && Sent(y, e.at, e.ev).value.stamp == e.at
            else Quiet(z)
  {
    if e.ev.Sup? { LatchStartsSup(y, e); } else { QuietForward(y.s, Timed(e.at, SupEvent(y, e.ev))); }
  }

  lemma LatchStartsSup(y: System, e: SysTimed)
    requires Inv(y.s) && ClockOk(y.s, e.at) && SysAdmissible(e) && Quiet(y) && !y.s.latched && e.ev.Sup?
    ensures var z := SysStep(y, e.at, e.ev);
            if z.s.latched
            then Sent(y, e.at, e.ev).Some? && OnCourse(z, Sent(y, e.at, e.ev).value, e.at)
                 && Exact(z, Sent(y, e.at, e.ev).value) && Sent(y, e.at, e.ev).value.stamp == e.at
            else Quiet(z)
  {
    var z := SysStep(y, e.at, e.ev);
    LatchPass(y.s, Timed(e.at, e.ev.ev));
    if z.s.latched {
      AccelerationIsRamp(y.o.law, z.d.a0, 0.0);
      assert Since(z, e.at) == 0.0;
    }
  }

  lemma LatchPass(s: State, e: Timed)
    requires Inv(s) && ClockOk(s, e.at) && Admissible(e) && !s.latched && s.slots.operator.registered
    ensures var t := SupervisorSpec.Step(s, e.at, e.ev);
            && t.slots.operator.registered && !t.slots.operator.handover
            && (t.latched ==> t.slots.operator.calls == s.slots.operator.calls + 1 && t.latchMs == e.at)
            && (!t.latched ==> t.slots.operator.calls == s.slots.operator.calls)
  {
    match e.ev
    case Wake(left, nowUs) =>
      ReactionPass.MissBrakes(s, e.at, left, nowUs);
      WakeMovesOne(s, e.at, left, nowUs, OPERATOR);
      WakeForward(s, e.at, left, nowUs);
      var v := s.(thread := s.thread.(wake := false));
      ReactionPass.Reacted(v, e.at, left, nowUs);
    case Timeout => ReactionPass.ServeFrame(s, e.at);
    case _ => QuietForward(s, e); QuietCalls(s, e, OPERATOR);
  }

  // ------------------------------------------------------------------ every run

  function Latest(sent: Option<Cmd>, last: Option<Cmd>): Option<Cmd> { if sent.Some? then sent else last }

  /** A run with its transcript: `cs[k]` is the last command sent before the `k`-th state. */
  ghost predicate Transcript(ys: seq<System>, es: seq<SysTimed>, cs: seq<Option<Cmd>>)
  {
    && SysRun(ys, es) && |cs| == |ys| && cs[0].None?
    && (forall k | 0 <= k < |es| :: SentAt(ys, es, cs, k))
  }

  ghost predicate SentAt(ys: seq<System>, es: seq<SysTimed>, cs: seq<Option<Cmd>>, k: nat)
    requires |ys| == |es| + 1 == |cs| && k < |es|
  {
    ys[k].o.law.Valid() && cs[k + 1] == Latest(Sent(ys[k], es[k].at, es[k].ev), cs[k])
  }

  /** Up to the `n`-th step: steady, and the latch younger than 2^32 ms. */
  ghost predicate Undisturbed(ys: seq<System>, es: seq<SysTimed>, n: nat)
    requires |ys| == |es| + 1 && n <= |es|
  {
    forall k | 0 <= k < n :: Calm(ys[k], es[k])
  }

  predicate Calm(y: System, e: SysTimed) { Steady(y, e) && (y.s.latched ==> e.at - y.s.latchMs < U32) }

  /** One step of the run and of its transcript. */
  lemma TranscriptStep(ys: seq<System>, es: seq<SysTimed>, cs: seq<Option<Cmd>>, k: nat)
    requires Transcript(ys, es, cs) && k < |es|
    ensures ys[k].o.law.Valid() && SysAdmissible(es[k]) && ys[k + 1] == SysStep(ys[k], es[k].at, es[k].ev)
    ensures cs[k + 1] == Latest(Sent(ys[k], es[k].at, es[k].ev), cs[k])
    ensures k > 0 ==> es[k - 1].at <= es[k].at
  {
    assert SysStepAt(ys, es, k) && SentAt(ys, es, cs, k);
  }

  lemma SupervisorAt(ys: seq<System>, es: seq<SysTimed>, k: nat)
    requires SysRun(ys, es) && k <= |es|
    ensures Inv(ys[k].s)
    ensures k < |es| ==> ClockOk(ys[k].s, es[k].at)
  {
    ProjectsToBehaviour(ys, es);
    ClockAlways(States(ys), Events(ys, es), k);
  }

  /** Before the latch quiet; after it on course with the last command sent. */
  predicate Course(y: System, last: Option<Cmd>, now: int)
  {
    if y.s.latched then last.Some? && OnCourse(y, last.value, now) else Quiet(y)
  }

  lemma CourseLater(y: System, last: Option<Cmd>, now: int, at: int)
    requires Course(y, last, now) && now <= at
    ensures Course(y, last, at)
  {
  }

  lemma CourseStep(y: System, e: SysTimed, last: Option<Cmd>)
    requires Inv(y.s) && ClockOk(y.s, e.at) && SysAdmissible(e) && y.o.law.Valid() && Course(y, last, e.at)
    requires Steady(y, e) && (y.s.latched ==> e.at - y.s.latchMs < U32)
    ensures Course(SysStep(y, e.at, e.ev), Latest(Sent(y, e.at, e.ev), last), e.at)
    ensures y.s.latched ==>
              SysStep(y, e.at, e.ev).s.latched && last.Some? && Latest(Sent(y, e.at, e.ev), last).Some?
              && Latest(Sent(y, e.at, e.ev), last).value.a <= last.value.a
              && ((if Sent(y, e.at, e.ev).Some? then Renews(y, last.value, e.at, SysStep(y, e.at, e.ev)) else Exact(y, last.value)) ==>
                    Exact(SysStep(y, e.at, e.ev), Latest(Sent(y, e.at, e.ev), last).value))
    ensures !y.s.latched && SysStep(y, e.at, e.ev).s.latched ==>
              Sent(y, e.at, e.ev).Some? && Exact(SysStep(y, e.at, e.ev), Sent(y, e.at, e.ev).value)
  {
    SysStepSupervisor(y, e.at, e.ev);
    if y.s.latched {
      LatchHolds(y, e);
      StepKeepsCourse(y, e, last.value);
    } else {
      LatchStarts(y, e);
    }
  }

  lemma LatchHolds(y: System, e: SysTimed)
    requires Inv(y.s) && ClockOk(y.s, e.at) && SysAdmissible(e) && y.o.law.Valid() && y.s.latched
    ensures SysStep(y, e.at, e.ev).s.latched
  {
    SysStepSupervisor(y, e.at, e.ev);
    StepForward(y.s, Timed(e.at, SupEvent(y, e.ev)));
  }

  lemma {:induction false} CourseAlways(ys: seq<System>, es: seq<SysTimed>, cs: seq<Option<Cmd>>, k: nat)
    requires Transcript(ys, es, cs) && k <= |es| && Undisturbed(ys, es, k)
    ensures Course(ys[k], cs[k], if k == 0 then 0 else es[k - 1].at)
  {
    if k > 0 {
      CourseAlways(ys, es, cs, k - 1);
      SupervisorAt(ys, es, k - 1);
      TranscriptStep(ys, es, cs, k - 1);
      CourseLater(ys[k - 1], cs[k - 1], if k == 1 then 0 else es[k - 2].at, es[k - 1].at);
      CourseStep(ys[k - 1], es[k - 1], cs[k - 1]);
    }
  }

  lemma CourseBounds(y: System, last: Option<Cmd>, now: int)
    requires Course(y, last, now) && y.s.latched
    ensures last.Some? && y.o.law.target <= last.value.a <= Start(y)
  {
  }

  /** One step of a run under the latch: the last command only brakes harder. */
  lemma RunStep(ys: seq<System>, es: seq<SysTimed>, cs: seq<Option<Cmd>>, k: nat)
    requires Transcript(ys, es, cs) && k < |es| && Undisturbed(ys, es, k + 1) && ys[k].s.latched
    ensures ys[k + 1].s.latched && cs[k].Some? && cs[k + 1].Some? && cs[k + 1].value.a <= cs[k].value.a
  {
    CourseAlways(ys, es, cs, k);
    SupervisorAt(ys, es, k);
    TranscriptStep(ys, es, cs, k);
    CourseLater(ys[k], cs[k], if k == 0 then 0 else es[k - 1].at, es[k].at);
    CourseStep(ys[k], es[k], cs[k]);
  }

  /**
   * Monotone braking. From the latch, whose own pass sends the first direct command, through handover and
   * resume: the last command's acceleration lies between the target and the ramp's start, and never exceeds
   * what it was in any earlier state since the latch.
   */
  lemma {:induction false} MonotoneBraking(ys: seq<System>, es: seq<SysTimed>, cs: seq<Option<Cmd>>, i: nat, j: nat)
    requires Transcript(ys, es, cs) && i <= j <= |es| && Undisturbed(ys, es, j) && ys[i].s.latched
    ensures ys[j].s.latched && cs[i].Some? && cs[j].Some?
    ensures ys[j].o.law.target <= cs[j].value.a <= Start(ys[j])
    ensures cs[j].value.a <= cs[i].value.a
    decreases j - i
  {
    if i < j {
      MonotoneBraking(ys, es, cs, i, j - 1);
      RunStep(ys, es, cs, j - 1);
    }
    CourseAlways(ys, es, cs, j);
    CourseBounds(ys[j], cs[j], if j == 0 then 0 else es[j - 1].at);
  }

  // ------------------------------------------------------------------ and exactly by the closed form

  /** Every tick that sends under the latch does so within the 0.1 s clamp of the last command. */
  ghost predicate ShortGaps(ys: seq<System>, es: seq<SysTimed>, cs: seq<Option<Cmd>>, n: nat)
    requires Transcript(ys, es, cs) && n <= |es|
  {
    forall k | 0 <= k < n :: ShortGap(ys[k], es[k], cs[k])
  }

  predicate ShortGap(y: System, e: SysTimed, last: Option<Cmd>)
  {
    y.o.law.Valid() && y.s.latched && e.ev.OpTick? && Sent(y, e.at, e.ev).Some? && last.Some? ==> e.at - last.value.stamp <= 100
  }

  lemma ExactStep(y: System, e: SysTimed, last: Option<Cmd>)
    requires Inv(y.s) && ClockOk(y.s, e.at) && SysAdmissible(e) && y.o.law.Valid() && Course(y, last, e.at)
    requires Steady(y, e) && (y.s.latched ==> e.at - y.s.latchMs < U32)
    requires y.s.latched ==> last.Some? && Exact(y, last.value)
    requires y.s.latched && e.ev.OpTick? && Sent(y, e.at, e.ev).Some? ==> e.at - last.value.stamp <= 100
    ensures SysStep(y, e.at, e.ev).s.latched ==>
              Latest(Sent(y, e.at, e.ev), last).Some?
              && Exact(SysStep(y, e.at, e.ev), Latest(Sent(y, e.at, e.ev), last).value)
  {
    CourseStep(y, e, last);
  }

  /** As long as no tick gap exceeds the clamp, every command sent since the latch is exactly the closed form's. */
  lemma {:induction false} ExactAlways(ys: seq<System>, es: seq<SysTimed>, cs: seq<Option<Cmd>>, k: nat)
    requires Transcript(ys, es, cs) && k <= |es| && Undisturbed(ys, es, k) && ShortGaps(ys, es, cs, k)
    ensures ys[k].s.latched ==> cs[k].Some? && Exact(ys[k], cs[k].value)
  {
    if k > 0 {
      ExactAlways(ys, es, cs, k - 1);
      CourseAlways(ys, es, cs, k - 1);
      SupervisorAt(ys, es, k - 1);
      TranscriptStep(ys, es, cs, k - 1);
      CourseLater(ys[k - 1], cs[k - 1], if k == 1 then 0 else es[k - 2].at, es[k - 1].at);
      ExactStep(ys[k - 1], es[k - 1], cs[k - 1]);
    }
  }

  /** Under the latch, what is sent is what the supervisor's side counts as a command. */
  lemma SentIsCommand(y: System, e: SysTimed)
    requires Inv(y.s) && ClockOk(y.s, e.at) && SysAdmissible(e) && y.o.law.Valid() && SysStep(y, e.at, e.ev).s.latched
    ensures Sent(y, e.at, e.ev).Some? <==> Commands(y.s, SysStep(y, e.at, e.ev).s, Timed(e.at, SupEvent(y, e.ev)))
    ensures Sent(y, e.at, e.ev).Some? ==> Sent(y, e.at, e.ev).value.stamp == e.at
  {
    SysStepSupervisor(y, e.at, e.ev);
    if !e.ev.Sup? { QuietCalls(y.s, Timed(e.at, SupEvent(y, e.ev)), OPERATOR); }
  }

  lemma {:induction false} StampIsLastCommand(ys: seq<System>, es: seq<SysTimed>, cs: seq<Option<Cmd>>, k: nat)
    requires Transcript(ys, es, cs) && k <= |es| && Undisturbed(ys, es, k) && ys[k].s.latched
    ensures cs[k].Some?
    ensures LastCommand(States(ys), Events(ys, es), k) == Some(cs[k].value.stamp)
  {
    if k > 0 {
      CommandAt(ys, es, cs, k - 1);
      if ys[k - 1].s.latched {
        StampIsLastCommand(ys, es, cs, k - 1);
      } else {
        FirstCommandAt(ys, es, cs, k - 1);
      }
    }
  }

  /** One step of the transcript against the supervisor's count of commands. */
  lemma CommandAt(ys: seq<System>, es: seq<SysTimed>, cs: seq<Option<Cmd>>, k: nat)
    requires Transcript(ys, es, cs) && k < |es| && ys[k + 1].s.latched
    ensures Commands(States(ys)[k], States(ys)[k + 1], Events(ys, es)[k]) ==> cs[k + 1].Some? && cs[k + 1].value.stamp == es[k].at
    ensures !Commands(States(ys)[k], States(ys)[k + 1], Events(ys, es)[k]) ==> cs[k + 1] == cs[k]
  {
    SupervisorAt(ys, es, k);
    TranscriptStep(ys, es, cs, k);
    SentIsCommand(ys[k], es[k]);
  }

  lemma FirstCommandAt(ys: seq<System>, es: seq<SysTimed>, cs: seq<Option<Cmd>>, k: nat)
    requires Transcript(ys, es, cs) && k < |es| && Undisturbed(ys, es, k) && !ys[k].s.latched && ys[k + 1].s.latched
    ensures Commands(States(ys)[k], States(ys)[k + 1], Events(ys, es)[k])
  {
    SupervisorAt(ys, es, k);
    TranscriptStep(ys, es, cs, k);
    CourseAlways(ys, es, cs, k);
    LatchStarts(ys[k], es[k]);
    SentIsCommand(ys[k], es[k]);
  }

  lemma {:induction false} PeriodKept(ys: seq<System>, es: seq<SysTimed>, k: nat)
    requires SysRun(ys, es) && k <= |es|
    ensures ys[k].o.period == ys[0].o.period && ys[k].o.law == ys[0].o.law
  {
    if k > 0 {
      PeriodKept(ys, es, k - 1);
      assert SysStepAt(ys, es, k - 1);
    }
  }

  /** In a prompt run the last command is never older than the silence the supervisor allows. */
  lemma CommandIsYoung(ys: seq<System>, es: seq<SysTimed>, cs: seq<Option<Cmd>>, k: nat)
    requires Transcript(ys, es, cs) && k < |es| && Undisturbed(ys, es, k) && ys[k].s.latched
    requires PromptFrom(States(ys), Events(ys, es), 0)
    ensures cs[k].Some? && es[k].at - cs[k].value.stamp <= Gap(ys[0].s.cfg, ys[0].o.period)
  {
    var ss, ts := States(ys), Events(ys, es);
    ProjectsToBehaviour(ys, es);
    StampIsLastCommand(ys, es, cs, k);
    forall i | 0 <= i < |ts| && ts[i].ev.Report? && ts[i].ev.slot == OPERATOR
      ensures ts[i].ev.period == ys[0].o.period
    {
      assert SysStepAt(ys, es, i);
      PeriodKept(ys, es, i);
    }
    BoundedSilence(ss, ts, k, ys[0].o.period);
  }

  /**
   * Prompt braking is exact. When the silence the supervisor allows is within the operator's 0.1 s clamp (99 ms
   * at the defaults), every command sent in a prompt run since the latch has exactly the closed form's
   * acceleration for its time, whichever path sent it.
   */
  lemma PromptBrakingIsExact(ys: seq<System>, es: seq<SysTimed>, cs: seq<Option<Cmd>>, k: nat)
    requires Transcript(ys, es, cs) && k <= |es| && Undisturbed(ys, es, k) && ys[k].s.latched
    requires PromptFrom(States(ys), Events(ys, es), 0)
    requires Gap(ys[0].s.cfg, ys[0].o.period) <= 100
    ensures cs[k].Some? && ys[k].o.law.Valid()
    ensures cs[k].value.a == Acceleration(ys[k].o.law, ys[k].d.a0, Since(ys[k], cs[k].value.stamp))
  {
    forall i | 0 <= i < k ensures ShortGap(ys[i], es[i], cs[i]) {
      if ys[i].s.latched { CommandIsYoung(ys, es, cs, i); }
    }
    ExactAlways(ys, es, cs, k);
    PeriodKept(ys, es, k);
    AccelerationIsRamp(ys[k].o.law, ys[k].d.a0, Since(ys[k], cs[k].value.stamp));
  }
}
