/** The emergency stop is supervised to its end, across handler and supervisor; and the latch across both. */
module IslandFloor {
  import opened Words
  import opened Island
  import opened IslandRuns
  import S = SupervisorSpec
  import H = HandlerSpec
  import Judge
  import RouteTable
  import ReactionPass
  import SupervisorRuns
  import FloorRuns
  import HandlerRuns
  import BehaviorChoice

  predicate FloorCall(c: H.Call) { (c.ArmIn? || c.Finish?) && c.route == S.FLOOR }

  // ------------------------------------------------------------------ the handler leaves a running emergency stop alone

  lemma QuietUpdate(h: H.Handler, now: int, fault: bool)
    requires HandlerRuns.Coherent(h.mrm) && h.mrm.behavior.EmergencyStop? && H.Emergency(h) && !H.AtStandstill(h)
    ensures var u := H.UpdateState(h, now, fault);
            u.calls == [] && u.h.mrm.behavior.EmergencyStop? && !u.h.mrm.state.Normal? && u.h == h.(mrm := u.h.mrm)
  {
  }

  lemma QuietOperate(h: H.Handler, sends: H.Sends)
    requires h.mrm.behavior.EmergencyStop? && !h.mrm.state.Normal? && !H.AtStandstill(h)
    ensures H.Operate(h, sends).calls == []
  {
  }

  /** While the fault lasts and the vehicle moves, a tick under the emergency stop neither clears nor re-arms route 3. */
  lemma QuietTick(h: H.Handler, now: int, r: H.Read)
    requires HandlerRuns.Coherent(h.mrm) && h.mrm.behavior.EmergencyStop?
    requires HandlerRuns.FaultTick(h, now, r) && !H.AtStandstill(h)
    ensures forall c <- H.Tick(h, now, r).calls :: !FloorCall(c)
    ensures H.Tick(h, now, r).h.mrm.behavior.EmergencyStop?
  {
    HandlerRuns.TickLadder(h, now, r);
    if HandlerRuns.RunsAt(h, now) {
      var s := H.Sensed(h, now, r.latched);
      QuietUpdate(s, now, r.fault);
      QuietOperate(H.UpdateState(s, now, r.fault).h, r.sends);
      assert H.Tick(h, now, r).calls == H.ClosingCalls(s);
    }
  }

  /** The supervisor's sample is the handler's last odometry. */
  predicate SameSpeed(y: System)
  {
    if y.h.inp.speed.Some? then y.s.sample.speed == y.h.inp.speed.value else y.s.sample.at == 0
  }

  lemma SupSample(s: S.State, now: int, ev: S.Event)
    requires RouteInv(s, now) && (ev.Wake? ==> ev.nowUs >= 1000 * now)
    ensures S.Step(s, now, ev).sample == if ev.NoteSpeed? then S.Sample(ev.speed, Trunc32(now)) else s.sample
  {
    match ev
    case Wake(left, nowUs) =>
      var v := s.(thread := s.thread.(wake := false));
      ReactionPass.Reacted(v, now, left, nowUs);
      ReactionPass.ServeFrame(S.React(v, now, left, nowUs), now);
    case Timeout => ReactionPass.ServeFrame(s, now);
    case _ =>
  }

  ghost predicate RouteInv(s: S.State, now: int) { RouteTable.Inv(s) && (s.latched ==> s.brake.since <= now) }

  lemma HandlerSpeed(y: System, e: Timed)
    requires Enabled(y, e) && HandlerRuns.Coherent(y.h.mrm)
    ensures H.Next(y.h, e.at, HandlerEvent(y, e.ev)).h.inp.speed ==
            if e.ev.Callback? && e.ev.cb.Odometry? then Some(e.ev.cb.speed) else y.h.inp.speed
  {
    match e.ev
    case TickStart(sends) => HandlerRuns.TickFrame(y.h, e.at, Reading(y, sends));
    case Callback(cb) => CallbackSpeed(y.h, e.at, cb);
    case _ =>
  }

  lemma CallbackSpeed(h: H.Handler, now: int, cb: H.Step)
    requires !cb.OnTimer?
    ensures H.Next(h, now, cb).h.inp.speed == if cb.Odometry? then Some(cb.speed) else h.inp.speed
  {
  }

  lemma SpeedStep(y: System, e: Timed)
    requires SameSpeed(y) && Enabled(y, e) && HandlerRuns.Coherent(y.h.mrm) && RouteInv(y.s, e.at)
    requires forall c <- y.todo :: OwnCall(c)
    ensures SameSpeed(Next(y, e.at, e.ev))
    ensures Next(y, e.at, e.ev).h.inp.speed ==
            if e.ev.Callback? && e.ev.cb.Odometry? then Some(e.ev.cb.speed) else y.h.inp.speed
  {
    var ev := SupEvent(y, e.at, e.ev);
    SupAdmissible(y, e);
    SupSample(y.s, e.at, ev);
    NextParts(y, e.at, e.ev);
    HandlerSpeed(y, e);
    assert ev.NoteSpeed? <==> e.ev.Callback? && e.ev.cb.Odometry?;
  }

  lemma {:induction false} SameSpeedAlways(ys: seq<System>, es: seq<Timed>, k: nat)
    requires Run(ys, es) && k <= |es|
    ensures SameSpeed(ys[k])
  {
    if k > 0 {
      SameSpeedAlways(ys, es, k - 1);
      PartsAt(ys, es, k - 1);
      assert StepAt(ys, es, k - 1);
      SpeedStep(ys[k - 1], es[k - 1]);
    }
  }

  // ------------------------------------------------------------------ the verdict on an emergency call

  /** What the world does in event `k`: the fault lasts, the odometry never reads zero, and passes find a vehicle that has reported. */
  predicate Moving(y: System, e: Timed)
  {
    match e.ev
    case TickStart(sends) => HandlerRuns.FaultTick(y.h, e.at, Reading(y, sends))
    case Callback(cb) => cb.Odometry? ==> cb.speed != 0
    case Sup(ev) => ev.Wake? ==> !Judge.Unseen(y.s.sample.at)
    case _ => true
  }

  ghost predicate MovingFrom(ys: seq<System>, es: seq<Timed>, m: nat, n: nat)
    requires |ys| == |es| + 1 && m <= n <= |es|
  {
    forall k | m <= k < n :: Moving(ys[k], es[k])
  }

  /** The emergency stop has been called, and its tick has no more to say to route 3. */
  ghost predicate Called(y: System)
  {
    && y.h.mrm.behavior.EmergencyStop? && !H.AtStandstill(y.h)
    && (forall c <- y.todo :: !FloorCall(c))
  }

  lemma CalledStep(y: System, e: Timed)
    requires Called(y) && Moving(y, e) && Enabled(y, e) && HandlerRuns.Coherent(y.h.mrm) && SameSpeed(y)
    requires forall c <- y.todo :: OwnCall(c)
    requires RouteInv(y.s, e.at)
    ensures Called(Next(y, e.at, e.ev))
    ensures FloorRuns.StillMoving(y.s, S.Timed(e.at, SupEvent(y, e.at, e.ev)))
  {
    SpeedStep(y, e);
    var n := Next(y, e.at, e.ev);
    if e.ev.NextCall? { assert !FloorCall(y.todo[0]) && y.todo == [y.todo[0]] + n.todo; }
    if e.ev.TickStart? { QuietTick(y.h, e.at, Reading(y, e.ev.sends)); }
    if e.ev.Callback? { HandlerRuns.CallbacksLeave(y.h, e.at, e.ev.cb); }
  }

  lemma {:induction false} CalledAlways(ys: seq<System>, es: seq<Timed>, m: nat, n: nat)
    requires Run(ys, es) && m <= n <= |es| && Called(ys[m]) && MovingFrom(ys, es, m, n)
    ensures Called(ys[n])
    decreases n
  {
    if m < n {
      CalledAlways(ys, es, m, n - 1);
      PartsAt(ys, es, n - 1);
      SameSpeedAlways(ys, es, n - 1);
      assert StepAt(ys, es, n - 1);
      CalledStep(ys[n - 1], es[n - 1]);
    }
  }

  lemma StillMovingAt(ys: seq<System>, es: seq<Timed>, m: nat, n: nat, k: nat)
    requires Run(ys, es) && m <= k < n <= |es| && Called(ys[m]) && MovingFrom(ys, es, m, n)
    ensures FloorRuns.StillMoving(SupStates(ys)[k], SupEvents(ys, es)[k])
  {
    CalledAlways(ys, es, m, k);
    PartsAt(ys, es, k);
    SameSpeedAlways(ys, es, k);
    assert StepAt(ys, es, k);
    CalledStep(ys[k], es[k]);
  }

  /** The step just taken was the tick's last word to route 3: the emergency call's arm, whether or not the request gets out. */
  ghost predicate JustCalled(ys: seq<System>, es: seq<Timed>, m: nat)
    requires |ys| == |es| + 1 && 0 < m <= |es|
  {
    var y := ys[m - 1];
    && es[m - 1].ev.NextCall? && y.todo != []
    && y.todo[0] == H.ArmIn(S.FLOOR, y.h.p.emergencyMs + y.h.p.observeMs)
    && y.h.p.emergencyMs == y.s.cfg.emergencyMs && y.h.p.observeMs == y.s.cfg.observeMs
    && Called(ys[m])
  }

  lemma CallArms(ys: seq<System>, es: seq<Timed>, m: nat)
    requires Run(ys, es) && 0 < m <= |es| && JustCalled(ys, es, m)
    ensures ys[m].s.routes.floor == S.Armed(es[m - 1].at + ys[m].s.cfg.FloorSpan())
    ensures ys[m].s.latched == ys[m - 1].s.latched && ys[m].s.cfg == ys[m - 1].s.cfg && ys[m].s.brake == ys[m - 1].s.brake
  {
    var y, e := ys[m - 1], es[m - 1];
    assert StepAt(ys, es, m - 1);
    assert SupEvent(y, e.at, e.ev) == S.Arm(S.FLOOR, e.at + y.s.cfg.FloorSpan());
  }

  /**
   * From the emergency call on, while the fault lasts and the vehicle is never seen at standstill, a prompt
   * reaction thread records the vehicle fault within three floor spans of the call: whether or not the
   * request ever reached the operator, whatever the transport, the driver and the other components do.
   */
  lemma EmergencyStopIsPursued(ys: seq<System>, es: seq<Timed>, m: nat, n: nat)
    requires Run(ys, es) && 0 < m <= n <= |es| && JustCalled(ys, es, m) && MovingFrom(ys, es, m, n)
    requires S.PromptFrom(SupStates(ys), SupEvents(ys, es), m)
    requires var span := ys[m].s.cfg.FloorSpan();
             es[m - 1].at + 3 * span < (if ys[m].s.latched then ys[m].s.brake.since else es[m - 1].at) + U32
    requires es[n - 1].at > es[m - 1].at + 3 * ys[m].s.cfg.FloorSpan()
    ensures ys[n].s.fault.Fault?
  {
    var ss, ts := SupStates(ys), SupEvents(ys, es);
    SupervisorPart(ys, es);
    CallArms(ys, es, m);
    forall k | m <= k < n ensures FloorRuns.StillMoving(ss[k], ts[k]) { StillMovingAt(ys, es, m, n, k); }
    PartsAt(ys, es, m - 1);
    assert ss[m] == ys[m].s && ss[n] == ys[n].s && ts[m - 1].at == es[m - 1].at && ts[n - 1].at == es[n - 1].at;
    FloorRuns.BoundedVerdict(ss, ts, m, n);
  }

  // ------------------------------------------------------------------ at most two waits

  /** The floor is armed a whole span ahead. */
  predicate SpanCall(p: H.Params, c: H.Call) { c.ArmIn? && c.route == S.FLOOR ==> c.span == p.emergencyMs + p.observeMs }

  lemma OperateSpans(h: H.Handler, sends: H.Sends)
    ensures forall c <- H.Operate(h, sends).calls :: SpanCall(h.p, c)
  {
  }

  lemma UpdateSpans(h: H.Handler, now: int, fault: bool)
    ensures forall c <- H.UpdateState(h, now, fault).calls :: SpanCall(h.p, c)
    ensures H.UpdateState(h, now, fault).h.p == h.p
  {
    assert forall c <- H.StandstillCalls(h.mrm.behavior) :: c.Finish?;
  }

  lemma DecideSpans(h: H.Handler, now: int, fault: bool, sends: H.Sends)
    ensures forall c <- H.Decide(h, now, fault, sends).calls :: SpanCall(h.p, c)
  {
    var u := H.UpdateState(h, now, fault);
    UpdateSpans(h, now, fault);
    OperateSpans(u.h, sends);
    assert H.Decide(h, now, fault, sends).calls == u.calls + H.Operate(u.h, sends).calls;
  }

  lemma TickSpans(h: H.Handler, now: int, r: H.Read)
    ensures forall c <- H.Tick(h, now, r).calls :: SpanCall(h.p, c)
  {
    if H.PhaseStep(h, now).life.phase.Run? {
      var s := H.Sensed(h, now, r.latched);
      DecideSpans(s, now, r.fault, r.sends);
      assert forall c <- H.ClosingCalls(s) :: !c.ArmIn?;
      assert H.Tick(h, now, r).calls == H.Decide(s, now, r.fault, r.sends).calls + H.ClosingCalls(s);
    }
  }

  /** Every call still to be made arms a whole span, and the handler's parameters and the configuration stay. */
  ghost predicate Spans(y: System, first: System)
  {
    y.h.p == first.h.p && y.s.cfg == first.s.cfg && forall c <- y.todo :: SpanCall(first.h.p, c)
  }

  lemma SpansStep(y: System, e: Timed, first: System)
    requires Spans(y, first) && Enabled(y, e) && HandlerRuns.Coherent(y.h.mrm) && Next(y, e.at, e.ev).s.cfg == y.s.cfg
    ensures Spans(Next(y, e.at, e.ev), first)
  {
    DoneStep(y, e.at, e.ev);
    var n := Next(y, e.at, e.ev).todo;
    match e.ev
    case TickStart(sends) =>
      TickSpans(y.h, e.at, Reading(y, sends));
      assert n == H.Tick(y.h, e.at, Reading(y, sends)).calls;
    case NextCall => assert n == y.todo[1..];
    case _ => assert n == y.todo || n == [];
  }

  lemma {:induction false} SpansAlways(ys: seq<System>, es: seq<Timed>, k: nat)
    requires Run(ys, es) && k <= |es|
    ensures Spans(ys[k], ys[0])
  {
    if k > 0 {
      SpansAlways(ys, es, k - 1);
      PartsAt(ys, es, k - 1);
      assert StepAt(ys, es, k - 1);
      ConfigStays(ys, es, k - 1);
      SpansStep(ys[k - 1], es[k - 1], ys[0]);
    }
  }

  lemma ConfigStays(ys: seq<System>, es: seq<Timed>, k: nat)
    requires Run(ys, es) && k < |es|
    ensures ys[k + 1].s.cfg == ys[k].s.cfg
  {
    var ss, ts := SupStates(ys), SupEvents(ys, es);
    SupervisorPart(ys, es);
    SupervisorRuns.ClockAlways(ss, ts, k);
    assert S.StepAt(ss, ts, k);
    SupervisorRuns.StepForward(ss[k], ts[k]);
    assert ss[k + 1] == ys[k + 1].s && ss[k] == ys[k].s;
  }

  lemma NoEarlyArm(y: System, e: Timed, first: System)
    requires Spans(y, first) && Enabled(y, e)
    requires first.h.p.emergencyMs == first.s.cfg.emergencyMs && first.h.p.observeMs == first.s.cfg.observeMs
    requires y.s.latched ==> y.s.brake.since <= e.at
    ensures !FloorRuns.EarlyArm(y.s, S.Timed(e.at, SupEvent(y, e.at, e.ev)))
  {
    if e.ev.NextCall? { assert SpanCall(first.h.p, y.todo[0]); }
  }

  lemma NoEarlyArms(ys: seq<System>, es: seq<Timed>, k: nat)
    requires Run(ys, es) && k <= |es|
    requires ys[0].h.p.emergencyMs == ys[0].s.cfg.emergencyMs && ys[0].h.p.observeMs == ys[0].s.cfg.observeMs
    ensures FloorRuns.TallyOf(SupStates(ys), SupEvents(ys, es), k).early == 0
  {
    forall i | 0 <= i < k ensures !FloorRuns.EarlyArm(SupStates(ys)[i], SupEvents(ys, es)[i]) {
      SpansAlways(ys, es, i);
      PartsAt(ys, es, i);
      assert StepAt(ys, es, i);
      NoEarlyArm(ys[i], es[i], ys[0]);
    }
    FloorRuns.NoneEarly(SupStates(ys), SupEvents(ys, es), k);
  }

  /**
   * With the handler's own arms, the floor's waits in every run of the island: at least the unpaid ones, and at
   * most two more; and the response's alike.
   */
  lemma WaitsAccounted(ys: seq<System>, es: seq<Timed>, k: nat)
    requires Run(ys, es) && k <= |es|
    requires ys[0].h.p.emergencyMs == ys[0].s.cfg.emergencyMs && ys[0].h.p.observeMs == ys[0].s.cfg.observeMs
    ensures var t := FloorRuns.TallyOf(SupStates(ys), SupEvents(ys, es), k);
            && t.floor <= ys[k].s.floor.waits <= 2 + t.floor
            && t.response <= ys[k].s.floor.responseWaits <= 2 + t.response
  {
    SupervisorPart(ys, es);
    NoEarlyArms(ys, es, k);
    FloorRuns.WaitsAccounted(SupStates(ys), SupEvents(ys, es), k);
    assert SupStates(ys)[k] == ys[k].s;
  }

  /** With every wait paid, at most two of each. */
  lemma AtMostTwoWaits(ys: seq<System>, es: seq<Timed>, k: nat)
    requires Run(ys, es) && k <= |es|
    requires ys[0].h.p.emergencyMs == ys[0].s.cfg.emergencyMs && ys[0].h.p.observeMs == ys[0].s.cfg.observeMs
    requires forall i | 0 <= i < k :: FloorRuns.Paid(SupStates(ys)[i], SupEvents(ys, es)[i])
    ensures ys[k].s.floor.waits <= 2 && ys[k].s.floor.responseWaits <= 2
  {
    WaitsAccounted(ys, es, k);
    FloorRuns.AllPaid(SupStates(ys), SupEvents(ys, es), k);
  }

  // ------------------------------------------------------------------ the latch, in the handler

  /** Once the output is latched, the second tick after it leaves the handler in the emergency stop for good. */
  lemma LatchReachesHandler(ys: seq<System>, es: seq<Timed>, i: nat, j: nat, k: nat)
    requires Run(ys, es) && i < j < k <= |es| && ys[i].s.latched
    requires es[i].ev.TickStart? && HandlerRuns.RunsAt(ys[i].h, es[i].at) && es[j].ev.TickStart?
    requires H.InAutonomousControl(ys[i].h) || !ys[i].h.mrm.state.Normal?
    ensures ys[k].h.mrm.behavior.EmergencyStop?
  {
    var hs, ts := HandlerStates(ys), HandlerEvents(ys, es);
    HandlerPart(ys, es);
    forall m | i <= m < |ts| && ts[m].ev.OnTimer? ensures ts[m].ev.r.latched {
      assert StepAt(ys, es, m);
      LatchStays(ys, es, i, m);
    }
    assert HandlerRuns.LatchedFrom(ts, i);
    assert hs[k] == ys[k].h && hs[i] == ys[i].h;
    HandlerRuns.LatchHolds(hs, ts, i, j, k);
  }

  /** A vehicle fault reaches the handler with its next RUN tick: MRM_FAILED, in the emergency stop, for good. */
  lemma {:induction false} FaultReachesHandler(ys: seq<System>, es: seq<Timed>, i: nat, j: nat, k: nat)
    requires Run(ys, es) && i <= j < k <= |es| && ys[i].s.fault.Fault?
    requires es[j].ev.TickStart? && HandlerRuns.RunsAt(ys[j].h, es[j].at)
    ensures ys[k].h.mrm == H.Mrm(H.Failed, H.EmergencyStop) && ys[k].h.life.phase.Run?
    decreases k
  {
    if j + 1 < k { FaultReachesHandler(ys, es, i, j, k - 1); }
    FaultStays(ys, es, i, k - 1);
    FaultStep(ys, es, k - 1);
  }

  lemma FaultStays(ys: seq<System>, es: seq<Timed>, i: nat, k: nat)
    requires Run(ys, es) && i <= k <= |es| && ys[i].s.fault.Fault?
    ensures ys[k].s.fault.Fault? && ys[k].s.latched
  {
    var ss, ts := SupStates(ys), SupEvents(ys, es);
    SupervisorPart(ys, es);
    SupervisorRuns.NothingIsUndone(ss, ts, i, k);
    FaultIsLatched(ss, ts, k);
    assert ss[i] == ys[i].s && ss[k] == ys[k].s;
  }

  lemma {:induction false} FaultIsLatched(ss: seq<S.State>, ts: seq<S.Timed>, k: nat)
    requires S.Behaviour(ss, ts) && k <= |ts|
    ensures ss[k].fault.Fault? ==> ss[k].latched
  {
    if k > 0 {
      FaultIsLatched(ss, ts, k - 1);
      SupervisorRuns.NothingIsUndone(ss, ts, k - 1, k);
      if ss[k].fault.Fault? && ss[k - 1].fault.NoFault? { SupervisorRuns.NoFalseFault(ss, ts, k - 1); }
    }
  }

  /** A tick under the recorded fault fails the handler, and every other event leaves it. */
  lemma FaultStep(ys: seq<System>, es: seq<Timed>, k: nat)
    requires Run(ys, es) && k < |es| && ys[k].s.fault.Fault? && ys[k].s.latched
    requires if es[k].ev.TickStart? then HandlerRuns.RunsAt(ys[k].h, es[k].at)
             else ys[k].h.mrm == H.Mrm(H.Failed, H.EmergencyStop) && ys[k].h.life.phase.Run?
    ensures ys[k + 1].h.mrm == H.Mrm(H.Failed, H.EmergencyStop) && ys[k + 1].h.life.phase.Run?
  {
    PartsAt(ys, es, k);
    assert StepAt(ys, es, k);
    var y, e := ys[k], es[k];
    NextParts(y, e.at, e.ev);
    match e.ev
    case TickStart(sends) =>
      BehaviorChoice.FaultFails(y.h, e.at, Reading(y, sends));
      HandlerRuns.TickFrame(y.h, e.at, Reading(y, sends));
    case Callback(cb) => HandlerRuns.CallbacksLeave(y.h, e.at, cb);
    case _ =>
  }
}
