/** Whole runs of the supervisor: the route table, the latch, and the vehicle fault. */
module SupervisorRuns {
  import opened Words
  import opened SupervisorSpec
  import opened RouteTable
  import opened ReactionPass
  import Judge

  // ------------------------------------------------------------------ one step, for history

  /** The braking command (re)starts in this step: the latch is made, or the operator slot is resumed. */
  predicate BrakeStarts(s: State, t: State)
  {
    (!s.latched && t.latched) || (!s.slots.operator.resumed && t.slots.operator.resumed)
  }

  /** What no step undoes. */
  predicate Forward(s: State, t: State)
  {
    && t.cfg == s.cfg
    && (s.latched ==> t.latched && t.latchMs == s.latchMs && t.cause == s.cause)
    && (s.fault.Fault? ==> t.fault == s.fault)
    && SlotForward(s.slots.handler, t.slots.handler) && SlotForward(s.slots.operator, t.slots.operator)
  }

  predicate SlotForward(x: Slot, y: Slot)
  {
    && y.registered == x.registered && x.calls <= y.calls
    && (x.handover ==> y.handover) && (x.resumed ==> y.resumed)
    && (y.resumed && !x.resumed ==> x.handover)
  }

  predicate ClockOk(s: State, now: int) { s.latched ==> s.latchMs <= s.brake.since <= now }

  lemma SlotsInWatch(s: State, now: int)
    ensures var w := DirectWatch(s, now);
            && w.slots.handler == s.slots.handler.(resumed := s.slots.handler.resumed || Silent(s, s.slots.handler, now))
            && w.slots.operator == s.slots.operator.(resumed := s.slots.operator.resumed || Silent(s, s.slots.operator, now))
            && w.cause == s.cause && w.cfg == s.cfg
  {
    var h := ResumeSlot(s, HANDLER, now);
    assert h == s.(slots := h.slots) && h.slots.operator == s.slots.operator;
    assert Silent(h, h.slots.operator, now) == Silent(s, s.slots.operator, now);
  }

  lemma SlotsInService(s: State, now: int)
    ensures var w := DirectService(s, now);
            && SlotForward(s.slots.handler, w.slots.handler) && SlotForward(s.slots.operator, w.slots.operator)
            && w.slots.operator.resumed == (s.slots.operator.resumed || Silent(s, s.slots.operator, now))
            && w.slots.handler.handover == s.slots.handler.handover && w.slots.operator.handover == s.slots.operator.handover
            && w.cause == s.cause
  {
    SlotsInWatch(s, now);
    ServiceAfterWatch(s, now);
  }

  /** After the watch, service only counts the calls of the slots it owns. */
  lemma ServiceAfterWatch(s: State, now: int)
    ensures var w, d := DirectWatch(s, now), DirectService(s, now);
            && (d.slots == w.slots || d.slots == Slots(Called(w.slots.handler), Called(w.slots.operator)))
            && d.cause == w.cause && d.cfg == w.cfg
  {
  }

  lemma ServeStep(s: State, now: int)
    requires ClockOk(s, now)
    ensures var w := Serve(s, now);
            && Forward(s, w) && ClockOk(w, now)
            && (BrakeStarts(s, w) ==> w.brake.since == now) && (!BrakeStarts(s, w) ==> w.brake == s.brake)
  {
    ServeFrame(s, now);
    if s.latched { SlotsInService(s, now); }
  }

  lemma WakeForward(s: State, now: int, left: nat, nowUs: int)
    requires Inv(s) && ClockOk(s, now) && nowUs >= 1000 * now
    ensures var w := WakeStep(s, now, left, nowUs);
            && Forward(s, w) && ClockOk(w, now)
            && (BrakeStarts(s, w) ==> w.brake.since == now) && (!BrakeStarts(s, w) ==> w.brake == s.brake)
            && FaultFrom(s, w, now)
  {
    var v := s.(thread := s.thread.(wake := false));
    var r := React(v, now, left, nowUs);
    Reacted(v, now, left, nowUs);
    FaultInReact(v, now, left, nowUs);
    ServeStep(r, now);
    ServeFrame(r, now);
  }

  // ------------------------------------------------------------------ the vehicle fault, in one pass

  /** The island's braking command has run route `i`'s span and the vehicle still shows no answer to it. */
  predicate FaultDue(s: State, now: int, i: nat)
  {
    && s.latched
    && (i == FLOOR ==> now - s.brake.since >= s.cfg.FloorSpan() && !Judge.Unseen(s.sample.at) && !Stopped(s, now))
    && (i == RESPONSE ==> now - s.brake.since >= s.cfg.ResponseSpan() && !Answering(s, now))
  }

  predicate FaultFrom(s: State, t: State, now: int)
  {
    t.fault != s.fault ==>
      && s.fault.NoFault? && t.fault.Fault? && t.fault.route in {FLOOR, RESPONSE}
      && t.fault.at32 == Trunc32(now) && t.fault.speed == s.sample.speed
      && FaultDue(s, now, t.fault.route)
  }

  lemma FaultInFloor(p: Pass, now: int)
    requires ClockOk(p.s, now)
    ensures FaultFrom(p.s, JudgeFloor(p, now).s, now)
    ensures p.s.latched ==> JudgeFloor(p, now).s.floor.ref == p.s.floor.ref
    ensures JudgeFloor(p, now).s.fault != p.s.fault ==> !Late(JudgeFloor(p, now).s.routes.response, now)
    ensures SamePass(p.s, JudgeFloor(p, now).s)
  {
    if p.s.latched { TruncBelow(now - p.s.brake.since); }
  }

  lemma FaultInResponse(p: Pass, now: int)
    requires ClockOk(p.s, now)
    ensures FaultFrom(p.s, JudgeResponse(p, now).s, now)
    ensures SamePass(p.s, JudgeResponse(p, now).s)
  {
    if p.s.latched { TruncBelow(now - p.s.brake.since); }
  }

  lemma FaultInPair(p: Pass, now: int, left: nat, nowUs: int)
    requires ClockOk(p.s, now)
    ensures FaultFrom(p.s, JudgeRoute(JudgeRoute(p, FLOOR, now, left, nowUs), RESPONSE, now, left, nowUs).s, now)
  {
    var f := JudgeRoute(p, FLOOR, now, left, nowUs);
    if Late(p.s.routes.floor, now) { FaultInFloor(p, now); }
    if Late(f.s.routes.response, now) { FaultInResponse(f, now); }
  }

  lemma FaultInReact(s: State, now: int, left: nat, nowUs: int)
    requires ReleaseOk(s) && ClockOk(s, now) && nowUs >= 1000 * now
    ensures FaultFrom(s, React(s, now, left, nowUs), now)
    ensures s.latched ==> React(s, now, left, nowUs).cause == s.cause
  {
    FirstThree(s, now, left, nowUs);
    JudgeRoutesKeeps(s, ROUTES, now, left, nowUs);
    var p := JudgeRoutes(s, FLOOR, now, left, nowUs);
    FaultInPair(p, now, left, nowUs);
    assert JudgeRoutes(s, RESPONSE, now, left, nowUs) == JudgeRoute(p, FLOOR, now, left, nowUs);
  }

  // ------------------------------------------------------------------ every step

  lemma StepForward(s: State, e: Timed)
    requires Inv(s) && ClockOk(s, e.at) && Admissible(e)
    ensures var t := Step(s, e.at, e.ev);
            && Forward(s, t) && ClockOk(t, e.at)
            && (BrakeStarts(s, t) ==> t.brake.since == e.at) && (!BrakeStarts(s, t) ==> t.brake == s.brake)
            && (t.fault != s.fault ==> e.ev.Wake? && FaultFrom(s, t, e.at))
  {
    match e.ev
    case Wake(left, nowUs) => WakeForward(s, e.at, left, nowUs);
    case Timeout => ServeStep(s, e.at); ServeFrame(s, e.at);
    case _ => QuietForward(s, e);
  }

  /** The executor's side moves no latch, no braking command and no fault. */
  lemma QuietForward(s: State, e: Timed)
    requires !e.ev.Wake? && !e.ev.Timeout?
    ensures var t := Step(s, e.at, e.ev);
            && t.latched == s.latched && t.latchMs == s.latchMs && t.cause == s.cause && t.cfg == s.cfg
            && t.brake == s.brake && t.fault == s.fault && t.directNext == s.directNext
            && SlotForward(s.slots.handler, t.slots.handler) && SlotForward(s.slots.operator, t.slots.operator)
            && t.slots.handler.resumed == s.slots.handler.resumed && t.slots.operator.resumed == s.slots.operator.resumed
  {
  }

  // ------------------------------------------------------------------ every run

  lemma {:induction false} ClockAlways(ss: seq<State>, es: seq<Timed>, k: nat)
    requires Behaviour(ss, es) && k <= |es|
    ensures Inv(ss[k])
    ensures ss[k].latched ==> k > 0
    ensures k > 0 ==> ClockOk(ss[k], es[k - 1].at)
    ensures k < |es| ==> ClockOk(ss[k], es[k].at)
  {
    InvAlways(ss, es, k);
    if k > 0 {
      ClockAlways(ss, es, k - 1);
      ClockForward(ss, es, k - 1);
    }
    if k < |es| { ClockLater(ss, es, k); }
  }

  /** One step leaves the clock right at its own time. */
  lemma ClockForward(ss: seq<State>, es: seq<Timed>, k: nat)
    requires Behaviour(ss, es) && k < |es| && Inv(ss[k]) && ClockOk(ss[k], es[k].at)
    ensures ClockOk(ss[k + 1], es[k].at)
  {
    assert StepAt(ss, es, k);
    StepForward(ss[k], es[k]);
  }

  /** And time only grows up to the next. */
  lemma ClockLater(ss: seq<State>, es: seq<Timed>, k: nat)
    requires Behaviour(ss, es) && k < |es|
    requires (ss[k].latched ==> k > 0) && (k > 0 ==> ClockOk(ss[k], es[k - 1].at))
    ensures ClockOk(ss[k], es[k].at)
  {
    assert StepAt(ss, es, k);
  }

  /**
   * At every lock release of every run: the timer is on the least armed due (stopped when none is), the
   * record mirrors the dues, route 4 is armed only beside route 3, route 3 is armed iff the floor's
   * stage is not idle, a resume follows a handover and a handover a latch, and at most one floor miss
   * ever latched.
   */
  lemma RouteTableAlways(ss: seq<State>, es: seq<Timed>, k: nat)
    requires Behaviour(ss, es) && k <= |es|
    ensures IsEarliest(ss[k].routes.List(), ss[k].timer)
    ensures forall i | 0 <= i < ROUTES :: RouteOk(ss[k].routes.At(i))
    ensures ss[k].routes.response.valid ==> ss[k].routes.floor.valid
    ensures ss[k].routes.floor.valid <==> !ss[k].floor.stage.Idle?
    ensures forall i | 0 <= i < SLOTS :: SlotOk(ss[k].slots.At(i), ss[k].latched)
    ensures ss[k].floor.latches + ss[k].floor.responseLatches <= 1
  {
    InvAlways(ss, es, k);
    EarliestIsLeast(ss[k].routes.List());
  }

  /** Every wake of every run leaves each armed due strictly later, while the braking command is younger than 2^32 ms. */
  lemma ProgressAlways(ss: seq<State>, es: seq<Timed>, k: nat)
    requires Behaviour(ss, es) && k < |es| && es[k].ev.Wake?
    requires ss[k].latched ==> es[k].at - ss[k].brake.since < U32
    ensures forall x <- ss[k + 1].routes.List() :: !Late(x, es[k].at)
  {
    ClockAlways(ss, es, k);
    assert StepAt(ss, es, k);
    PassMakesProgress(ss[k], es[k].at, es[k].ev.left, es[k].ev.nowUs);
  }

  /** The latch, its time and cause, and the first vehicle fault never change once set. */
  lemma {:induction false} NothingIsUndone(ss: seq<State>, es: seq<Timed>, j: nat, k: nat)
    requires Behaviour(ss, es) && j <= k <= |es|
    ensures ss[j].latched ==> ss[k].latched && ss[k].latchMs == ss[j].latchMs && ss[k].cause == ss[j].cause
    ensures ss[j].fault.Fault? ==> ss[k].fault == ss[j].fault
    decreases k - j
  {
    if j < k {
      NothingIsUndone(ss, es, j, k - 1);
      ClockAlways(ss, es, k - 1);
      assert StepAt(ss, es, k - 1);
      StepForward(ss[k - 1], es[k - 1]);
    }
  }

  /** Whoever started the braking command, `brake.since` is no earlier. */
  lemma {:induction false} SinceCoversStarts(ss: seq<State>, es: seq<Timed>, j: nat, k: nat)
    requires Behaviour(ss, es) && j < k <= |es| && BrakeStarts(ss[j], ss[j + 1])
    requires ss[j + 1].latched
    ensures ss[k].latched && es[j].at <= ss[k].brake.since
    decreases k - j
  {
    ClockAlways(ss, es, k - 1);
    assert StepAt(ss, es, k - 1);
    StepForward(ss[k - 1], es[k - 1]);
    if j + 1 < k { SinceCoversStarts(ss, es, j, k - 1); }
  }

  /**
   * No false vehicle fault. The pass that records it found the output already latched; no latch and no
   * resume of the operator slot happened in an earlier step less than the judging route's span ago; the
   * sample showed no fresh standstill (route 4: and no fresh drop); and the words then never change.
   */
  lemma NoFalseFault(ss: seq<State>, es: seq<Timed>, k: nat)
    requires Behaviour(ss, es) && k < |es|
    requires ss[k].fault.NoFault? && ss[k + 1].fault.Fault?
    ensures es[k].ev.Wake? && ss[k].latched
    ensures ss[k + 1].fault.route == FLOOR || ss[k + 1].fault.route == RESPONSE
    ensures forall j | 0 <= j < k && BrakeStarts(ss[j], ss[j + 1]) ::
              es[k].at - es[j].at >= (if ss[k + 1].fault.route == FLOOR then ss[k].cfg.FloorSpan() else ss[k].cfg.ResponseSpan())
    ensures !Stopped(ss[k], es[k].at)
    ensures ss[k + 1].fault.route == RESPONSE ==> !Answering(ss[k], es[k].at)
    ensures ss[k + 1].fault.at32 == Trunc32(es[k].at) && ss[k + 1].fault.speed == ss[k].sample.speed
    ensures forall m | k < m <= |es| :: ss[m].fault == ss[k + 1].fault
  {
    ClockAlways(ss, es, k);
    assert StepAt(ss, es, k);
    StepForward(ss[k], es[k]);
    forall j | 0 <= j < k && BrakeStarts(ss[j], ss[j + 1])
      ensures ss[k].latched && es[j].at <= ss[k].brake.since
    {
      ClockAlways(ss, es, j);
      assert StepAt(ss, es, j);
      StepForward(ss[j], es[j]);
      ClockAlways(ss, es, j + 1);
      SinceCoversStarts(ss, es, j, k);
    }
    forall m | k < m <= |es| ensures ss[m].fault == ss[k + 1].fault { NothingIsUndone(ss, es, k + 1, m); }
  }
}
