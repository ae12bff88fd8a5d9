/** One reaction pass, exactly: which misses latch, whom the latch calls, and which dues are left behind. */
module ReactionPass {
  import opened Words
  import opened SupervisorSpec
  import opened RouteTable
  import Judge

  // ------------------------------------------------------------------ the misses, on the state before the pass

  predicate FloorMiss(s: State, now: int)
  {
    Late(s.routes.floor, now) && !Judge.Unseen(s.sample.at) && !Stopped(s, now) && !s.latched
  }

  predicate ResponseMiss(s: State, now: int)
  {
    Late(s.routes.response, now) && !Answering(s, now) && !s.latched
  }

  /** A miss of routes 0 to 2: any expiry of route 0, an unanswered route 1, route 2 not at standstill. */
  predicate EarlyMiss(s: State, now: int, left: nat)
  {
    || Late(s.routes.callMrm, now)
    || (Late(s.routes.executor, now) && left == 0)
    || (Late(s.routes.comfortable, now) && !Stopped(s, now))
  }

  predicate Missed(s: State, now: int, left: nat)
  {
    EarlyMiss(s, now, left) || FloorMiss(s, now) || ResponseMiss(s, now)
  }

  // ------------------------------------------------------------------ the judged table

  lemma FirstThree(s: State, now: int, left: nat, nowUs: int)
    requires nowUs >= 1000 * now
    ensures var p := JudgeRoutes(s, FLOOR, now, left, nowUs);
            && p.s == s.(routes := p.s.routes)
            && p.s.routes.floor == s.routes.floor && p.s.routes.response == s.routes.response
            && !Late(p.s.routes.callMrm, now) && !Late(p.s.routes.executor, now) && !Late(p.s.routes.comfortable, now)
            && p.fired == EarlyMiss(s, now, left)
  {
    var p1 := JudgeRoute(Pass(s, false), CALL_MRM, now, left, nowUs);
    assert JudgeRoutes(s, 1, now, left, nowUs) == p1;
    var p2 := JudgeRoute(p1, EXECUTOR, now, left, nowUs);
    assert JudgeRoutes(s, 2, now, left, nowUs) == p2;
    assert left != 0 ==> ExecutorDue(nowUs, left) > now;
    assert JudgeRoutes(s, 3, now, left, nowUs) == JudgeRoute(p2, COMFORTABLE, now, left, nowUs);
  }

  /**
   * A verdict that waits in the past: the braking command's age wrapped round 2^32 ms, reads as younger
   * than the span, and the route is re-armed at a due that has long gone by.
   */
  predicate WaitsInPast(s: State, now: int)
  {
    && s.latched && now - s.brake.since >= U32
    && (|| (Late(s.routes.floor, now) && !Judge.Unseen(s.sample.at) && FloorVerdict(s, now).Wait?
            && !(Late(s.routes.response, now) && ResponseVerdict(s, now).VehicleFault?))
        || (Late(s.routes.response, now) && ResponseVerdict(s, now).Wait? && s.brake.refOk))
  }

  predicate FloorLeft(s: State, now: int) { Late(s.routes.floor, now) || Late(s.routes.response, now) }

  /** The floor's own route, before route 4 is looked at. */
  lemma FloorJudged(p: Pass, now: int)
    requires TableOk(p.s) && Late(p.s.routes.floor, now)
    requires p.s.latched ==> p.s.brake.since <= now
    ensures var q := JudgeFloor(p, now);
            && SamePass(p.s, q.s)
            && (Late(q.s.routes.floor, now) <==>
                  p.s.latched && !Judge.Unseen(p.s.sample.at) && FloorVerdict(p.s, now).Wait? && now - p.s.brake.since >= U32)
            && q.fired == (p.fired || FloorMiss(p.s, now))
            && q.s.routes.callMrm == p.s.routes.callMrm && q.s.routes.executor == p.s.routes.executor
            && q.s.routes.comfortable == p.s.routes.comfortable
            && (FloorMiss(p.s, now) ==> !Late(q.s.routes.response, now))
            && (!FloorMiss(p.s, now) ==> q.s.floor.ref == p.s.floor.ref)
            && (Late(q.s.routes.response, now) ==> Late(p.s.routes.response, now))
            && (Late(p.s.routes.response, now) && !FloorMiss(p.s, now) && !Late(q.s.routes.response, now) ==>
                  !Judge.Unseen(p.s.sample.at) && (FloorVerdict(p.s, now).Met? || FloorVerdict(p.s, now).VehicleFault?))
  {
    if p.s.latched { TruncBelow(now - p.s.brake.since); }
  }

  lemma ResponseJudged(p: Pass, now: int)
    requires p.s.cfg.Valid() && Late(p.s.routes.response, now) && p.s.cfg.responseMs != 0
    requires p.s.latched ==> p.s.brake.since <= now
    ensures var q := JudgeResponse(p, now);
            && SamePass(p.s, q.s)
            && (Late(q.s.routes.response, now) <==>
                  p.s.latched && ResponseVerdict(p.s, now).Wait? && p.s.brake.refOk && now - p.s.brake.since >= U32)
            && (Late(q.s.routes.floor, now) <==>
                  Late(p.s.routes.floor, now) && !ResponseVerdict(p.s, now).VehicleFault? && !ResponseMiss(p.s, now))
            && q.fired == (p.fired || ResponseMiss(p.s, now))
            && q.s.routes.callMrm == p.s.routes.callMrm && q.s.routes.executor == p.s.routes.executor
            && q.s.routes.comfortable == p.s.routes.comfortable
  {
    if p.s.latched { TruncBelow(now - p.s.brake.since); }
  }

  lemma FloorPair(p: Pass, now: int, left: nat, nowUs: int)
    requires TableOk(p.s)
    requires p.s.latched ==> p.s.brake.since <= now
    ensures var q := JudgeRoute(JudgeRoute(p, FLOOR, now, left, nowUs), RESPONSE, now, left, nowUs);
            && SamePass(p.s, q.s)
            && (FloorLeft(q.s, now) <==> WaitsInPast(p.s, now))
            && q.fired == (p.fired || FloorMiss(p.s, now) || ResponseMiss(p.s, now))
            && q.s.routes.callMrm == p.s.routes.callMrm && q.s.routes.executor == p.s.routes.executor
            && q.s.routes.comfortable == p.s.routes.comfortable
  {
    var f := JudgeRoute(p, FLOOR, now, left, nowUs);
    if Late(p.s.routes.floor, now) { FloorJudged(p, now); }
    if Late(f.s.routes.response, now) {
      assert ResponseVerdict(f.s, now) == ResponseVerdict(p.s, now);
      ResponseJudged(f, now);
    }
  }

  lemma Judged(s: State, now: int, left: nat, nowUs: int)
    requires ReleaseOk(s) && nowUs >= 1000 * now && (s.latched ==> s.brake.since <= now)
    ensures var q := JudgeRoutes(s, ROUTES, now, left, nowUs);
            && SamePass(s, q.s)
            && q.fired == Missed(s, now, left)
            && ((exists r <- q.s.routes.List() :: Late(r, now)) <==> WaitsInPast(s, now))
  {
    FirstThree(s, now, left, nowUs);
    var p := JudgeRoutes(s, FLOOR, now, left, nowUs);
    JudgeRoutesKeeps(s, FLOOR, now, left, nowUs);
    FloorPair(p, now, left, nowUs);
    var f := JudgeRoute(p, FLOOR, now, left, nowUs);
    assert JudgeRoutes(s, RESPONSE, now, left, nowUs) == f;
    var q := JudgeRoutes(s, ROUTES, now, left, nowUs);
    assert q == JudgeRoute(f, RESPONSE, now, left, nowUs);
    assert forall r <- q.s.routes.List() :: Late(r, now) ==> FloorLeft(q.s, now);
    assert q.s.routes.List()[FLOOR] == q.s.routes.floor && q.s.routes.List()[RESPONSE] == q.s.routes.response;
  }

  // ------------------------------------------------------------------ the whole pass

  lemma ServeFrame(s: State, now: int)
    ensures var w := Serve(s, now);
            && w.cfg == s.cfg && w.latched == s.latched && w.latchMs == s.latchMs && w.sample == s.sample && w.fault == s.fault
            && (s.latched && Silent(s, s.slots.operator, now) ==> w.brake.since == now)
            && (!(s.latched && Silent(s, s.slots.operator, now)) ==> w.brake == s.brake && w.routes == s.routes && w.floor == s.floor)
            && w.thread == s.thread.(waitUntil := w.thread.waitUntil)
  {
    var h := ResumeSlot(s, HANDLER, now);
    assert h == s.(slots := h.slots) && h.slots.operator == s.slots.operator;
    assert Silent(h, h.slots.operator, now) == Silent(s, s.slots.operator, now);
    var w := DirectWatch(s, now);
    assert DirectService(s, now) == w.(slots := DirectService(s, now).slots, directNext := DirectService(s, now).directNext);
  }

  lemma ServeLeaves(s: State, now: int)
    requires TableOk(s)
    ensures Serve(s, now).routes.callMrm == s.routes.callMrm
    ensures Serve(s, now).routes.executor == s.routes.executor
    ensures Serve(s, now).routes.comfortable == s.routes.comfortable
    ensures FloorLeft(Serve(s, now), now) <==> FloorLeft(s, now)
  {
    ServeFrame(s, now);
    if s.latched {
      var h := ResumeSlot(s, HANDLER, now);
      assert h == s.(slots := h.slots);
      assert DirectService(s, now).routes == DirectWatch(s, now).routes;
    }
  }

  lemma Reacted(s: State, now: int, left: nat, nowUs: int)
    requires Inv(s) && nowUs >= 1000 * now && (s.latched ==> s.brake.since <= now)
    ensures var r := React(s, now, left, nowUs);
            && r.latched == (s.latched || s.thread.hook || s.thread.swt || Missed(s, now, left))
            && r.slots == s.slots && r.cfg == s.cfg && r.sample == s.sample
            && r.thread == s.thread.(hook := false, swt := false)
            && (s.latched == r.latched ==> r.brake == s.brake && r.latchMs == s.latchMs && r.directNext == s.directNext)
            && (!s.latched && r.latched ==> r.brake.since == now && r.latchMs == now && r.directNext == now)
            && ((exists x <- r.routes.List() :: Late(x, now)) <==> WaitsInPast(s, now))
  {
    Judged(s, now, left, nowUs);
  }

  predicate CalledOnce(x: Slot, y: Slot) { x.registered ==> y.calls == x.calls + 1 }

  /**
   * A pass ends latched exactly when it began latched, a hook call or SWT0 was pending, or it found a
   * missed due; the pass that makes the latch starts the braking command and calls every registered
   * slot's direct function once, in that same pass.
   */
  lemma MissBrakes(s: State, now: int, left: nat, nowUs: int)
    requires Inv(s) && nowUs >= 1000 * now && (s.latched ==> s.brake.since <= now)
    ensures var w := WakeStep(s, now, left, nowUs);
            && w.latched == (s.latched || s.thread.hook || s.thread.swt || Missed(s, now, left))
            && (!s.latched && w.latched ==>
                  && w.latchMs == now && w.brake.since == now
                  && CalledOnce(s.slots.handler, w.slots.handler) && CalledOnce(s.slots.operator, w.slots.operator))
  {
    var v := s.(thread := s.thread.(wake := false));
    Reacted(v, now, left, nowUs);
    var r := React(v, now, left, nowUs);
    ServeFrame(r, now);
    if !s.latched && r.latched {
      assert !r.slots.handler.handover && !r.slots.operator.handover;
      assert DirectWatch(r, now) == r;
    }
  }

  /** An expiry that the executor's cells read as answered, or as a later take's, is no miss by itself. */
  lemma AnsweredIsNoMiss(s: State, now: int, left: nat)
    requires left != 0
    requires forall i | 0 <= i < ROUTES && i != EXECUTOR :: !Late(s.routes.At(i), now)
    ensures !Missed(s, now, left)
  {
    assert !Late(s.routes.At(CALL_MRM), now) && !Late(s.routes.At(COMFORTABLE), now);
    assert !Late(s.routes.At(FLOOR), now) && !Late(s.routes.At(RESPONSE), now);
  }

  /** Some armed due is not later than `now`. */
  predicate LeavesLate(s: State, now: int) { exists x <- s.routes.List() :: Late(x, now) }

  /**
   * After a pass at `now` every armed due is strictly later than `now`, except exactly when a floor
   * verdict waited on a braking command whose age has wrapped 2^32 ms.
   */
  lemma PassMakesProgress(s: State, now: int, left: nat, nowUs: int)
    requires Inv(s) && nowUs >= 1000 * now && (s.latched ==> s.brake.since <= now)
    ensures LeavesLate(WakeStep(s, now, left, nowUs), now) <==> WaitsInPast(s, now)
  {
    var v := s.(thread := s.thread.(wake := false));
    Reacted(v, now, left, nowUs);
    ReactKeeps(v, now, left, nowUs);
    var r := React(v, now, left, nowUs);
    ServeLeaves(r, now);
    LateInList(r, now);
    LateInList(Serve(r, now), now);
  }

  lemma LateInList(s: State, now: int)
    ensures (exists x <- s.routes.List() :: Late(x, now)) <==>
            Late(s.routes.callMrm, now) || Late(s.routes.executor, now) || Late(s.routes.comfortable, now) || FloorLeft(s, now)
  {
    var l := s.routes.List();
    assert l[CALL_MRM] == s.routes.callMrm && l[EXECUTOR] == s.routes.executor && l[COMFORTABLE] == s.routes.comfortable;
    assert l[FLOOR] == s.routes.floor && l[RESPONSE] == s.routes.response;
  }
}
