/** The route table at every lock release, what a pass leaves behind, and when a pass latches. */
module RouteTable {
  import opened Words
  import opened SupervisorSpec
  import Judge

  /** The timer's setting, said of the dues: stopped iff none is armed, else on the least armed due. */
  ghost predicate IsEarliest(t: seq<Route>, timer: Option<int>)
  {
    match timer
    case None => forall i | 0 <= i < |t| :: !t[i].valid
    case Some(d) =>
      && (forall i | 0 <= i < |t| && t[i].valid :: d <= t[i].due)
      && (exists i | 0 <= i < |t| :: t[i].valid && t[i].due == d)
  }

  lemma {:induction false} EarliestIsLeast(t: seq<Route>)
    ensures IsEarliest(t, Earliest(t))
  {
    if t != [] {
      var n := |t| - 1;
      EarliestIsLeast(t[..n]);
      var e := Earliest(t[..n]);
      if e.Some? {
        var i :| 0 <= i < n && t[..n][i].valid && t[..n][i].due == e.value;
        assert t[i].valid;
      }
      forall i | 0 <= i < |t| && t[i].valid
        ensures Earliest(t).Some? && Earliest(t).value <= t[i].due
      {
        if i < n { assert t[..n][i].valid; }
      }
      if Earliest(t).Some? && (e.None? || Earliest(t).value != e.value) { assert t[n].valid; }
    }
  }

  /** The record's words mirror the due. */
  predicate RouteOk(r: Route) { r.armed == r.valid && (r.valid ==> r.due32 == Trunc32(r.due)) }

  /** What the routes and the stage keep between any two judged routes. */
  predicate TableOk(s: State)
  {
    && s.cfg.Valid()
    && RouteOk(s.routes.callMrm) && RouteOk(s.routes.executor) && RouteOk(s.routes.comfortable)
    && RouteOk(s.routes.floor) && RouteOk(s.routes.response)
    && (s.routes.response.valid ==> s.routes.floor.valid && s.cfg.responseMs != 0)
    && (s.routes.floor.valid <==> !s.floor.stage.Idle?)
  }

  predicate SlotOk(x: Slot, latched: bool) { (x.resumed ==> x.handover) && (x.handover ==> latched) }

  function Latches(s: State): nat { s.floor.latches + s.floor.responseLatches }

  predicate ReleaseOk(s: State)
  {
    && TableOk(s)
    && SlotOk(s.slots.handler, s.latched) && SlotOk(s.slots.operator, s.latched)
    && Latches(s) <= (if s.latched then 1 else 0)
  }

  /** The invariant at every lock release. */
  ghost predicate Inv(s: State)
  {
    ReleaseOk(s) && s.timer == Earliest(s.routes.List())
  }

  // ------------------------------------------------------------------ the invariant is kept

  /** Between routes of one pass; `n` routes are judged. */
  predicate PassOk(p: Pass, n: nat, now: int)
  {
    && TableOk(p.s)
    && Latches(p.s) <= 1
    && (!p.s.latched && Latches(p.s) == 1 ==> p.fired && n > FLOOR && (n == RESPONSE ==> !Late(p.s.routes.response, now)))
  }

  /** A pass leaves alone everything but the dues, the floor's words and the vehicle fault. */
  predicate SamePass(s: State, t: State)
  {
    t == s.(routes := t.routes, floor := t.floor, fault := t.fault)
  }

  lemma ApplyFloorKeeps(p: Pass, now: int, v: Judge.Verdict)
    requires PassOk(p, FLOOR, now) && p.s.routes.floor.valid && (v.Latch? ==> !p.s.latched)
    ensures PassOk(ApplyFloor(p, now, v), RESPONSE, now)
    ensures SamePass(p.s, ApplyFloor(p, now, v).s)
  {
  }

  lemma ApplyResponseKeeps(p: Pass, now: int, v: Judge.Verdict)
    requires PassOk(p, RESPONSE, now) && Late(p.s.routes.response, now) && (v.Latch? ==> !p.s.latched)
    ensures PassOk(ApplyResponse(p, now, v), ROUTES, now)
    ensures SamePass(p.s, ApplyResponse(p, now, v).s)
  {
  }

  lemma JudgeEarlyKeeps(p: Pass, i: nat, now: int, left: nat, nowUs: int)
    requires i < FLOOR && PassOk(p, i, now)
    ensures PassOk(JudgeRoute(p, i, now, left, nowUs), i + 1, now)
    ensures SamePass(p.s, JudgeRoute(p, i, now, left, nowUs).s)
  {
  }

  lemma JudgeRouteKeeps(p: Pass, i: nat, now: int, left: nat, nowUs: int)
    requires i < ROUTES && PassOk(p, i, now)
    ensures PassOk(JudgeRoute(p, i, now, left, nowUs), i + 1, now)
    ensures SamePass(p.s, JudgeRoute(p, i, now, left, nowUs).s)
  {
    if i < FLOOR {
      JudgeEarlyKeeps(p, i, now, left, nowUs);
    } else if Late(p.s.routes.At(i), now) {
      if i == FLOOR { ApplyFloorKeeps(p, now, FloorVerdict(p.s, now)); }
      else { ApplyResponseKeeps(p, now, ResponseVerdict(p.s, now)); }
    }
  }

  lemma {:induction false} JudgeRoutesKeeps(s: State, n: nat, now: int, left: nat, nowUs: int)
    requires n <= ROUTES && ReleaseOk(s)
    ensures PassOk(JudgeRoutes(s, n, now, left, nowUs), n, now)
    ensures SamePass(s, JudgeRoutes(s, n, now, left, nowUs).s)
  {
    if n != 0 {
      JudgeRoutesKeeps(s, n - 1, now, left, nowUs);
      JudgeRouteKeeps(JudgeRoutes(s, n - 1, now, left, nowUs), n - 1, now, left, nowUs);
    }
  }

  lemma ReactKeeps(s: State, now: int, left: nat, nowUs: int)
    requires Inv(s)
    ensures Inv(React(s, now, left, nowUs))
  {
    JudgeRoutesKeeps(s, ROUTES, now, left, nowUs);
  }

  lemma ResumeKeeps(s: State, i: nat, now: int)
    requires i < SLOTS && Inv(s)
    ensures Inv(ResumeSlot(s, i, now))
  {
  }

  lemma WatchKeeps(s: State, now: int)
    requires Inv(s)
    ensures Inv(DirectWatch(s, now))
  {
    ResumeKeeps(s, HANDLER, now);
    ResumeKeeps(ResumeSlot(s, HANDLER, now), OPERATOR, now);
  }

  lemma ServiceKeeps(s: State, now: int)
    requires Inv(s)
    ensures Inv(DirectService(s, now))
  {
    WatchKeeps(s, now);
    var w := DirectWatch(s, now);
    assert forall n: int :: Inv(DirectPublish(w).(directNext := n));
  }

  lemma ServeKeeps(s: State, now: int)
    requires Inv(s)
    ensures Inv(Serve(s, now))
  {
    ServiceKeeps(s, now);
    assert forall t: Option<int>, d: State :: Inv(d) ==> Inv(d.(thread := d.thread.(waitUntil := t)));
  }

  lemma WakeKeeps(s: State, now: int, left: nat, nowUs: int)
    requires Inv(s)
    ensures Inv(WakeStep(s, now, left, nowUs))
  {
    var w := s.(thread := s.thread.(wake := false));
    ReactKeeps(w, now, left, nowUs);
    ServeKeeps(React(w, now, left, nowUs), now);
  }

  lemma ArmKeeps(s: State, now: int, route: nat, due: int)
    requires Inv(s) && route != RESPONSE
    ensures Inv(ArmStep(s, now, route, due))
  {
    if route < ROUTES { ArmRouteKeeps(s, now, route, due); }
  }

  lemma ArmRouteKeeps(s: State, now: int, route: nat, due: int)
    requires ReleaseOk(s) && route < ROUTES && route != RESPONSE
    ensures ReleaseOk(ArmRoute(s, now, route, due))
  {
    if route == FLOOR { FloorArmKeeps(s, now, due); }
  }

  lemma FloorArmKeeps(s: State, now: int, due: int)
    requires ReleaseOk(s)
    ensures ReleaseOk(ArmRoute(s, now, FLOOR, due))
  {
  }

  lemma DoneKeeps(s: State, route: nat)
    requires Inv(s)
    ensures Inv(DoneStep(s, route))
  {
  }

  lemma StepKeeps(s: State, e: Timed)
    requires Inv(s) && Admissible(e)
    ensures Inv(Step(s, e.at, e.ev))
  {
    match e.ev
    case Arm(route, due) => ArmKeeps(s, e.at, route, due);
    case Done(route) => DoneKeeps(s, route);
    case Wake(left, nowUs) => WakeKeeps(s, e.at, left, nowUs);
    case Timeout => ServeKeeps(s, e.at);
    case Report(slot, period) => ReportKeeps(s, e.at, slot, period);
    case _ => FlagKeeps(s, e);
  }

  lemma ReportKeeps(s: State, now: int, slot: nat, period: nat)
    requires Inv(s)
    ensures Inv(ReportStep(s, now, slot, period))
  {
  }

  lemma FlagKeeps(s: State, e: Timed)
    requires Inv(s) && (e.ev.NoteSpeed? || e.ev.Hook? || e.ev.SwtFire? || e.ev.SwtStart?)
    ensures Inv(Step(s, e.at, e.ev))
  {
  }

  lemma {:induction false} InvAlways(ss: seq<State>, es: seq<Timed>, k: nat)
    requires Behaviour(ss, es) && k <= |es|
    ensures Inv(ss[k])
  {
    if k == 0 {
      EarliestIsLeast(ss[0].routes.List());
    } else {
      InvAlways(ss, es, k - 1);
      assert StepAt(ss, es, k - 1);
      StepKeeps(ss[k - 1], es[k - 1]);
    }
  }
}
