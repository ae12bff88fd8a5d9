/** The floor over whole runs: how often its verdict may wait, and by when it is given. */
module FloorRuns {
  import opened Words
  import opened SupervisorSpec
  import opened RouteTable
  import opened ReactionPass
  import opened SupervisorRuns
  import Judge

  // ------------------------------------------------------------------ every wait, accounted for

  /** How often the braking command has (re)started: the latch, and the operator slot's resume. */
  function Starts(s: State): nat { (if s.latched then 1 else 0) + (if s.slots.operator.resumed then 1 else 0) }

  function Count(b: bool): nat { if b then 1 else 0 }

  /** The armed due comes before the braking command has run the span: a wait is still possible. */
  predicate FloorEarly(s: State) { s.routes.floor.valid && s.routes.floor.due < s.brake.since + s.cfg.FloorSpan() }

  predicate ResponseEarly(s: State) { s.routes.response.valid && s.routes.response.due < s.brake.since + s.cfg.ResponseSpan() }

  /** The pass counts a wait of route 3. */
  predicate FloorWaits(s: State, now: int)
  {
    s.latched && Late(s.routes.floor, now) && !Judge.Unseen(s.sample.at) && FloorVerdict(s, now).Wait?
  }

  /** The pass counts a wait of route 4. */
  predicate ResponseWaits(s: State, now: int)
  {
    s.latched && Late(s.routes.response, now) && ResponseVerdict(s, now).Wait?
  }

  /** The waits that no early due pays for. */
  predicate UnpaidFloor(s: State, e: Timed) { e.ev.Wake? && FloorWaits(s, e.at) && !FloorEarly(s) }

  predicate UnpaidResponse(s: State, e: Timed) { e.ev.Wake? && ResponseWaits(s, e.at) && !ResponseEarly(s) }

  /** Under a latch the floor is armed before the braking command has run the span. */
  predicate EarlyArm(s: State, e: Timed)
  {
    s.latched && e.ev.Arm? && e.ev.route == FLOOR && e.ev.due < s.brake.since + s.cfg.FloorSpan()
  }

  /** A wait is unpaid only on a braking command whose age has wrapped 2^32 ms and reads as young. */
  lemma UnpaidIsWrapped(s: State, e: Timed)
    requires ClockOk(s, e.at) && (UnpaidFloor(s, e) || UnpaidResponse(s, e))
    ensures e.at - s.brake.since >= U32 > Braked(s, e.at)
  {
    if e.at - s.brake.since < U32 { TruncBelow(e.at - s.brake.since); }
  }

  /** What has happened up to state `k`: floor waits unpaid, response waits unpaid, early arms. */
  datatype Tally = Tally(floor: nat, response: nat, early: nat)
  {
    function Plus(s: State, e: Timed): Tally
    {
      Tally(floor + Count(UnpaidFloor(s, e)), response + Count(UnpaidResponse(s, e)), early + Count(EarlyArm(s, e)))
    }
  }

  function TallyOf(ss: seq<State>, es: seq<Timed>, k: nat): Tally
    requires |ss| == |es| + 1 && k <= |es|
  {
    if k == 0 then Tally(0, 0, 0) else TallyOf(ss, es, k - 1).Plus(ss[k - 1], es[k - 1])
  }

  /** Every unpaid wait is counted; every other wait was paid by a start of the braking command or an early arm. */
  predicate Balanced(s: State, t: Tally)
  {
    && t.floor <= s.floor.waits && t.response <= s.floor.responseWaits
    && s.floor.waits + Count(s.latched && FloorEarly(s)) <= Starts(s) + t.floor + t.early
    && s.floor.responseWaits + Count(s.latched && ResponseEarly(s)) <= Starts(s) + t.response
    && (!s.latched ==> s.floor.waits == s.floor.responseWaits == 0)
  }

  /** A judged pass counts its waits; each spends an early due or is unpaid. */
  predicate Spends(s: State, t: State, floor: nat, response: nat)
  {
    && s.floor.waits + floor <= t.floor.waits && s.floor.responseWaits + response <= t.floor.responseWaits
    && if s.latched
       then && t.floor.waits + Count(FloorEarly(t)) <= s.floor.waits + Count(FloorEarly(s)) + floor
            && t.floor.responseWaits + Count(ResponseEarly(t)) <= s.floor.responseWaits + Count(ResponseEarly(s)) + response
       else t.floor.waits == s.floor.waits && t.floor.responseWaits == s.floor.responseWaits
  }

  lemma FloorSpends(p: Pass, now: int)
    requires p.s.cfg.Valid() && Late(p.s.routes.floor, now) && ClockOk(p.s, now)
    ensures Spends(p.s, JudgeFloor(p, now).s, Count(FloorWaits(p.s, now) && !FloorEarly(p.s)), 0)
    ensures SamePass(p.s, JudgeFloor(p, now).s)
    ensures ResponseWaits(p.s, now) <==> ResponseWaits(JudgeFloor(p, now).s, now)
    ensures ResponseWaits(p.s, now) ==> (ResponseEarly(p.s) <==> ResponseEarly(JudgeFloor(p, now).s))
  {
  }

  lemma ResponseSpends(p: Pass, now: int)
    requires p.s.cfg.Valid() && Late(p.s.routes.response, now) && ClockOk(p.s, now)
    ensures Spends(p.s, JudgeResponse(p, now).s, 0, Count(ResponseWaits(p.s, now) && !ResponseEarly(p.s)))
    ensures SamePass(p.s, JudgeResponse(p, now).s)
  {
  }

  lemma PairSpends(p: Pass, now: int, left: nat, nowUs: int)
    requires p.s.cfg.Valid() && ClockOk(p.s, now)
    ensures Spends(p.s, JudgeRoute(JudgeRoute(p, FLOOR, now, left, nowUs), RESPONSE, now, left, nowUs).s,
                   Count(FloorWaits(p.s, now) && !FloorEarly(p.s)), Count(ResponseWaits(p.s, now) && !ResponseEarly(p.s)))
  {
    var f := JudgeRoute(p, FLOOR, now, left, nowUs);
    if Late(p.s.routes.floor, now) { FloorSpends(p, now); }
    if Late(f.s.routes.response, now) { ResponseSpends(f, now); }
  }

  lemma JudgedSpends(s: State, now: int, left: nat, nowUs: int)
    requires Inv(s) && ClockOk(s, now) && nowUs >= 1000 * now
    ensures Spends(s, JudgeRoutes(s, ROUTES, now, left, nowUs).s,
                   Count(FloorWaits(s, now) && !FloorEarly(s)), Count(ResponseWaits(s, now) && !ResponseEarly(s)))
    ensures SamePass(s, JudgeRoutes(s, ROUTES, now, left, nowUs).s)
  {
    FirstThree(s, now, left, nowUs);
    Judged(s, now, left, nowUs);
    var p := JudgeRoutes(s, FLOOR, now, left, nowUs);
    PairSpends(p, now, left, nowUs);
    assert JudgeRoutes(s, RESPONSE, now, left, nowUs) == JudgeRoute(p, FLOOR, now, left, nowUs);
  }

  lemma ReactBalanced(s: State, e: Timed, t: Tally)
    requires Inv(s) && Balanced(s, t) && ClockOk(s, e.at) && e.ev.Wake? && e.ev.nowUs >= 1000 * e.at
    ensures Balanced(React(s, e.at, e.ev.left, e.ev.nowUs), t.Plus(s, e))
  {
    JudgedSpends(s, e.at, e.ev.left, e.ev.nowUs);
    Reacted(s, e.at, e.ev.left, e.ev.nowUs);
    SpentBalance(s, JudgeRoutes(s, ROUTES, e.at, e.ev.left, e.ev.nowUs).s, React(s, e.at, e.ev.left, e.ev.nowUs), e, t);
  }

  /** After the pass `q` the latch, if it comes, is one more start. */
  lemma SpentBalance(s: State, q: State, r: State, e: Timed, t: Tally)
    requires Balanced(s, t) && e.ev.Wake? && SamePass(s, q)
    requires Spends(s, q, Count(FloorWaits(s, e.at) && !FloorEarly(s)), Count(ResponseWaits(s, e.at) && !ResponseEarly(s)))
    requires r.floor == q.floor && r.routes == q.routes && r.slots == s.slots && r.cfg == s.cfg
    requires (s.latched ==> r.latched && r.brake == s.brake)
    ensures Balanced(r, t.Plus(s, e))
  {
  }

  lemma ServeBalanced(s: State, now: int, t: Tally)
    requires Balanced(s, t) && ClockOk(s, now)
    ensures Balanced(Serve(s, now), t)
  {
    ServeFrame(s, now);
    if s.latched {
      SlotsInService(s, now);
      var h := ResumeSlot(s, HANDLER, now);
      assert h == s.(slots := h.slots);
      assert Serve(s, now).floor.waits == s.floor.waits && Serve(s, now).floor.responseWaits == s.floor.responseWaits;
    }
  }

  lemma WakeBalanced(s: State, e: Timed, t: Tally)
    requires Inv(s) && Balanced(s, t) && ClockOk(s, e.at) && e.ev.Wake? && e.ev.nowUs >= 1000 * e.at
    ensures Balanced(WakeStep(s, e.at, e.ev.left, e.ev.nowUs), t.Plus(s, e))
  {
    var v := s.(thread := s.thread.(wake := false));
    assert Balanced(v, t) && t.Plus(v, e) == t.Plus(s, e);
    ReactBalanced(v, e, t);
    Reacted(v, e.at, e.ev.left, e.ev.nowUs);
    ServeBalanced(React(v, e.at, e.ev.left, e.ev.nowUs), e.at, t.Plus(s, e));
  }

  lemma QuietBalanced(s: State, e: Timed, t: Tally)
    requires Balanced(s, t) && ClockOk(s, e.at) && Admissible(e) && !e.ev.Wake? && !e.ev.Timeout?
    ensures Balanced(Step(s, e.at, e.ev), t.Plus(s, e))
  {
    QuietForward(s, e);
    var z := Step(s, e.at, e.ev);
    assert z.floor.waits == s.floor.waits && z.floor.responseWaits == s.floor.responseWaits;
    assert FloorEarly(z) && s.latched ==> FloorEarly(s) || EarlyArm(s, e);
    assert ResponseEarly(z) && s.latched ==> ResponseEarly(s);
  }

  lemma StepBalanced(s: State, e: Timed, t: Tally)
    requires Inv(s) && Balanced(s, t) && ClockOk(s, e.at) && Admissible(e)
    ensures Balanced(Step(s, e.at, e.ev), t.Plus(s, e))
  {
    match e.ev
    case Wake(_, _) => WakeBalanced(s, e, t);
    case Timeout => ServeBalanced(s, e.at, t);
    case _ => QuietBalanced(s, e, t);
  }

  /**
   * The waits of every run, accounted for: at least the unpaid ones, and at most those, one for each start of
   * the braking command, and for route 3 one for each early arm.
   */
  lemma {:induction false} WaitsAccounted(ss: seq<State>, es: seq<Timed>, k: nat)
    requires Behaviour(ss, es) && k <= |es|
    ensures Balanced(ss[k], TallyOf(ss, es, k))
    ensures var t := TallyOf(ss, es, k);
            && t.floor <= ss[k].floor.waits <= Starts(ss[k]) + t.floor + t.early
            && t.response <= ss[k].floor.responseWaits <= Starts(ss[k]) + t.response
  {
    if k > 0 {
      WaitsAccounted(ss, es, k - 1);
      ClockAlways(ss, es, k - 1);
      assert StepAt(ss, es, k - 1);
      StepBalanced(ss[k - 1], es[k - 1], TallyOf(ss, es, k - 1));
    }
  }

  lemma {:induction false} NoneEarly(ss: seq<State>, es: seq<Timed>, k: nat)
    requires |ss| == |es| + 1 && k <= |es| && forall i | 0 <= i < k :: !EarlyArm(ss[i], es[i])
    ensures TallyOf(ss, es, k).early == 0
  {
    if k > 0 { NoneEarly(ss, es, k - 1); }
  }

  predicate Paid(s: State, e: Timed) { !UnpaidFloor(s, e) && !UnpaidResponse(s, e) }

  lemma {:induction false} AllPaid(ss: seq<State>, es: seq<Timed>, k: nat)
    requires |ss| == |es| + 1 && k <= |es| && forall i | 0 <= i < k :: Paid(ss[i], es[i])
    ensures TallyOf(ss, es, k).floor == TallyOf(ss, es, k).response == 0
  {
    if k > 0 { AllPaid(ss, es, k - 1); }
  }

  /** No early arm under a latch, and no unpaid wait. */
  predicate Prudent(s: State, e: Timed) { !EarlyArm(s, e) && Paid(s, e) }

  /** Where neither happens: at most one floor wait and one response wait per start of the braking command, two of each. */
  lemma BoundedWaits(ss: seq<State>, es: seq<Timed>, k: nat)
    requires Behaviour(ss, es) && k <= |es|
    requires forall i | 0 <= i < k :: Prudent(ss[i], es[i])
    ensures ss[k].floor.waits <= Starts(ss[k]) <= 2 && ss[k].floor.responseWaits <= Starts(ss[k])
  {
    AllPaid(ss, es, k);
    NoneEarly(ss, es, k);
    WaitsAccounted(ss, es, k);
  }

  /** While the braking command is younger than 2^32 ms at every pass, only early arms add to the starts. */
  lemma YoungWaits(ss: seq<State>, es: seq<Timed>, k: nat)
    requires Behaviour(ss, es) && k <= |es|
    requires forall i | 0 <= i < k && es[i].ev.Wake? && ss[i].latched :: es[i].at - ss[i].brake.since < U32
    ensures ss[k].floor.waits <= Starts(ss[k]) + TallyOf(ss, es, k).early && ss[k].floor.responseWaits <= Starts(ss[k]) <= 2
  {
    WaitsAccounted(ss, es, k);
    forall i | 0 <= i < k ensures Paid(ss[i], es[i]) {
      ClockAlways(ss, es, i);
      if !Paid(ss[i], es[i]) { UnpaidIsWrapped(ss[i], es[i]); }
    }
    AllPaid(ss, es, k);
  }

  // ------------------------------------------------------------------ the verdict comes

  function Max(a: int, b: int): int { if a < b then b else a }

  /** When, at the latest, a vehicle that keeps moving is found out: never later along a prompt run. */
  function VerdictBy(s: State): int
  {
    var d, span := s.routes.floor.due, s.cfg.FloorSpan();
    if !s.latched then d + 2 * span
    else if !s.slots.operator.resumed then Max(d, s.brake.since + span) + span
    else Max(d, s.brake.since + span)
  }

  /** The fault is recorded, or the floor is armed, not yet late, and its verdict due by `bound`. */
  predicate Pursued(s: State, prev: int, bound: int)
  {
    || s.fault.Fault?
    || (s.routes.floor.valid && prev <= s.routes.floor.due && VerdictBy(s) <= bound
        && bound < (if s.latched then s.brake.since else prev) + U32)
  }

  /** The handler leaves the floor alone, a vehicle has reported, and a pass finds it not at standstill. */
  predicate StillMoving(s: State, e: Timed)
  {
    match e.ev
    case Arm(route, _) => route != FLOOR
    case Done(route) => route != FLOOR
    case Wake(_, _) => !Judge.Unseen(s.sample.at) && !Stopped(s, e.at)
    case _ => true
  }

  /** Where a pass leaves the floor when the vehicle is seen moving. */
  predicate Pursues(s: State, q: State, now: int)
  {
    || q.fault.Fault?
    || (q.routes.floor.valid &&
        (|| (q.routes.floor.due == s.routes.floor.due && !Late(s.routes.floor, now))
         || (s.latched && Late(s.routes.floor, now) && now < s.brake.since + s.cfg.FloorSpan()
             && q.routes.floor.due == s.brake.since + s.cfg.FloorSpan())
         || (!s.latched && q.routes.floor.due == now + s.cfg.FloorSpan() && (FloorMiss(s, now) || ResponseMiss(s, now)))))
  }

  lemma FloorPursues(p: Pass, now: int)
    requires p.s.cfg.Valid() && ClockOk(p.s, now) && Late(p.s.routes.floor, now)
    requires p.s.latched ==> now - p.s.brake.since < U32
    requires !Judge.Unseen(p.s.sample.at) && !Stopped(p.s, now)
    ensures Pursues(p.s, JudgeFloor(p, now).s, now) && SamePass(p.s, JudgeFloor(p, now).s)
    ensures !p.s.latched ==> !Late(JudgeFloor(p, now).s.routes.response, now) || p.s.cfg.responseMs == 0
  {
    if p.s.latched { TruncBelow(now - p.s.brake.since); }
  }

  lemma ResponsePursues(p: Pass, now: int)
    requires p.s.cfg.Valid() && p.s.routes.floor.valid && Late(p.s.routes.response, now)
    ensures var q := JudgeResponse(p, now).s;
            && SamePass(p.s, q)
            && (|| q.fault.Fault?
                || (q.routes.floor == p.s.routes.floor && q.fault == p.s.fault)
                || (ResponseMiss(p.s, now) && q.routes.floor == Armed(now + q.cfg.FloorSpan())))
  {
  }

  lemma PairPursues(p: Pass, now: int, left: nat, nowUs: int)
    requires TableOk(p.s) && ClockOk(p.s, now) && p.s.routes.floor.valid
    requires p.s.latched ==> now - p.s.brake.since < U32
    requires !Judge.Unseen(p.s.sample.at) && !Stopped(p.s, now)
    ensures Pursues(p.s, JudgeRoute(JudgeRoute(p, FLOOR, now, left, nowUs), RESPONSE, now, left, nowUs).s, now)
  {
    var f := JudgeRoute(p, FLOOR, now, left, nowUs);
    if Late(p.s.routes.floor, now) { FloorPursues(p, now); }
    if Late(f.s.routes.response, now) {
      if f.s.fault.NoFault? { ResponsePursues(f, now); }
      else { FaultInResponse(f, now); }
    }
  }

  lemma ReactPursues(s: State, now: int, left: nat, nowUs: int, bound: int)
    requires Inv(s) && ClockOk(s, now) && nowUs >= 1000 * now
    requires !Judge.Unseen(s.sample.at) && !Stopped(s, now)
    requires now <= s.routes.floor.due && Pursued(s, now, bound)
    ensures Pursued(React(s, now, left, nowUs), now, bound)
  {
    FaultInReact(s, now, left, nowUs);
    if s.fault.NoFault? {
      FirstThree(s, now, left, nowUs);
      JudgeRoutesKeeps(s, FLOOR, now, left, nowUs);
      var p := JudgeRoutes(s, FLOOR, now, left, nowUs);
      PairPursues(p, now, left, nowUs);
      assert JudgeRoutes(s, RESPONSE, now, left, nowUs) == JudgeRoute(p, FLOOR, now, left, nowUs);
      Judged(s, now, left, nowUs);
      Reacted(s, now, left, nowUs);
      var q := JudgeRoutes(s, ROUTES, now, left, nowUs).s;
      assert Pursues(p.s, q, now);
    }
  }

  lemma ServePursues(s: State, now: int, bound: int)
    requires ClockOk(s, now) && Pursued(s, now, bound)
    ensures Pursued(Serve(s, now), now, bound)
  {
    ServeFrame(s, now);
    if s.latched && s.fault.NoFault? {
      SlotsInService(s, now);
      var h := ResumeSlot(s, HANDLER, now);
      assert h == s.(slots := h.slots);
      assert Serve(s, now).routes == s.routes;
    }
  }

  lemma QuietPursues(s: State, e: Timed, bound: int)
    requires Pursued(s, e.at, bound) && StillMoving(s, e) && !e.ev.Wake? && !e.ev.Timeout?
    ensures Pursued(Step(s, e.at, e.ev), e.at, bound)
  {
    QuietForward(s, e);
    assert Step(s, e.at, e.ev).routes.floor == s.routes.floor;
  }

  lemma StepPursues(s: State, prev: int, e: Timed, bound: int)
    requires Inv(s) && ClockOk(s, e.at) && Admissible(e) && prev <= e.at && Prompt(s, prev, e.at)
    requires Pursued(s, prev, bound) && StillMoving(s, e)
    ensures Pursued(Step(s, e.at, e.ev), e.at, bound)
  {
    if s.fault.Fault? {
      StepForward(s, e);
    } else {
      EarliestIsLeast(s.routes.List());
      assert s.routes.List()[FLOOR] == s.routes.floor;
      assert e.at <= s.routes.floor.due && Pursued(s, e.at, bound);
      match e.ev
      case Wake(left, nowUs) =>
        var v := s.(thread := s.thread.(wake := false));
        ReactPursues(v, e.at, left, nowUs, bound);
        Reacted(v, e.at, left, nowUs);
        ServePursues(React(v, e.at, left, nowUs), e.at, bound);
      case Timeout => ServePursues(s, e.at, bound);
      case _ => QuietPursues(s, e, bound);
    }
  }

  lemma {:induction false} PursuedAlways(ss: seq<State>, es: seq<Timed>, m: nat, n: nat, bound: int)
    requires Behaviour(ss, es) && 0 < m <= n <= |es| && PromptFrom(ss, es, m)
    requires Pursued(ss[m], es[m - 1].at, bound)
    requires forall k | m <= k < n :: StillMoving(ss[k], es[k])
    ensures Pursued(ss[n], es[n - 1].at, bound)
    decreases n - m
  {
    if m < n {
      PursuedAlways(ss, es, m, n - 1, bound);
      ClockAlways(ss, es, n - 1);
      assert StepAt(ss, es, n - 1);
      StepPursues(ss[n - 1], es[n - 2].at, es[n - 1], bound);
    }
  }

  /**
   * The verdict comes. From a state with route 3 armed and not yet late, along every prompt run in which
   * the handler neither clears nor re-arms it and the vehicle, once seen, is never found at standstill,
   * no step later than the due plus two floor spans finds the vehicle fault unrecorded: three spans after
   * an emergency call. Only the braking command's age must stay below 2^32 ms.
   */
  lemma BoundedVerdict(ss: seq<State>, es: seq<Timed>, m: nat, n: nat)
    requires Behaviour(ss, es) && 0 < m <= n <= |es| && PromptFrom(ss, es, m)
    requires ss[m].routes.floor.valid && es[m - 1].at <= ss[m].routes.floor.due
    requires VerdictBy(ss[m]) < (if ss[m].latched then ss[m].brake.since else es[m - 1].at) + U32
    requires forall k | m <= k < n :: StillMoving(ss[k], es[k])
    requires es[n - 1].at > ss[m].routes.floor.due + 2 * ss[m].cfg.FloorSpan()
    ensures ss[n].fault.Fault?
  {
    ClockAlways(ss, es, m);
    PursuedAlways(ss, es, m, n, VerdictBy(ss[m]));
    assert VerdictBy(ss[m]) <= ss[m].routes.floor.due + 2 * ss[m].cfg.FloorSpan();
  }
}
