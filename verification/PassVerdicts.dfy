/** What one wake does to each route and why it latches, in the words of the state and the samples before it. */
module PassVerdicts {
  import opened Words
  import opened SupervisorSpec
  import opened RouteTable
  import opened ReactionPass
  import opened SupervisorRuns
  import opened SampleRuns
  import RW = ResponseWatch
  import Judge

  // ------------------------------------------------------------------ routes 0 to 2

  predicate Off(r: Route) { !r.valid && !r.armed }

  /** Route 1 after a pass: `left` is what the executor's cells say is left of it, in us. */
  predicate ExecutorAfter(x: Route, y: Route, now: int, left: nat, nowUs: int)
  {
    if !Late(x, now) then y == x
    else if left == 0 || left == U64_MAX then Off(y)
    else y.valid && y.armed && 1000 * (y.due - 1) < nowUs + left <= 1000 * y.due
  }

  lemma ExecutorJudged(s: State, now: int, left: nat, nowUs: int)
    ensures var p := JudgeRoutes(s, FLOOR, now, left, nowUs).s;
            && ExecutorAfter(s.routes.executor, p.routes.executor, now, left, nowUs)
            && p.routes.callMrm == (if Late(s.routes.callMrm, now) then Cleared(s.routes.callMrm) else s.routes.callMrm)
            && p.routes.comfortable == (if Late(s.routes.comfortable, now) then Cleared(s.routes.comfortable) else s.routes.comfortable)
  {
    var p1 := JudgeRoute(Pass(s, false), CALL_MRM, now, left, nowUs);
    assert JudgeRoutes(s, 1, now, left, nowUs) == p1;
    var p2 := JudgeRoute(p1, EXECUTOR, now, left, nowUs);
    assert JudgeRoutes(s, 2, now, left, nowUs) == p2;
    assert JudgeRoutes(s, 3, now, left, nowUs) == JudgeRoute(p2, COMFORTABLE, now, left, nowUs);
    RoundedUp(nowUs + left);
  }

  /** A due in ms, rounded up from us. */
  lemma RoundedUp(us: int)
    ensures var d := (us + 999) / 1000; 1000 * (d - 1) < us <= 1000 * d
  {
  }

  lemma PairLeavesFirst(p: Pass, now: int, left: nat, nowUs: int)
    requires TableOk(p.s) && (p.s.latched ==> p.s.brake.since <= now)
    ensures var q := JudgeRoute(JudgeRoute(p, FLOOR, now, left, nowUs), RESPONSE, now, left, nowUs).s;
            && q.routes.callMrm == p.s.routes.callMrm && q.routes.executor == p.s.routes.executor
            && q.routes.comfortable == p.s.routes.comfortable
  {
    FloorPair(p, now, left, nowUs);
  }

  lemma FirstJudged(s: State, now: int, left: nat, nowUs: int)
    requires Inv(s) && nowUs >= 1000 * now && (s.latched ==> s.brake.since <= now)
    ensures var q := JudgeRoutes(s, ROUTES, now, left, nowUs).s;
            && ExecutorAfter(s.routes.executor, q.routes.executor, now, left, nowUs)
            && q.routes.callMrm == (if Late(s.routes.callMrm, now) then Cleared(s.routes.callMrm) else s.routes.callMrm)
            && q.routes.comfortable == (if Late(s.routes.comfortable, now) then Cleared(s.routes.comfortable) else s.routes.comfortable)
  {
    FirstThree(s, now, left, nowUs);
    ExecutorJudged(s, now, left, nowUs);
    JudgeRoutesKeeps(s, FLOOR, now, left, nowUs);
    var p := JudgeRoutes(s, FLOOR, now, left, nowUs);
    PairLeavesFirst(p, now, left, nowUs);
    assert JudgeRoutes(s, RESPONSE, now, left, nowUs) == JudgeRoute(p, FLOOR, now, left, nowUs);
  }

  /**
   * Every wake clears routes 0 and 2 at their due, and route 1 when its expiry stands or nothing is left to watch;
   * otherwise route 1 is re-armed at the first whole millisecond at or after the rest's end. A due still ahead is
   * left alone.
   */
  lemma FirstRoutes(s: State, now: int, left: nat, nowUs: int)
    requires Inv(s) && nowUs >= 1000 * now && (s.latched ==> s.brake.since <= now)
    ensures var t, w := s.routes, WakeStep(s, now, left, nowUs).routes;
            && ExecutorAfter(t.executor, w.executor, now, left, nowUs)
            && (if Late(t.callMrm, now) then Off(w.callMrm) else w.callMrm == t.callMrm)
            && (if Late(t.comfortable, now) then Off(w.comfortable) else w.comfortable == t.comfortable)
  {
    var v := s.(thread := s.thread.(wake := false));
    FirstJudged(v, now, left, nowUs);
    ReactKeeps(v, now, left, nowUs);
    ServeLeaves(React(v, now, left, nowUs), now);
    assert React(v, now, left, nowUs).routes == JudgeRoutes(v, ROUTES, now, left, nowUs).s.routes;
  }

  /** Arming a route sets its own due, clearing one takes it; the others stay, but route 4 goes with route 3. */
  lemma ArmAndDone(s: State, now: int, route: nat, due: int)
    requires Inv(s) && route < ROUTES && route != RESPONSE
    ensures var a, d := Step(s, now, Arm(route, due)), Step(s, now, Done(route));
            && a.routes.At(route).valid && a.routes.At(route).due == due && Off(d.routes.At(route))
            && (route == FLOOR ==> Off(d.routes.response) && d.floor.stage == Judge.Idle)
            && (forall i | 0 <= i < ROUTES && i != route && !(route == FLOOR && i == RESPONSE) ::
                  a.routes.At(i) == s.routes.At(i) && d.routes.At(i) == s.routes.At(i))
  {
    assert s.routes.At(route).valid || Off(s.routes.At(route));
  }

  // ------------------------------------------------------------------ why it latches

  /** The cause of a latch is the first that the pass finds: a missed due, the hook, SWT0. */
  lemma LatchCause(s: State, now: int, left: nat, nowUs: int)
    requires Inv(s) && nowUs >= 1000 * now && !s.latched
    ensures var w := WakeStep(s, now, left, nowUs);
            w.latched ==>
              w.cause == if Missed(s, now, left) then RouteCause else if s.thread.hook then HookCause else SwtCause
  {
    var v := s.(thread := s.thread.(wake := false));
    Judged(v, now, left, nowUs);
    Reacted(v, now, left, nowUs);
    var r := React(v, now, left, nowUs);
    if r.latched { SlotsInService(r, now); }
    assert Missed(v, now, left) == Missed(s, now, left);
  }

  /** A pending cause, or the wake that will find it. */
  predicate Waking(s: State) { s.latched || (s.thread.wake && (s.thread.hook || s.thread.swt)) }

  lemma PendingStep(s: State, e: Timed)
    requires Inv(s) && ClockOk(s, e.at) && Admissible(e)
    requires Waking(s) || e.ev.Hook? || e.ev.SwtFire?
    ensures Waking(Step(s, e.at, e.ev))
  {
    match e.ev
    case Wake(left, nowUs) => MissBrakes(s, e.at, left, nowUs);
    case Timeout => ServeFrame(s, e.at);
    case _ =>
  }

  lemma {:induction false} PendingAlways(ss: seq<State>, es: seq<Timed>, i: nat, k: nat)
    requires Behaviour(ss, es) && i < k <= |es| && (es[i].ev.Hook? || es[i].ev.SwtFire?)
    ensures Waking(ss[k])
    decreases k
  {
    if i + 1 < k { PendingAlways(ss, es, i, k - 1); }
    RW.Taken(ss, es, k - 1);
    PendingStep(ss[k - 1], es[k - 1]);
  }

  /** A hook call and SWT0's first timeout brake: in a prompt run, before time moves on, the output is latched. */
  lemma CauseLatches(ss: seq<State>, es: seq<Timed>, i: nat, k: nat)
    requires Behaviour(ss, es) && PromptFrom(ss, es, 0) && i < k < |es| && (es[i].ev.Hook? || es[i].ev.SwtFire?)
    requires es[k - 1].at < es[k].at
    ensures ss[k].latched
  {
    PendingAlways(ss, es, i, k);
    assert Prompt(ss[k], es[k - 1].at, es[k].at);
  }

  // ------------------------------------------------------------------ route 3

  /** What a wake leaves of route 3: the counters and the fault it moves, by what the sample before it showed. */
  predicate FloorTurn(s: State, w: State, now: int, unseen: bool, stopped: bool)
  {
    if unseen || stopped then w.floor.latches == s.floor.latches && w.floor.waits == s.floor.waits
    else if !s.latched then w.floor.latches == s.floor.latches + 1 && w.floor.waits == s.floor.waits && w.latched
    else if Trunc32(now - s.brake.since) < s.cfg.emergencyMs + s.cfg.observeMs
    then w.floor.latches == s.floor.latches && w.floor.waits == s.floor.waits + 1
    else w.floor.latches == s.floor.latches && w.floor.waits == s.floor.waits
         && w.fault == if s.fault.NoFault? then Fault(Trunc32(now), s.sample.speed, FLOOR) else s.fault
  }

  /** And its due, when route 4 is not judged with it and the operator slot is not resumed. */
  predicate FloorDue(s: State, w: State, now: int, unseen: bool, stopped: bool)
  {
    var span := s.cfg.emergencyMs + s.cfg.observeMs;
    if unseen then w.routes.floor.valid && w.routes.floor.due == now + span && w.floor.stage == s.floor.stage
    else if stopped then Off(w.routes.floor) && !w.routes.response.valid
    else if !s.latched then w.routes.floor.valid && w.routes.floor.due == now + span && w.floor.stage == Judge.DirectStage
    else if Trunc32(now - s.brake.since) < span
    then w.routes.floor.valid && w.routes.floor.due == s.brake.since + span && w.floor.stage == Judge.DirectStage
    else Off(w.routes.floor) && Off(w.routes.response)
  }

  lemma FloorTurns(p: Pass, now: int)
    requires TableOk(p.s) && Late(p.s.routes.floor, now)
    ensures var q := JudgeFloor(p, now);
            && FloorTurn(p.s, q.s.(latched := p.s.latched || q.fired), now, Judge.Unseen(p.s.sample.at), Stopped(p.s, now))
            && FloorDue(p.s, q.s, now, Judge.Unseen(p.s.sample.at), Stopped(p.s, now))
  {
  }

  lemma ResponseLeavesFloor(p: Pass, now: int)
    requires TableOk(p.s) && Late(p.s.routes.response, now)
    ensures var q := JudgeResponse(p, now).s;
            q.floor.latches == p.s.floor.latches && q.floor.waits == p.s.floor.waits && (p.s.fault.Fault? ==> q.fault == p.s.fault)
            && (q.fault != p.s.fault ==> p.s.fault.NoFault? && p.s.latched && Braked(p.s, now) >= p.s.cfg.responseMs + p.s.cfg.observeMs)
  {
  }

  lemma PairTurns(p: Pass, now: int, left: nat, nowUs: int)
    requires PassOk(p, FLOOR, now) && Late(p.s.routes.floor, now)
    ensures var q := JudgeRoute(JudgeRoute(p, FLOOR, now, left, nowUs), RESPONSE, now, left, nowUs);
            && FloorTurn(p.s, q.s.(latched := p.s.latched || q.fired), now, Judge.Unseen(p.s.sample.at), Stopped(p.s, now))
            && (!Late(p.s.routes.response, now) ==> FloorDue(p.s, q.s, now, Judge.Unseen(p.s.sample.at), Stopped(p.s, now)))
  {
    var f := JudgeRoute(p, FLOOR, now, left, nowUs);
    JudgeRouteKeeps(p, FLOOR, now, left, nowUs);
    FloorTurns(p, now);
    RW.FloorLeavesResponse(p, now);
    if Late(f.s.routes.response, now) { ResponseLeavesFloor(f, now); }
  }

  lemma PassTurns(s: State, now: int, left: nat, nowUs: int)
    requires ReleaseOk(s) && nowUs >= 1000 * now && Late(s.routes.floor, now) && (s.latched ==> s.brake.since <= now)
    ensures var q := JudgeRoutes(s, ROUTES, now, left, nowUs);
            && FloorTurn(s, q.s.(latched := s.latched || q.fired), now, Judge.Unseen(s.sample.at), Stopped(s, now))
            && (!Late(s.routes.response, now) ==> FloorDue(s, q.s, now, Judge.Unseen(s.sample.at), Stopped(s, now)))
  {
    FirstThree(s, now, left, nowUs);
    JudgeRoutesKeeps(s, FLOOR, now, left, nowUs);
    var p := JudgeRoutes(s, FLOOR, now, left, nowUs);
    PairTurns(p, now, left, nowUs);
    assert JudgeRoutes(s, RESPONSE, now, left, nowUs) == JudgeRoute(p, FLOOR, now, left, nowUs);
  }

  /** The pass's own routes and floor, when no operator slot is resumed. */
  lemma ServedFloor(s: State, now: int)
    ensures var w := Serve(s, now);
            && w.floor.latches == s.floor.latches && w.floor.waits == s.floor.waits && w.fault == s.fault && w.latched == s.latched
            && (w.slots.operator.resumed == s.slots.operator.resumed ==> w.routes == s.routes && w.floor == s.floor)
  {
    ServeFrame(s, now);
    if s.latched { SlotsInService(s, now); }
  }

  lemma WakeTurns(s: State, now: int, left: nat, nowUs: int)
    requires Inv(s) && ClockOk(s, now) && nowUs >= 1000 * now && Late(s.routes.floor, now)
    ensures var w := WakeStep(s, now, left, nowUs);
            && FloorTurn(s, w, now, Judge.Unseen(s.sample.at), Stopped(s, now))
            && (!Late(s.routes.response, now) && w.slots.operator.resumed == s.slots.operator.resumed ==>
                  FloorDue(s, w, now, Judge.Unseen(s.sample.at), Stopped(s, now)))
  {
    var v := s.(thread := s.thread.(wake := false));
    ReactTurns(v, now, left, nowUs);
    ServedFloor(React(v, now, left, nowUs), now);
  }

  lemma ReactTurns(s: State, now: int, left: nat, nowUs: int)
    requires Inv(s) && ClockOk(s, now) && nowUs >= 1000 * now && Late(s.routes.floor, now)
    ensures var r := React(s, now, left, nowUs);
            && FloorTurn(s, r, now, Judge.Unseen(s.sample.at), Stopped(s, now)) && r.slots == s.slots
            && (!Late(s.routes.response, now) ==> FloorDue(s, r, now, Judge.Unseen(s.sample.at), Stopped(s, now)))
  {
    PassTurns(s, now, left, nowUs);
    Reacted(s, now, left, nowUs);
    Judged(s, now, left, nowUs);
    var q, r := JudgeRoutes(s, ROUTES, now, left, nowUs).s, React(s, now, left, nowUs);
    assert r.floor == q.floor && r.routes == q.routes && r.fault == q.fault;
  }

  /**
   * The verdict of route 3, on the run's own samples. A wake that finds it late: before any sample it watches another
   * span; on a sample at most 300 ms old that reads zero it is met; otherwise the vehicle is moving, and it latches,
   * waits out the braking command's span, or records the vehicle fault.
   */
  lemma FloorJudgedBy(ss: seq<State>, es: seq<Timed>, k: nat)
    requires Behaviour(ss, es) && k < |es| && es[k].ev.Wake? && Late(ss[k].routes.floor, es[k].at)
    ensures var x, now := LastTaken(es, k), es[k].at;
            var unseen := x.None? || Trunc32(x.value.at) == 0;
            var stopped := Recent(x, now) && x.value.speed == 0;
            && FloorTurn(ss[k], ss[k + 1], now, unseen, stopped)
            && (!Late(ss[k].routes.response, now) && ss[k + 1].slots.operator.resumed == ss[k].slots.operator.resumed ==>
                  FloorDue(ss[k], ss[k + 1], now, unseen, stopped))
  {
    RW.Taken(ss, es, k);
    ReadingsAre(ss, es, k, es[k].at);
    WakeTurns(ss[k], es[k].at, es[k].ev.left, es[k].ev.nowUs);
  }

  // ------------------------------------------------------------------ where a watch of route 4 starts, and when it does not

  /** Route 4 after a step that starts its watch: armed iff it is in use and the sample is fresh. */
  predicate Watches(s: State, t: State, now: int)
  {
    t.routes.response.valid <==> s.cfg.responseMs > 0 && Fresh(s, now)
  }

  /** The handler's arm of the floor: its due and route 4's watch. */
  lemma ArmWatches(s: State, now: int, due: int)
    requires Inv(s)
    ensures var t := Step(s, now, Arm(FLOOR, due));
            Watches(s, t, now) && t.routes.floor.valid && t.routes.floor.due == due && t.floor.stage == Judge.OperatorStage
  {
  }

  /** A floor or response miss that latches: another span from here, and route 4's watch. */
  lemma MissWatches(p: Pass, now: int, i: nat)
    requires TableOk(p.s) && !p.s.latched && (i == FLOOR || i == RESPONSE) && Late(p.s.routes.At(i), now)
    requires i == FLOOR ==> !Judge.Unseen(p.s.sample.at) && !Stopped(p.s, now)
    requires i == RESPONSE ==> !Answering(p.s, now)
    ensures var q := if i == FLOOR then JudgeFloor(p, now).s else JudgeResponse(p, now).s;
            && Watches(p.s, q, now)
            && q.routes.floor.valid && q.routes.floor.due == now + p.s.cfg.emergencyMs + p.s.cfg.observeMs
            && q.floor.stage == Judge.DirectStage
  {
  }

  /** A wait of route 4: armed again iff the braking command started on a fresh sample. */
  lemma WaitWatches(p: Pass, now: int)
    requires TableOk(p.s) && p.s.latched && Late(p.s.routes.response, now) && !Answering(p.s, now)
    requires Braked(p.s, now) < p.s.cfg.responseMs + p.s.cfg.observeMs
    ensures JudgeResponse(p, now).s.routes.response.valid <==> p.s.brake.refOk
  {
  }

  /** The operator slot's resume: the floor is armed a span from here if it is not, and then route 4's watch starts. */
  lemma ResumeWatches(s: State, now: int)
    requires Inv(s) && s.latched && Silent(s, s.slots.operator, now)
    ensures var w := Serve(s, now);
            if s.routes.floor.valid then w.routes == s.routes
            else Watches(s, w, now) && w.routes.floor.valid && w.routes.floor.due == now + s.cfg.emergencyMs + s.cfg.observeMs
                 && w.floor.stage == Judge.DirectStage
  {
    var h := ResumeSlot(s, HANDLER, now);
    assert h == s.(slots := h.slots) && h.slots.operator == s.slots.operator;
    assert Silent(h, h.slots.operator, now);
    assert Serve(s, now).routes == DirectWatch(s, now).routes && Serve(s, now).floor == DirectWatch(s, now).floor;
  }
}
