/** The loss of the HPC across handler and supervisor: route 0 never fires on a punctual handler, and always on a silent one. */
module IslandRuns {
  import opened Island
  import S = SupervisorSpec
  import H = HandlerSpec
  import RouteTable
  import ReactionPass
  import SupervisorRuns
  import HandlerRuns
  import StartUp

  // ------------------------------------------------------------------ route 0 in one supervisor step

  lemma JudgedCallMrm(s: S.State, now: int, left: nat, nowUs: int)
    requires RouteTable.ReleaseOk(s) && nowUs >= 1000 * now && (s.latched ==> s.brake.since <= now)
    ensures var r := S.JudgeRoutes(s, S.ROUTES, now, left, nowUs).s.routes.callMrm;
            r == if S.Late(s.routes.callMrm, now) then S.Cleared(s.routes.callMrm) else s.routes.callMrm
  {
    var p1 := S.JudgeRoute(S.Pass(s, false), S.CALL_MRM, now, left, nowUs);
    assert S.JudgeRoutes(s, 1, now, left, nowUs) == p1;
    assert S.JudgeRoutes(s, 2, now, left, nowUs) == S.JudgeRoute(p1, S.EXECUTOR, now, left, nowUs);
    var p := S.JudgeRoutes(s, S.FLOOR, now, left, nowUs);
    ReactionPass.FirstThree(s, now, left, nowUs);
    RouteTable.JudgeRoutesKeeps(s, S.FLOOR, now, left, nowUs);
    ReactionPass.FloorPair(p, now, left, nowUs);
    assert S.JudgeRoutes(s, S.RESPONSE, now, left, nowUs) == S.JudgeRoute(p, S.FLOOR, now, left, nowUs);
  }

  lemma WakeCallMrm(s: S.State, now: int, left: nat, nowUs: int)
    requires RouteTable.Inv(s) && nowUs >= 1000 * now && (s.latched ==> s.brake.since <= now)
    ensures var r := S.WakeStep(s, now, left, nowUs).routes.callMrm;
            r == if S.Late(s.routes.callMrm, now) then S.Cleared(s.routes.callMrm) else s.routes.callMrm
  {
    var v := s.(thread := s.thread.(wake := false));
    JudgedCallMrm(v, now, left, nowUs);
    RouteTable.ReactKeeps(v, now, left, nowUs);
    ReactionPass.ServeLeaves(S.React(v, now, left, nowUs), now);
  }

  predicate Touches(ev: S.Event, route: nat) { (ev.Arm? || ev.Done?) && ev.route == route }

  /** Only the handler's own arm and done, and a pass past the due, touch route 0. */
  lemma CallMrmStep(s: S.State, now: int, ev: S.Event)
    requires RouteTable.Inv(s) && (s.latched ==> s.brake.since <= now)
    requires ev.Wake? ==> ev.nowUs >= 1000 * now
    requires !Touches(ev, S.CALL_MRM)
    ensures S.Step(s, now, ev).routes.callMrm ==
            if ev.Wake? && S.Late(s.routes.callMrm, now) then S.Cleared(s.routes.callMrm) else s.routes.callMrm
  {
    match ev
    case Wake(left, nowUs) => WakeCallMrm(s, now, left, nowUs);
    case Timeout => ReactionPass.ServeLeaves(s, now);
    case _ =>
  }

  // ------------------------------------------------------------------ route 0 and the ticks

  /** What an armed route 0 says of the handler: the last take, and every completed tick too early to see its loss. */
  ghost predicate Watch(y: System)
  {
    && (y.h.life.phase.Init? || y.h.life.monitorsAt != 0 ==> !y.h.life.failed)
    && (y.h.life.monitorsAt != 0 ==> y.h.life.phase.Run?)
    && (y.s.routes.callMrm.valid ==>
          && y.h.life.monitorsAt != 0
          && y.s.routes.callMrm.due == y.h.stamp + y.h.p.maxAge + y.h.p.callMrmMs
          && y.done <= y.h.stamp + y.h.p.maxAge
          && (y.busy && y.start > y.h.stamp + y.h.p.maxAge ==> H.Finish(S.CALL_MRM) in y.todo))
  }

  lemma SupWatch(y: System, e: Timed)
    requires Watch(y) && Enabled(y, e) && e.ev.Sup?
    requires RouteTable.Inv(y.s) && (y.s.latched ==> y.s.brake.since <= e.at)
    ensures Watch(Next(y, e.at, e.ev))
  {
    CallMrmStep(y.s, e.at, e.ev.ev);
  }

  lemma TakeWatch(y: System, now: int, a: H.Availability)
    requires Watch(y) && !y.busy && y.done <= now
    ensures Watch(Next(y, now, Callback(H.Take(a))))
    ensures y.h.life.monitorsAt != 0 ==>
              Next(y, now, Callback(H.Take(a))).s.routes.callMrm == S.Armed(now + y.h.p.maxAge + y.h.p.callMrmMs)
  {
    var n := Next(y, now, Callback(H.Take(a)));
    assert n.h == H.OnAvailability(y.h, now, a) && n.h.stamp == now && n.h.p == y.h.p && n.h.life == y.h.life;
  }

  lemma CallbackWatch(y: System, e: Timed)
    requires Watch(y) && e.ev.Callback? && !e.ev.cb.Take? && !e.ev.cb.OnTimer?
    ensures Watch(Next(y, e.at, e.ev))
  {
    var n := Next(y, e.at, e.ev);
    HandlerRuns.CallbacksLeave(y.h, e.at, e.ev.cb);
    StartUp.StreamCallback(y.h, e.at, e.ev.cb);
    assert n.s.routes == y.s.routes;
  }

  lemma TickWatch(y: System, e: Timed)
    requires Watch(y) && Enabled(y, e) && e.ev.TickStart? && HandlerRuns.Coherent(y.h.mrm)
    ensures Watch(Next(y, e.at, e.ev))
  {
    var r := Reading(y, e.ev.sends);
    HandlerRuns.TickFrame(y.h, e.at, r);
    TickCalls(y.h, e.at, r);
    var n := Next(y, e.at, e.ev);
    assert n.s == y.s && n.h == H.Tick(y.h, e.at, r).h && n.todo == H.Tick(y.h, e.at, r).calls;
    if y.h.life.monitorsAt != 0 { StartUp.SoundTick(y.h, e.at); }
  }

  lemma CallWatch(y: System, e: Timed)
    requires Watch(y) && Enabled(y, e) && e.ev.NextCall? && (forall c <- y.todo :: OwnCall(c))
    requires RouteTable.Inv(y.s) && (y.s.latched ==> y.s.brake.since <= e.at)
    ensures Watch(Next(y, e.at, e.ev))
  {
    var n := Next(y, e.at, e.ev);
    assert n.h == y.h;
    assert OwnCall(y.todo[0]);
    if y.todo[0] == H.Finish(S.CALL_MRM) {
      assert !n.s.routes.callMrm.valid;
    } else {
      CallMrmStep(y.s, e.at, SupEvent(y, e.at, e.ev));
      assert y.todo == [y.todo[0]] + n.todo;
    }
  }

  /** Clocks: everything noted so far is in the past. */
  predicate Past(y: System, now: int) { y.start <= now && y.done <= now && y.h.stamp <= now }

  lemma StepWatch(y: System, e: Timed)
    requires Watch(y) && Past(y, e.at) && Enabled(y, e) && HandlerRuns.Coherent(y.h.mrm) && (forall c <- y.todo :: OwnCall(c))
    requires RouteTable.Inv(y.s) && (y.s.latched ==> y.s.brake.since <= e.at)
    ensures Watch(Next(y, e.at, e.ev))
  {
    match e.ev
    case Sup(_) => SupWatch(y, e);
    case Callback(cb) => if cb.Take? { TakeWatch(y, e.at, cb.a); } else { CallbackWatch(y, e); }
    case TickStart(_) => TickWatch(y, e);
    case NextCall => CallWatch(y, e);
    case TickEnd =>
  }

  lemma StepPast(y: System, e: Timed)
    requires Past(y, e.at) && Enabled(y, e) && HandlerRuns.Coherent(y.h.mrm)
    ensures Past(Next(y, e.at, e.ev), e.at)
  {
    match e.ev
    case Callback(cb) => StartUp.StreamCallback(y.h, e.at, cb);
    case TickStart(sends) => StartUp.StreamTick(y.h, e.at, Reading(y, sends));
    case _ =>
  }

  /** What the parts' own theorems say of the `k`-th state. */
  lemma PartsAt(ys: seq<System>, es: seq<Timed>, k: nat)
    requires Run(ys, es) && k <= |es|
    ensures RouteTable.Inv(ys[k].s) && HandlerRuns.Coherent(ys[k].h.mrm) && (forall c <- ys[k].todo :: OwnCall(c))
    ensures k < |es| && ys[k].s.latched ==> ys[k].s.brake.since <= es[k].at
  {
    SupervisorPart(ys, es);
    HandlerPart(ys, es);
    CallsAlways(ys, es, k);
    HandlerRuns.CoherentAlways(HandlerStates(ys), HandlerEvents(ys, es), k);
    SupervisorRuns.ClockAlways(SupStates(ys), SupEvents(ys, es), k);
    assert SupStates(ys)[k] == ys[k].s && HandlerStates(ys)[k] == ys[k].h;
  }

  lemma {:induction false} WatchAlways(ys: seq<System>, es: seq<Timed>, k: nat)
    requires Run(ys, es) && k <= |es|
    ensures Watch(ys[k])
    ensures k > 0 ==> Past(ys[k], es[k - 1].at)
    ensures k < |es| ==> Past(ys[k], es[k].at)
  {
    if k > 0 {
      WatchAlways(ys, es, k - 1);
      WatchAt(ys, es, k - 1);
    }
    if k < |es| { PastAt(ys, es, k); }
  }

  lemma WatchAt(ys: seq<System>, es: seq<Timed>, k: nat)
    requires Run(ys, es) && k < |es| && Watch(ys[k]) && Past(ys[k], es[k].at)
    ensures Watch(ys[k + 1]) && Past(ys[k + 1], es[k].at)
  {
    PartsAt(ys, es, k);
    assert StepAt(ys, es, k);
    StepWatch(ys[k], es[k]);
    StepPast(ys[k], es[k]);
  }

  lemma PastAt(ys: seq<System>, es: seq<Timed>, k: nat)
    requires Run(ys, es) && k < |es| && (k > 0 ==> Past(ys[k], es[k - 1].at))
    ensures Past(ys[k], es[k].at)
  {
    assert StepAt(ys, es, k);
  }

  /**
   * A pass finds route 0 late only when the handler itself is late: no tick has completed since one that
   * started less than CALL_MRM before the pass. Whatever the takes do.
   */
  lemma PunctualHandlerNeverFires(ys: seq<System>, es: seq<Timed>, k: nat)
    requires Run(ys, es) && k < |es| && es[k].at < ys[k].done + ys[k].h.p.callMrmMs
    ensures !S.Late(ys[k].s.routes.callMrm, es[k].at)
  {
    WatchAlways(ys, es, k);
  }

  /** When the last tick among the first `k` events started. */
  ghost function LastStart(es: seq<Timed>, k: nat): int
    requires k <= |es|
  {
    if k == 0 then 0 else if es[k - 1].ev.TickStart? then es[k - 1].at else LastStart(es, k - 1)
  }

  /** Some tick has ended; and when the last one that did had started. */
  ghost predicate Ended(es: seq<Timed>, k: nat)
    requires k <= |es|
  {
    k > 0 && (es[k - 1].ev.TickEnd? || Ended(es, k - 1))
  }

  ghost function LastEnded(es: seq<Timed>, k: nat): int
    requires k <= |es|
  {
    if k == 0 then 0 else if es[k - 1].ev.TickEnd? then LastStart(es, k - 1) else LastEnded(es, k - 1)
  }

  lemma {:induction false} DoneIs(ys: seq<System>, es: seq<Timed>, k: nat)
    requires Run(ys, es) && k <= |es|
    ensures ys[k].busy ==> ys[k].start == LastStart(es, k)
    ensures Ended(es, k) ==> ys[k].done == LastEnded(es, k)
  {
    if k > 0 {
      DoneIs(ys, es, k - 1);
      assert StepAt(ys, es, k - 1);
    }
  }

  /** The same of the events: no pass finds route 0 late while the last tick to end started less than CALL_MRM before it. */
  lemma EndedTickNeverFires(ys: seq<System>, es: seq<Timed>, k: nat)
    requires Run(ys, es) && k < |es| && Ended(es, k) && es[k].at < LastEnded(es, k) + ys[k].h.p.callMrmMs
    ensures !S.Late(ys[k].s.routes.callMrm, es[k].at)
  {
    DoneIs(ys, es, k);
    PunctualHandlerNeverFires(ys, es, k);
  }

  lemma DoneStep(y: System, now: int, ev: Event)
    requires HandlerRuns.Coherent(y.h.mrm) && (ev.Callback? ==> !ev.cb.OnTimer?)
    ensures var n := Next(y, now, ev); n.h.p == y.h.p && (!ev.TickEnd? ==> n.done == y.done)
  {
    match ev
    case Callback(cb) => HandlerRuns.CallbacksLeave(y.h, now, cb);
    case TickStart(sends) => HandlerRuns.TickFrame(y.h, now, Reading(y, sends));
    case _ =>
  }

  lemma DoneStepAt(ys: seq<System>, es: seq<Timed>, k: nat)
    requires Run(ys, es) && k < |es|
    ensures ys[k + 1].h.p == ys[k].h.p && (!es[k].ev.TickEnd? ==> ys[k + 1].done == ys[k].done)
  {
    PartsAt(ys, es, k);
    assert StepAt(ys, es, k);
    DoneStep(ys[k], es[k].at, es[k].ev);
  }

  ghost predicate NoTickEnds(es: seq<Timed>, i: nat, j: nat)
    requires i <= j <= |es|
  {
    forall k | i <= k < j :: !es[k].ev.TickEnd?
  }

  lemma {:induction false} DoneStays(ys: seq<System>, es: seq<Timed>, i: nat, j: nat)
    requires Run(ys, es) && i <= j <= |es| && NoTickEnds(es, i, j)
    ensures ys[j].done == ys[i].done && ys[j].h.p == ys[i].h.p
    decreases j - i
  {
    if i < j {
      DoneStepAt(ys, es, i);
      DoneStays(ys, es, i + 1, j);
    }
  }

  lemma {:induction false} TimesRise(ys: seq<System>, es: seq<Timed>, i: nat, j: nat)
    requires Run(ys, es) && i <= j < |es|
    ensures es[i].at <= es[j].at
    decreases j
  {
    if i < j {
      TimesRise(ys, es, i, j - 1);
      assert StepAt(ys, es, j);
    }
  }

  /** The same on the ticks alone: if the next tick completes less than CALL_MRM after the last one's start, no pass before it fires. */
  lemma CadenceNeverFires(ys: seq<System>, es: seq<Timed>, k: nat, m: nat)
    requires Run(ys, es) && k < m < |es| && es[m].ev.TickEnd? && NoTickEnds(es, k, m)
    requires es[m].at < ys[m].done + ys[m].h.p.callMrmMs
    ensures !S.Late(ys[k].s.routes.callMrm, es[k].at)
  {
    DoneStays(ys, es, k, m);
    TimesRise(ys, es, k, m);
    PunctualHandlerNeverFires(ys, es, k);
  }

  // ------------------------------------------------------------------ the silent handler

  /** Nothing after the take at `i` answers it: no later take, and no tick that would see its loss. */
  ghost predicate Unanswered(ys: seq<System>, es: seq<Timed>, i: nat, k: nat)
    requires |ys| == |es| + 1 && i < k <= |es|
  {
    forall j | i < j < k ::
      && !(es[j].ev.Callback? && es[j].ev.cb.Take?)
      && (es[j].ev.TickStart? ==> es[j].at <= es[i].at + ys[i].h.p.maxAge)
  }

  /** The take's due is standing, or it was missed and the output is latched. */
  ghost predicate Standing(y: System, t: int, p: H.Params)
  {
    && y.h.stamp == t && y.h.p == p && y.h.life.monitorsAt != 0 && y.h.life.phase.Run? && !y.h.life.failed
    && H.Finish(S.CALL_MRM) !in y.todo
    && (y.s.latched || y.s.routes.callMrm == S.Armed(t + p.maxAge + p.callMrmMs))
  }

  lemma LatchStays(ys: seq<System>, es: seq<Timed>, j: nat, k: nat)
    requires Run(ys, es) && j <= k <= |es| && ys[j].s.latched
    ensures ys[k].s.latched
  {
    SupervisorPart(ys, es);
    SupervisorRuns.NothingIsUndone(SupStates(ys), SupEvents(ys, es), j, k);
    assert SupStates(ys)[k] == ys[k].s && SupStates(ys)[j] == ys[j].s;
  }

  lemma SupStanding(y: System, e: Timed, t: int, p: H.Params)
    requires Standing(y, t, p) && Enabled(y, e) && !y.s.latched
    requires RouteTable.Inv(y.s) && (forall c <- y.todo :: OwnCall(c))
    requires !(e.ev.Callback? && e.ev.cb.Take?)
    ensures var n := Next(y, e.at, e.ev);
            n.s.latched || n.s.routes.callMrm == S.Armed(t + p.maxAge + p.callMrmMs)
  {
    var ev := SupEvent(y, e.at, e.ev);
    if e.ev.NextCall? { assert OwnCall(y.todo[0]) && y.todo[0] in y.todo; }
    CallMrmStep(y.s, e.at, ev);
    if ev.Wake? { ReactionPass.MissBrakes(y.s, e.at, ev.left, ev.nowUs); }
  }

  lemma StepStanding(y: System, e: Timed, t: int, p: H.Params)
    requires Standing(y, t, p) && Enabled(y, e) && HandlerRuns.Coherent(y.h.mrm)
    requires !(e.ev.Callback? && e.ev.cb.Take?)
    requires e.ev.TickStart? ==> e.at <= t + p.maxAge
    ensures var n := Next(y, e.at, e.ev);
            n.h.stamp == t && n.h.p == p && n.h.life == y.h.life && H.Finish(S.CALL_MRM) !in n.todo
  {
    match e.ev
    case Callback(cb) =>
      HandlerRuns.CallbacksLeave(y.h, e.at, cb);
      StartUp.StreamCallback(y.h, e.at, cb);
    case TickStart(sends) =>
      var r := Reading(y, sends);
      StartUp.SoundTick(y.h, e.at);
      HandlerRuns.TickFrame(y.h, e.at, r);
      TickCalls(y.h, e.at, r);
    case _ =>
  }

  lemma TakeStands(y: System, now: int, a: H.Availability)
    requires Watch(y) && !y.busy && y.done <= now && y.todo == [] && y.h.life.monitorsAt != 0
    ensures Standing(Next(y, now, Callback(H.Take(a))), now, y.h.p)
  {
    TakeWatch(y, now, a);
    HandlerRuns.CallbacksLeave(y.h, now, H.Take(a));
    StartUp.StreamCallback(y.h, now, H.Take(a));
  }

  lemma {:induction false} StandingAlways(ys: seq<System>, es: seq<Timed>, i: nat, k: nat)
    requires Run(ys, es) && i < k <= |es| && es[i].ev.Callback? && es[i].ev.cb.Take?
    requires ys[i].h.life.monitorsAt != 0 && Unanswered(ys, es, i, k)
    ensures Standing(ys[k], es[i].at, ys[i].h.p)
    decreases k
  {
    if i == k - 1 {
      IdleIsEmpty(ys, es, i);
      WatchAlways(ys, es, i);
      assert StepAt(ys, es, i);
      TakeStands(ys[i], es[i].at, es[i].ev.cb.a);
    } else {
      StandingAlways(ys, es, i, k - 1);
      StandingNext(ys, es, k - 1, es[i].at, ys[i].h.p);
    }
  }

  lemma StandingNext(ys: seq<System>, es: seq<Timed>, k: nat, t: int, p: H.Params)
    requires Run(ys, es) && k < |es| && Standing(ys[k], t, p) && !(es[k].ev.Callback? && es[k].ev.cb.Take?)
    requires es[k].ev.TickStart? ==> es[k].at <= t + p.maxAge
    ensures Standing(ys[k + 1], t, p)
  {
    PartsAt(ys, es, k);
    assert StepAt(ys, es, k);
    StepStanding(ys[k], es[k], t, p);
    if ys[k].s.latched { LatchStays(ys, es, k, k + 1); } else { SupStanding(ys[k], es[k], t, p); }
  }

  lemma {:induction false} IdleIsEmpty(ys: seq<System>, es: seq<Timed>, k: nat)
    requires Run(ys, es) && k <= |es|
    ensures !ys[k].busy ==> ys[k].todo == []
  {
    if k > 0 {
      IdleIsEmpty(ys, es, k - 1);
      assert StepAt(ys, es, k - 1);
    }
  }

  /** If takes and ticks stop after an armed take, the first pass at take + max_age + CALL_MRM ends latched. */
  lemma SilenceIsLatched(ys: seq<System>, es: seq<Timed>, i: nat, k: nat)
    requires Run(ys, es) && i < k < |es| && es[i].ev.Callback? && es[i].ev.cb.Take?
    requires ys[i].h.life.monitorsAt != 0 && Unanswered(ys, es, i, k)
    requires es[k].ev.Sup? && es[k].ev.ev.Wake?
    requires es[k].at >= es[i].at + ys[i].h.p.maxAge + ys[i].h.p.callMrmMs
    ensures ys[k + 1].s.latched
  {
    StandingAlways(ys, es, i, k);
    PartsAt(ys, es, k);
    assert StepAt(ys, es, k);
    ReactionPass.MissBrakes(ys[k].s, es[k].at, es[k].ev.ev.left, es[k].ev.ev.nowUs);
  }

  /** A tick that saw the stream time out, and its reaction in autonomous control. */
  predicate SawLoss(h: H.Handler, n: H.Handler)
  {
    && n.timedOut
    && (H.InAutonomousControl(h) ==>
          && !n.mrm.state.Normal?
          && (n.mrm.behavior.EmergencyStop? || n.mrm == H.Mrm(H.Succeeded, H.ComfortableStop)))
  }

  /**
   * The loss of the stream is always answered. After an armed take with no take after it, the first pass
   * at take + max_age + CALL_MRM finds a handler tick that saw the loss (in autonomous control: the MRM is
   * on, and it is the emergency stop unless the comfortable stop had just reached standstill), or ends latched.
   */
  lemma LossIsAnswered(ys: seq<System>, es: seq<Timed>, i: nat, k: nat)
    requires Run(ys, es) && i < k < |es| && es[i].ev.Callback? && es[i].ev.cb.Take?
    requires ys[i].h.life.monitorsAt != 0
    requires forall j | i < j < k :: !(es[j].ev.Callback? && es[j].ev.cb.Take?)
    requires es[k].ev.Sup? && es[k].ev.ev.Wake?
    requires es[k].at >= es[i].at + ys[i].h.p.maxAge + ys[i].h.p.callMrmMs
    ensures ys[k + 1].s.latched || exists j | i < j < k :: es[j].ev.TickStart? && SawLoss(ys[j].h, ys[j + 1].h)
  {
    if Unanswered(ys, es, i, k) {
      SilenceIsLatched(ys, es, i, k);
    } else {
      var j := FirstLoss(ys, es, i, k);
      StandingAlways(ys, es, i, j);
      PartsAt(ys, es, j);
      LossTick(ys[j], es[j], es[i].at);
      assert StepAt(ys, es, j);
    }
  }

  lemma FirstLoss(ys: seq<System>, es: seq<Timed>, i: nat, k: nat) returns (j: nat)
    requires |ys| == |es| + 1 && i < k <= |es| && !Unanswered(ys, es, i, k)
    requires forall j | i < j < k :: !(es[j].ev.Callback? && es[j].ev.cb.Take?)
    ensures i < j < k && Unanswered(ys, es, i, j)
    ensures es[j].ev.TickStart? && es[j].at > es[i].at + ys[i].h.p.maxAge
  {
    j := k;
    while !Unanswered(ys, es, i, j)
      invariant i < j <= k
      invariant j < k ==> es[j].ev.TickStart? && es[j].at > es[i].at + ys[i].h.p.maxAge
      decreases j
    {
      var m :| i < m < j && es[m].ev.TickStart? && es[m].at > es[i].at + ys[i].h.p.maxAge;
      j := m;
    }
  }

  lemma LossTick(y: System, e: Timed, t: int)
    requires Standing(y, t, y.h.p) && HandlerRuns.Coherent(y.h.mrm) && e.ev.TickStart? && e.at > t + y.h.p.maxAge
    ensures SawLoss(y.h, Next(y, e.at, e.ev).h)
  {
    var r := Reading(y, e.ev.sends);
    StartUp.SoundTick(y.h, e.at);
    HandlerRuns.TickFrame(y.h, e.at, r);
    HandlerRuns.LostTick(y.h, e.at, r);
  }
}
