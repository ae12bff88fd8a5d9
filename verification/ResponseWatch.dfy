/** The reference speed of route 4 over whole runs, and what a drop below it does. */
module ResponseWatch {
  import opened Words
  import opened SupervisorSpec
  import opened RouteTable
  import opened ReactionPass
  import opened SupervisorRuns
  import opened SampleRuns
  import Judge

  // ------------------------------------------------------------------ one step

  /** A floor or response miss latched in this step. */
  predicate MissLatched(s: State, t: State) { Latches(t) > Latches(s) }

  /** The step starts a watch: the handler arms the floor, a miss latches, or the braking command (re)starts. */
  predicate WatchStarts(s: State, t: State, e: Timed)
  {
    (e.ev.Arm? && e.ev.route == FLOOR) || MissLatched(s, t) || BrakeStarts(s, t)
  }

  /** Route 4 with its reference. */
  datatype Watch = Watch(valid: bool, due: int, ref: nat)

  function Route4(s: State): Watch { Watch(s.routes.response.valid, s.routes.response.due, s.floor.ref) }

  /** Route 4 watches from `at`, against `speed`. */
  predicate From(s: State, at: int, speed: nat)
  {
    s.routes.response.due == at + s.cfg.responseMs + s.cfg.observeMs && s.floor.ref == speed
  }

  /** A judged pass leaves an armed route 4 as it was, or started at its own miss, or at the braking command's start. */
  predicate Rewatched(s: State, q: State, now: int)
  {
    q.routes.response.valid ==>
      || Route4(q) == Route4(s)
      || (MissLatched(s, q) && !s.latched && Fresh(s, now) && From(q, now, s.sample.speed))
      || (s.latched && s.brake.refOk && From(q, s.brake.since, s.brake.ref))
  }

  lemma FloorRewatches(p: Pass, now: int)
    requires TableOk(p.s) && Late(p.s.routes.floor, now)
    ensures Rewatched(p.s, JudgeFloor(p, now).s, now) && SamePass(p.s, JudgeFloor(p, now).s)
    ensures MissLatched(p.s, JudgeFloor(p, now).s) ==> !p.s.latched
    ensures Latches(JudgeFloor(p, now).s) >= Latches(p.s)
    ensures MissLatched(p.s, JudgeFloor(p, now).s) ==> !Late(JudgeFloor(p, now).s.routes.response, now)
  {
  }

  lemma ResponseRewatches(p: Pass, now: int)
    requires TableOk(p.s) && Late(p.s.routes.response, now)
    ensures Rewatched(p.s, JudgeResponse(p, now).s, now) && SamePass(p.s, JudgeResponse(p, now).s)
    ensures Latches(JudgeResponse(p, now).s) >= Latches(p.s)
  {
  }

  lemma PairRewatches(p: Pass, now: int, left: nat, nowUs: int)
    requires PassOk(p, FLOOR, now)
    ensures var q := JudgeRoute(JudgeRoute(p, FLOOR, now, left, nowUs), RESPONSE, now, left, nowUs).s;
            Rewatched(p.s, q, now) && Latches(q) >= Latches(p.s)
  {
    var f := JudgeRoute(p, FLOOR, now, left, nowUs);
    JudgeRouteKeeps(p, FLOOR, now, left, nowUs);
    if Late(p.s.routes.floor, now) { FloorRewatches(p, now); }
    if Late(f.s.routes.response, now) { ResponseRewatches(f, now); }
  }

  lemma JudgedRewatches(s: State, now: int, left: nat, nowUs: int)
    requires ReleaseOk(s) && nowUs >= 1000 * now
    ensures Rewatched(s, JudgeRoutes(s, ROUTES, now, left, nowUs).s, now)
    ensures Latches(JudgeRoutes(s, ROUTES, now, left, nowUs).s) >= Latches(s)
  {
    FirstThree(s, now, left, nowUs);
    JudgeRoutesKeeps(s, FLOOR, now, left, nowUs);
    var p := JudgeRoutes(s, FLOOR, now, left, nowUs);
    PairRewatches(p, now, left, nowUs);
    assert JudgeRoutes(s, RESPONSE, now, left, nowUs) == JudgeRoute(p, FLOOR, now, left, nowUs);
  }

  /** Serving starts a watch only with the operator slot's resume. */
  lemma ServeRewatches(s: State, now: int)
    requires TableOk(s)
    ensures var w := Serve(s, now);
            && Latches(w) == Latches(s)
            && (w.routes.response.valid ==>
                  || Route4(w) == Route4(s)
                  || (!s.slots.operator.resumed && w.slots.operator.resumed && Fresh(s, now) && From(w, now, s.sample.speed)))
  {
    ServeFrame(s, now);
    if s.latched {
      SlotsInService(s, now);
      ResumedRewatches(s, now);
    }
  }

  lemma ResumedRewatches(s: State, now: int)
    requires TableOk(s)
    ensures var d := DirectService(s, now);
            && Latches(d) == Latches(s)
            && (d.routes.response.valid ==>
                  || Route4(d) == Route4(s)
                  || (Silent(s, s.slots.operator, now) && Fresh(s, now) && From(d, now, s.sample.speed)))
  {
    var h := ResumeSlot(s, HANDLER, now);
    assert h == s.(slots := h.slots) && h.slots.operator == s.slots.operator;
    assert Silent(h, h.slots.operator, now) == Silent(s, s.slots.operator, now);
    var w := DirectWatch(s, now);
    assert DirectService(s, now) == w.(slots := DirectService(s, now).slots, directNext := DirectService(s, now).directNext);
  }

  /** After the step an armed route 4 is as it was, starts here on a fresh sample, or restarts from the braking command's start. */
  predicate StepWatches(s: State, e: Timed, t: State)
  {
    t.routes.response.valid ==>
      || Route4(t) == Route4(s)
      || (WatchStarts(s, t, e) && Fresh(s, e.at) && From(t, e.at, s.sample.speed))
      || (s.latched && s.brake.refOk && From(t, s.brake.since, s.brake.ref))
  }

  lemma WakeWatches(s: State, e: Timed)
    requires Inv(s) && ClockOk(s, e.at) && Admissible(e) && e.ev.Wake?
    ensures StepWatches(s, e, Step(s, e.at, e.ev))
  {
    var v := s.(thread := s.thread.(wake := false));
    ReactRewatches(v, e.at, e.ev.left, e.ev.nowUs);
    var r := React(v, e.at, e.ev.left, e.ev.nowUs);
    ServeRewatches(r, e.at);
    ServeFrame(r, e.at);
    Joined(s, v, r, Step(s, e.at, e.ev), e);
  }

  lemma ReactRewatches(s: State, now: int, left: nat, nowUs: int)
    requires Inv(s) && ClockOk(s, now) && nowUs >= 1000 * now
    ensures var r := React(s, now, left, nowUs);
            && TableOk(r) && Rewatched(s, r, now) && Latches(r) >= Latches(s)
            && r.slots == s.slots && r.sample == s.sample && r.cfg == s.cfg
  {
    JudgedRewatches(s, now, left, nowUs);
    Reacted(s, now, left, nowUs);
    ReactKeeps(s, now, left, nowUs);
    assert React(s, now, left, nowUs).floor == JudgeRoutes(s, ROUTES, now, left, nowUs).s.floor;
  }

  /** The pass and then the direct path's service, as one step. */
  lemma Joined(s: State, v: State, r: State, w: State, e: Timed)
    requires v == s.(thread := v.thread) && Rewatched(v, r, e.at) && Latches(r) >= Latches(s)
    requires r.slots == s.slots && r.sample == s.sample && r.cfg == s.cfg && w.cfg == r.cfg && Latches(w) == Latches(r)
    requires w.routes.response.valid ==>
               || Route4(w) == Route4(r)
               || (!r.slots.operator.resumed && w.slots.operator.resumed && Fresh(r, e.at) && From(w, e.at, r.sample.speed))
    ensures StepWatches(s, e, w)
  {
  }

  lemma QuietWatches(s: State, e: Timed)
    requires Inv(s) && !e.ev.Wake? && !e.ev.Timeout? && Admissible(e)
    ensures StepWatches(s, e, Step(s, e.at, e.ev))
  {
  }

  lemma StepWatched(s: State, e: Timed)
    requires Inv(s) && ClockOk(s, e.at) && Admissible(e)
    ensures StepWatches(s, e, Step(s, e.at, e.ev))
  {
    match e.ev
    case Wake(_, _) => WakeWatches(s, e);
    case Timeout => ServeRewatches(s, e.at);
    case _ => QuietWatches(s, e);
  }

  /** The braking command's words are those of the step that starts it. */
  predicate Braking(s: State, e: Timed, t: State)
  {
    if BrakeStarts(s, t) then t.brake == Brake(e.at, s.sample.speed, Fresh(s, e.at)) else t.brake == s.brake
  }

  lemma ServeBrakes(s: State, now: int)
    ensures var w := Serve(s, now);
            w.brake == if s.latched && Silent(s, s.slots.operator, now) then Brake(now, s.sample.speed, Fresh(s, now)) else s.brake
  {
    ServeFrame(s, now);
    var h := ResumeSlot(s, HANDLER, now);
    assert h == s.(slots := h.slots) && h.slots.operator == s.slots.operator;
    assert Silent(h, h.slots.operator, now) == Silent(s, s.slots.operator, now);
  }

  lemma ReactBrakes(s: State, now: int, left: nat, nowUs: int)
    requires Inv(s) && ClockOk(s, now) && nowUs >= 1000 * now
    ensures var r := React(s, now, left, nowUs);
            r.brake == if !s.latched && r.latched then Brake(now, s.sample.speed, Fresh(s, now)) else s.brake
  {
    JudgedKeepsSample(s, ROUTES, now, left, nowUs);
    Reacted(s, now, left, nowUs);
  }

  lemma WakeBrakes(s: State, e: Timed)
    requires Inv(s) && ClockOk(s, e.at) && Admissible(e) && e.ev.Wake?
    ensures Braking(s, e, Step(s, e.at, e.ev))
  {
    var v := s.(thread := s.thread.(wake := false));
    WakeForward(s, e.at, e.ev.left, e.ev.nowUs);
    Reacted(v, e.at, e.ev.left, e.ev.nowUs);
    ReactBrakes(v, e.at, e.ev.left, e.ev.nowUs);
    var r := React(v, e.at, e.ev.left, e.ev.nowUs);
    ServeBrakes(r, e.at);
    ServeFrame(r, e.at);
    if r.latched { SlotsInService(r, e.at); }
  }

  lemma StepBrakes(s: State, e: Timed)
    requires Inv(s) && ClockOk(s, e.at) && Admissible(e)
    ensures Braking(s, e, Step(s, e.at, e.ev))
  {
    match e.ev
    case Wake(_, _) => WakeBrakes(s, e);
    case Timeout =>
      ServeBrakes(s, e.at);
      ServeFrame(s, e.at);
      if s.latched { SlotsInService(s, e.at); }
    case _ => QuietForward(s, e);
  }

  // ------------------------------------------------------------------ every run

  /** The step `j` of a run. */
  lemma Taken(ss: seq<State>, es: seq<Timed>, k: nat)
    requires Behaviour(ss, es) && k < |es|
    ensures Inv(ss[k]) && ClockOk(ss[k], es[k].at) && Admissible(es[k]) && ss[k + 1] == Step(ss[k], es[k].at, es[k].ev)
    ensures ss[k + 1].cfg == ss[k].cfg && (ss[k].latched ==> ss[k + 1].latched)
  {
    ClockAlways(ss, es, k);
    assert StepAt(ss, es, k);
    StepForward(ss[k], es[k]);
  }

  /** The braking command's reference is the speed in the state before its last start. */
  lemma {:induction false} BrakeFrom(ss: seq<State>, es: seq<Timed>, k: nat) returns (j: nat)
    requires Behaviour(ss, es) && k <= |es| && ss[k].latched
    ensures j < k && BrakeStarts(ss[j], ss[j + 1]) && ss[j].cfg == ss[k].cfg
    ensures ss[k].brake == Brake(es[j].at, ss[j].sample.speed, Fresh(ss[j], es[j].at))
    ensures forall i | j < i < k :: !BrakeStarts(ss[i], ss[i + 1])
  {
    ClockAlways(ss, es, k);
    Taken(ss, es, k - 1);
    StepBrakes(ss[k - 1], es[k - 1]);
    if BrakeStarts(ss[k - 1], ss[k]) {
      j := k - 1;
    } else {
      j := BrakeFrom(ss, es, k - 1);
    }
  }

  /**
   * While route 4 is armed it judges by the speed in the state before the step that started its watch, a
   * response span before its due: the handler's arm, a miss that latched, or a start of the braking command;
   * and the sample was fresh there.
   */
  lemma {:induction false} WatchedFrom(ss: seq<State>, es: seq<Timed>, k: nat) returns (j: nat)
    requires Behaviour(ss, es) && k <= |es| && ss[k].routes.response.valid
    ensures j < k && WatchStarts(ss[j], ss[j + 1], es[j]) && Fresh(ss[j], es[j].at) && ss[j].cfg == ss[k].cfg
    ensures From(ss[k], es[j].at, ss[j].sample.speed)
  {
    assert k > 0;
    Taken(ss, es, k - 1);
    StepWatched(ss[k - 1], es[k - 1]);
    if Route4(ss[k]) == Route4(ss[k - 1]) {
      j := WatchedFrom(ss, es, k - 1);
    } else if WatchStarts(ss[k - 1], ss[k], es[k - 1]) && Fresh(ss[k - 1], es[k - 1].at) && From(ss[k], es[k - 1].at, ss[k - 1].sample.speed) {
      j := k - 1;
    } else {
      j := BrakeFrom(ss, es, k - 1);
    }
  }

  // ------------------------------------------------------------------ the verdict, against that speed

  /** At `now`, seen from the watch that started at step `j`: at standstill, or `dropMmS` below the speed there. */
  ghost predicate Slowed(ss: seq<State>, es: seq<Timed>, j: nat, k: nat, now: int)
    requires |ss| == |es| + 1 && j <= k <= |es|
  {
    && Recent(LastTaken(es, k), now)
    && (LastTaken(es, k).value.speed == 0
        || (LastTaken(es, j).Some? && LastTaken(es, j).value.speed - LastTaken(es, k).value.speed >= ss[k].cfg.dropMmS))
  }

  /** What the judge reads of an armed route 4. */
  lemma AnsweringIs(ss: seq<State>, es: seq<Timed>, k: nat, now: int) returns (j: nat)
    requires Behaviour(ss, es) && k <= |es| && ss[k].routes.response.valid
    ensures j < k && WatchStarts(ss[j], ss[j + 1], es[j]) && Recent(LastTaken(es, j), es[j].at)
    ensures ss[k].routes.response.due == es[j].at + ss[k].cfg.responseMs + ss[k].cfg.observeMs
    ensures Answering(ss[k], now) <==> Slowed(ss, es, j, k, now)
  {
    j := WatchedFrom(ss, es, k);
    ReadingsAre(ss, es, j, es[j].at);
    ReadingsAre(ss, es, k, now);
  }

  /** What a pass does of route 4's own counters and fault, against the state before it. */
  lemma ResponseVerdicts(p: Pass, now: int)
    requires TableOk(p.s) && Late(p.s.routes.response, now)
    ensures var q := JudgeResponse(p, now).s;
            if Answering(p.s, now) then
              !q.routes.response.valid && q.floor == p.s.floor && q.fault == p.s.fault && q.routes.floor == p.s.routes.floor
            else if !p.s.latched then q.floor.responseLatches == p.s.floor.responseLatches + 1 && q.fault == p.s.fault
            else if Braked(p.s, now) < p.s.cfg.responseMs + p.s.cfg.observeMs then
              q.floor.responseWaits == p.s.floor.responseWaits + 1 && q.fault == p.s.fault && q.routes.floor == p.s.routes.floor
            else q.fault == (if p.s.fault.NoFault? then Fault(Trunc32(now), p.s.sample.speed, RESPONSE) else p.s.fault)
                 && !q.routes.floor.valid && !q.routes.response.valid
  {
  }

  lemma FloorLeavesResponse(p: Pass, now: int)
    requires TableOk(p.s) && Late(p.s.routes.floor, now)
    ensures var q := JudgeFloor(p, now).s;
            && q.floor.responseLatches == p.s.floor.responseLatches && q.floor.responseWaits == p.s.floor.responseWaits
            && (q.fault != p.s.fault ==> q.fault.Fault? && q.fault.route == FLOOR)
            && (Late(q.routes.response, now) ==> Late(p.s.routes.response, now) && q.floor.ref == p.s.floor.ref)
  {
  }

  /** Route 4's counters, and the faults it records. */
  predicate ResponseQuiet(s: State, q: State)
  {
    && q.floor.responseLatches == s.floor.responseLatches && q.floor.responseWaits == s.floor.responseWaits
    && (q.fault != s.fault ==> q.fault.Fault? && q.fault.route == FLOOR)
  }

  /** A pass that finds no armed, late and unanswered route 4 leaves its counters alone and records no fault for it. */
  lemma PassQuiet(s: State, now: int, left: nat, nowUs: int)
    requires ReleaseOk(s) && nowUs >= 1000 * now && (Late(s.routes.response, now) ==> Answering(s, now))
    ensures ResponseQuiet(s, JudgeRoutes(s, ROUTES, now, left, nowUs).s)
  {
    FirstThree(s, now, left, nowUs);
    JudgeRoutesKeeps(s, FLOOR, now, left, nowUs);
    var p := JudgeRoutes(s, FLOOR, now, left, nowUs);
    var f := JudgeRoute(p, FLOOR, now, left, nowUs);
    JudgeRouteKeeps(p, FLOOR, now, left, nowUs);
    assert JudgeRoutes(s, RESPONSE, now, left, nowUs) == f;
    if Late(p.s.routes.floor, now) { FloorLeavesResponse(p, now); }
    if Late(f.s.routes.response, now) {
      assert Answering(f.s, now);
      ResponseVerdicts(f, now);
    }
  }

  /** With route 3 not late, a pass that finds route 4 late and unanswered. */
  lemma PassUnanswered(s: State, now: int, left: nat, nowUs: int)
    requires ReleaseOk(s) && nowUs >= 1000 * now && Late(s.routes.response, now) && !Late(s.routes.floor, now) && !Answering(s, now)
    ensures var q := JudgeRoutes(s, ROUTES, now, left, nowUs).s;
            if !s.latched then q.floor.responseLatches == s.floor.responseLatches + 1
            else if Braked(s, now) < s.cfg.responseMs + s.cfg.observeMs then q.floor.responseWaits == s.floor.responseWaits + 1
            else s.fault.NoFault? ==> q.fault == Fault(Trunc32(now), s.sample.speed, RESPONSE)
  {
    FirstThree(s, now, left, nowUs);
    JudgeRoutesKeeps(s, FLOOR, now, left, nowUs);
    var p := JudgeRoutes(s, FLOOR, now, left, nowUs);
    assert JudgeRoutes(s, RESPONSE, now, left, nowUs) == p;
    ResponseVerdicts(p, now);
  }

  /** The service after the pass touches none of this. */
  lemma WakeCounts(s: State, now: int, left: nat, nowUs: int)
    requires Inv(s) && ClockOk(s, now) && nowUs >= 1000 * now
    ensures var v := s.(thread := s.thread.(wake := false));
            var w, q := WakeStep(s, now, left, nowUs), JudgeRoutes(v, ROUTES, now, left, nowUs).s;
            && w.fault == q.fault && w.floor.responseLatches == q.floor.responseLatches && w.floor.responseWaits == q.floor.responseWaits
  {
    var v := s.(thread := s.thread.(wake := false));
    var r := React(v, now, left, nowUs);
    ServeFrame(r, now);
    if r.latched { ServedCounts(r, now); }
  }

  lemma ServedCounts(s: State, now: int)
    ensures Serve(s, now).floor.responseLatches == s.floor.responseLatches && Serve(s, now).floor.responseWaits == s.floor.responseWaits
  {
  }

  /**
   * The verdict of route 4, on the run's own samples. A wake that finds it late finds the vehicle slowed since the
   * watch began, and then counts no latch and no wait for it and records no fault of it; or not, and then, with
   * route 3 not late, exactly one of the three.
   */
  lemma ResponseJudgedBy(ss: seq<State>, es: seq<Timed>, k: nat) returns (j: nat)
    requires Behaviour(ss, es) && k < |es| && es[k].ev.Wake? && Late(ss[k].routes.response, es[k].at)
    ensures j < k && WatchStarts(ss[j], ss[j + 1], es[j]) && Recent(LastTaken(es, j), es[j].at)
    ensures ss[k].routes.response.due == es[j].at + ss[k].cfg.responseMs + ss[k].cfg.observeMs
    ensures Slowed(ss, es, j, k, es[k].at) ==> ResponseQuiet(ss[k], ss[k + 1])
    ensures !Slowed(ss, es, j, k, es[k].at) && !Late(ss[k].routes.floor, es[k].at) ==>
              if !ss[k].latched then ss[k + 1].floor.responseLatches == ss[k].floor.responseLatches + 1
              else if Trunc32(es[k].at - ss[k].brake.since) < ss[k].cfg.responseMs + ss[k].cfg.observeMs
              then ss[k + 1].floor.responseWaits == ss[k].floor.responseWaits + 1
              else ss[k].fault.NoFault? ==> ss[k + 1].fault == Fault(Trunc32(es[k].at), ss[k].sample.speed, RESPONSE)
  {
    j := AnsweringIs(ss, es, k, es[k].at);
    Taken(ss, es, k);
    PassVerdict(ss[k], es[k].at, es[k].ev.left, es[k].ev.nowUs);
  }

  lemma PassVerdict(s: State, now: int, left: nat, nowUs: int)
    requires Inv(s) && ClockOk(s, now) && nowUs >= 1000 * now && Late(s.routes.response, now)
    ensures var w := WakeStep(s, now, left, nowUs);
            && (Answering(s, now) ==> ResponseQuiet(s, w))
            && (!Answering(s, now) && !Late(s.routes.floor, now) ==>
                  if !s.latched then w.floor.responseLatches == s.floor.responseLatches + 1
                  else if Trunc32(now - s.brake.since) < s.cfg.responseMs + s.cfg.observeMs
                  then w.floor.responseWaits == s.floor.responseWaits + 1
                  else s.fault.NoFault? ==> w.fault == Fault(Trunc32(now), s.sample.speed, RESPONSE))
  {
    var v := s.(thread := s.thread.(wake := false));
    WakeCounts(s, now, left, nowUs);
    assert Answering(v, now) == Answering(s, now);
    if Answering(s, now) { PassQuiet(v, now, left, nowUs); }
    else if !Late(s.routes.floor, now) { PassUnanswered(v, now, left, nowUs); }
  }

  /**
   * No false verdict of route 4: a vehicle fault it records found the vehicle, on a sample at most 300 ms old, neither
   * at standstill nor `dropMmS` below the speed it had when the watch began.
   */
  lemma NoFalseResponse(ss: seq<State>, es: seq<Timed>, k: nat) returns (j: nat)
    requires Behaviour(ss, es) && k < |es| && ss[k].fault.NoFault?
    requires ss[k + 1].fault.Fault? && ss[k + 1].fault.route == RESPONSE
    ensures j < k && WatchStarts(ss[j], ss[j + 1], es[j]) && Recent(LastTaken(es, j), es[j].at)
    ensures ss[k].routes.response.due == es[j].at + ss[k].cfg.responseMs + ss[k].cfg.observeMs <= es[k].at
    ensures !Slowed(ss, es, j, k, es[k].at)
  {
    NoFalseFault(ss, es, k);
    Taken(ss, es, k);
    var e := es[k];
    var v := ss[k].(thread := ss[k].thread.(wake := false));
    if !Late(ss[k].routes.response, e.at) {
      WakeCounts(ss[k], e.at, e.ev.left, e.ev.nowUs);
      PassQuiet(v, e.at, e.ev.left, e.ev.nowUs);
    }
    j := ResponseJudgedBy(ss, es, k);
  }
}
