/** The supervisor as the island runs it: fields updated in place, loops over routes and slots, one lock section per method. */
module SupervisorClass {
  import opened Words
  import opened SupervisorSpec
  import Judge

  function TableOf(r: seq<Route>): Table
    requires |r| == ROUTES
  {
    Table(r[CALL_MRM], r[EXECUTOR], r[COMFORTABLE], r[FLOOR], r[RESPONSE])
  }

  function SlotsOf(x: seq<Slot>): Slots
    requires |x| == SLOTS
  {
    Slots(x[HANDLER], x[OPERATOR])
  }

  lemma TableUpdate(r: seq<Route>, i: nat, v: Route)
    requires |r| == ROUTES && i < ROUTES
    ensures TableOf(r[i := v]) == TableOf(r).With(i, v) && TableOf(r).At(i) == r[i]
    ensures TableOf(r).List() == r
  {
  }

  lemma SlotsUpdate(x: seq<Slot>, i: nat, v: Slot)
    requires |x| == SLOTS && i < SLOTS
    ensures SlotsOf(x[i := v]) == SlotsOf(x).With(i, v) && SlotsOf(x).At(i) == x[i]
  {
  }

  class Supervisor {
    const cfg: Config
    var routes: seq<Route>
    var timer: Option<int>
    var slots: seq<Slot>
    var latched: bool
    var latchMs: int
    var cause: Cause
    var brake: Brake
    var directNext: int
    var sample: Sample
    var floor: Floor
    var fault: Fault
    var thread: Thread

    predicate Valid()
      reads this
    {
      |routes| == ROUTES && |slots| == SLOTS
    }

    function View(): State
      requires Valid()
      reads this
    {
      State(cfg, TableOf(routes), timer, SlotsOf(slots), latched, latchMs, cause, brake, directNext, sample, floor, fault, thread)
    }

    /** Power on, with the slots the components registered at construction. */
    constructor (cfg: Config, handler: bool, operator: bool)
      requires cfg.Valid()
      ensures Valid() && Boot(View()) && View().cfg == cfg
      ensures View().slots.handler.registered == handler && View().slots.operator.registered == operator
    {
      this.cfg := cfg;
      routes := [OFF, OFF, OFF, OFF, OFF];
      timer := None;
      slots := [Slot(handler, 0, false, false, 0, 0), Slot(operator, 0, false, false, 0, 0)];
      latched, latchMs, cause := false, 0, NoCause;
      brake, directNext := Brake(0, 0, false), 0;
      sample, floor, fault := Sample(0, 0), Floor(Judge.Idle, 0, 0, 0, 0, 0), NoFault;
      thread := Thread(false, false, false, false, None);
    }

    // ---------------------------------------------------------------- the route table

    method RearmLocked()
      requires Valid()
      modifies this`timer
      ensures Valid() && View() == Rearm(old(View()))
    {
      var earliest: Option<int> := None;
      for i := 0 to ROUTES
        invariant earliest == Earliest(routes[..i])
      {
        assert routes[..i + 1][..i] == routes[..i];
        if routes[i].valid && (earliest.None? || routes[i].due < earliest.value) {
          earliest := Some(routes[i].due);
        }
      }
      assert routes[..ROUTES] == TableOf(routes).List();
      timer := earliest;
    }

    method ResponseArmLocked(start: int, ref: nat, refOk: bool)
      requires Valid()
      modifies this`routes, this`floor
      ensures Valid() && View() == ResponseArm(old(View()), start, ref, refOk)
    {
      if cfg.responseMs == 0 {
        return;
      }
      if !refOk {
        routes := routes[RESPONSE := Cleared(routes[RESPONSE])];
        return;
      }
      routes := routes[RESPONSE := Armed(start + cfg.ResponseSpan())];
      floor := floor.(ref := ref);
    }

    method Arm(route: nat, due: int, now: int)
      requires Valid()
      modifies this
      ensures Valid() && View() == ArmStep(old(View()), now, route, due)
    {
      if route >= ROUTES {
        return;
      }
      TableUpdate(routes, route, Armed(due));
      routes := routes[route := Armed(due)];
      if route == FLOOR {
        floor := floor.(stage := Judge.OperatorStage);
        ResponseArmLocked(now, sample.speed, Fresh(View(), now));
      }
      RearmLocked();
    }

    method Done(route: nat)
      requires Valid()
      modifies this
      ensures Valid() && View() == DoneStep(old(View()), route)
    {
      if route >= ROUTES {
        return;
      }
      TableUpdate(routes, route, Cleared(routes[route]));
      if routes[route].valid {
        routes := routes[route := Cleared(routes[route])];
        if route == FLOOR {
          floor := floor.(stage := Judge.Idle);
          if routes[RESPONSE].valid { routes := routes[RESPONSE := Cleared(routes[RESPONSE])]; }
        }
        RearmLocked();
      }
    }

    method NoteSpeed(speed: nat, now: int)
      requires Valid()
      modifies this`sample
      ensures Valid() && View() == SpeedStep(old(View()), now, speed)
    {
      sample := Sample(speed, Trunc32(now));
    }

    // ---------------------------------------------------------------- the reaction pass

    method LatchFloor(now: int)
      requires Valid()
      modifies this`routes, this`floor
      ensures Valid() && View() == FloorLatch(old(View()), now)
    {
      floor := floor.(stage := Judge.DirectStage);
      routes := routes[FLOOR := Armed(now + cfg.FloorSpan())];
      ResponseArmLocked(now, sample.speed, Fresh(View(), now));
    }

    method FaultFloor(now: int, route: nat)
      requires Valid() && (route == FLOOR || route == RESPONSE) && !routes[route].valid && !routes[route].armed
      modifies this`routes, this`floor, this`fault
      ensures Valid() && View() == FloorFault(old(View()), now, route)
    {
      floor := floor.(stage := Judge.Idle);
      var other := if route == FLOOR then RESPONSE else FLOOR;
      routes := routes[other := Cleared(routes[other])];
      if fault.NoFault? {
        fault := Fault(Trunc32(now), sample.speed, route);
      }
    }

    /** Route 3 past its due. */
    method JudgeFloorRoute(now: int, fired: bool) returns (fires: bool)
      requires Valid()
      modifies this`routes, this`floor, this`fault
      ensures Valid() && Pass(View(), fires) == JudgeFloor(Pass(old(View()), fired), now)
    {
      fires := fired;
      var braked := if latched then Trunc32(now - brake.since) else 0;
      var verdict := Judge.Floor(Judge.Standstill(now, sample.speed, sample.at), latched, braked, cfg.FloorSpan());
      routes := routes[FLOOR := Cleared(routes[FLOOR])];
      if Judge.Unseen(sample.at) {
        routes := routes[FLOOR := Armed(now + cfg.FloorSpan())];
        return;
      }
      match verdict
      case Met =>
        floor := floor.(stage := Judge.Idle);
        routes := routes[RESPONSE := Cleared(routes[RESPONSE])];
      case Wait =>
        floor := floor.(waits := floor.waits + 1, stage := Judge.DirectStage);
        routes := routes[FLOOR := Armed(brake.since + cfg.FloorSpan())];
      case Latch =>
        fires := true;
        floor := floor.(latches := floor.latches + 1);
        LatchFloor(now);
      case VehicleFault =>
        FaultFloor(now, FLOOR);
    }

    /** Route 4 past its due. */
    method JudgeResponseRoute(now: int, fired: bool) returns (fires: bool)
      requires Valid()
      modifies this`routes, this`floor, this`fault
      ensures Valid() && Pass(View(), fires) == JudgeResponse(Pass(old(View()), fired), now)
    {
      fires := fired;
      var responded := Judge.Responded(Judge.Standstill(now, sample.speed, sample.at), !Judge.Stale(now, sample.at),
                                       floor.ref, sample.speed, cfg.dropMmS);
      var braked := if latched then Trunc32(now - brake.since) else 0;
      var verdict := Judge.Floor(responded, latched, braked, cfg.ResponseSpan());
      routes := routes[RESPONSE := Cleared(routes[RESPONSE])];
      match verdict
      case Met =>
      case Wait =>
        floor := floor.(responseWaits := floor.responseWaits + 1);
        ResponseArmLocked(brake.since, brake.ref, brake.refOk);
      case Latch =>
        fires := true;
        floor := floor.(responseLatches := floor.responseLatches + 1);
        LatchFloor(now);
      case VehicleFault =>
        FaultFloor(now, RESPONSE);
    }

    /** Routes 0 to 2 past their due. */
    method JudgeEarlyRoute(i: nat, now: int, left: nat, nowUs: int, fired: bool) returns (fires: bool)
      requires Valid() && i < FLOOR && Late(routes[i], now)
      modifies this`routes
      ensures Valid() && Pass(View(), fires) == JudgeRoute(Pass(old(View()), fired), i, now, left, nowUs)
    {
      fires := fired;
      routes := routes[i := Cleared(routes[i])];
      if i == EXECUTOR && left == U64_MAX {
        return;
      }
      if i == EXECUTOR && left != 0 {
        routes := routes[i := Armed(ExecutorDue(nowUs, left))];
        return;
      }
      if i == COMFORTABLE && Judge.Standstill(now, sample.speed, sample.at) {
        return;
      }
      fires := true;
    }

    method JudgeAll(now: int, left: nat, nowUs: int) returns (fired: bool)
      requires Valid()
      modifies this`routes, this`floor, this`fault
      ensures Valid() && Pass(View(), fired) == JudgeRoutes(old(View()), ROUTES, now, left, nowUs)
    {
      fired := false;
      for i := 0 to ROUTES
        invariant Valid()
        invariant Pass(View(), fired) == JudgeRoutes(old(View()), i, now, left, nowUs)
      {
        TableUpdate(routes, i, routes[i]);
        if routes[i].valid && routes[i].due <= now {
          if i == FLOOR {
            fired := JudgeFloorRoute(now, fired);
          } else if i == RESPONSE {
            fired := JudgeResponseRoute(now, fired);
          } else {
            fired := JudgeEarlyRoute(i, now, left, nowUs, fired);
          }
        }
      }
    }

    method DriveSafeState(now: int, why: Cause)
      requires Valid()
      modifies this`latched, this`latchMs, this`cause
      ensures Valid() && View() == SafeState(old(View()), now, why)
    {
      if latched {
        return;
      }
      latchMs, cause, latched := now, why, true;
    }

    method ReactLocked(now: int, left: nat, nowUs: int)
      requires Valid()
      modifies this
      ensures Valid() && View() == React(old(View()), now, left, nowUs)
    {
      var was := latched;
      var fired := JudgeAll(now, left, nowUs);
      RearmLocked();
      LatchPending(fired, now);
      if !was && latched {
        brake := Brake(now, sample.speed, Fresh(View(), now));
        directNext := now;
      }
    }

    /** Everything the pass may latch on, in the order the thread looks. */
    method LatchPending(fired: bool, now: int)
      requires Valid()
      modifies this`latched, this`latchMs, this`cause, this`thread
      ensures Valid() && View() == LatchAll(Pass(old(View()), fired), now)
    {
      if fired { DriveSafeState(now, RouteCause); }
      if thread.hook { DriveSafeState(now, HookCause); }
      if thread.swt { DriveSafeState(now, SwtCause); }
      thread := thread.(hook := false, swt := false);
    }

    // ---------------------------------------------------------------- the direct path

    method ResumeOne(i: nat, now: int) returns (resumed: bool)
      requires Valid() && i < SLOTS
      modifies this
      ensures Valid() && View() == ResumeSlot(old(View()), i, now)
      ensures resumed == Silent(old(View()), old(slots[i]), now)
    {
      SlotsUpdate(slots, i, slots[i].(resumed := true));
      if !Watched(slots[i]) {
        return false;
      }
      var period := if slots[i].period != 0 then slots[i].period else cfg.directPeriodMs;
      if !Judge.Resume(now, slots[i].alive, period, cfg.resumePeriods) {
        return false;
      }
      slots := slots[i := slots[i].(resumed := true)];
      resumed := true;
      if i == OPERATOR { RestartBraking(now); }
    }

    /** The operator slot's resume starts the braking command again. */
    method RestartBraking(now: int)
      requires Valid()
      modifies this`brake, this`routes, this`floor, this`timer
      ensures Valid() && View() == ResumeBraking(old(View()), now)
    {
      brake := Brake(now, sample.speed, Fresh(View(), now));
      if !routes[FLOOR].valid {
        routes := routes[FLOOR := Armed(now + cfg.FloorSpan())];
        floor := floor.(stage := Judge.DirectStage);
        ResponseArmLocked(now, brake.ref, brake.refOk);
        RearmLocked();
      }
    }

    method Publish()
      requires Valid()
      modifies this`slots
      ensures Valid() && View() == DirectPublish(old(View()))
    {
      for i := 0 to SLOTS
        invariant Valid()
        invariant forall j | 0 <= j < SLOTS :: slots[j] == if j < i then Called(old(slots)[j]) else old(slots)[j]
      {
        if Owns(slots[i]) {
          slots := slots[i := slots[i].(calls := slots[i].calls + 1)];
        }
      }
    }

    /** A slot that was resumed is published at once. */
    method Watch(now: int)
      requires Valid()
      modifies this
      ensures Valid()
      ensures var s, w := old(View()), DirectWatch(old(View()), now);
              View() == if w.slots != s.slots then w.(directNext := now) else w
    {
      var h := ResumeOne(HANDLER, now);
      var o := ResumeOne(OPERATOR, now);
      if h || o {
        directNext := now;
      }
    }

    method Service(now: int)
      requires Valid()
      modifies this
      ensures Valid() && View() == DirectService(old(View()), now)
    {
      Watch(now);
      if (Owns(slots[HANDLER]) || Owns(slots[OPERATOR])) && now >= directNext {
        Publish();
        directNext := now + cfg.directPeriodMs;
      }
    }

    method NextWait(now: int) returns (next: Option<int>)
      requires Valid()
      ensures next == LatchedWait(View(), now)
    {
      next := None;
      if !latched {
        return;
      }
      if Owns(slots[HANDLER]) || Owns(slots[OPERATOR]) {
        next := Some(directNext);
      }
      for i := 0 to SLOTS
        invariant i == 0 ==> next == if Pending(View()) then Some(directNext) else None
        invariant i == 1 ==> next == WatchDue(View(), if Pending(View()) then Some(directNext) else None, slots[HANDLER], now)
        invariant i == 2 ==>
                    next == WatchDue(View(), WatchDue(View(), if Pending(View()) then Some(directNext) else None,
                                                      slots[HANDLER], now), slots[OPERATOR], now)
      {
        if Watched(slots[i]) {
          next := Min(next, ResumeDue(View(), slots[i], now));
        }
      }
      if thread.swtRunning {
        next := Min(next, now + cfg.swtMs / 4);
      }
    }

    /** The reaction thread woken by its semaphore. */
    method OnWake(now: int, left: nat, nowUs: int)
      requires Valid()
      modifies this
      ensures Valid() && View() == WakeStep(old(View()), now, left, nowUs)
    {
      thread := thread.(wake := false);
      ReactLocked(now, left, nowUs);
      OnTimeout(now);
    }

    /** The reaction thread's own wait ran out (and the tail of every wake). */
    method OnTimeout(now: int)
      requires Valid()
      modifies this
      ensures Valid() && View() == TimeoutStep(old(View()), now)
    {
      if latched {
        Service(now);
      }
      var next := NextWait(now);
      thread := thread.(waitUntil := next);
    }

    // ---------------------------------------------------------------- the executor's side

    method Handover(slot: nat, period: nat, now: int) returns (yours: bool)
      requires Valid()
      modifies this`slots, this`thread
      ensures Valid() && View() == ReportStep(old(View()), now, slot, period)
      ensures yours == Holds(old(View()), slot)
    {
      if slot >= SLOTS || !latched {
        return false;
      }
      var x := slots[slot];
      SlotsUpdate(slots, slot, x.(alive := Trunc32(now), period := period, handover := true));
      if x.resumed {
        return false;
      }
      slots := slots[slot := x.(alive := Trunc32(now), period := period)];
      if !x.handover {
        slots := slots[slot := slots[slot].(handover := true)];
        thread := thread.(wake := true);
      }
      return true;
    }

    method ReactionHook()
      requires Valid()
      modifies this`thread
      ensures Valid() && View() == Step(old(View()), 0, Event.Hook)
    {
      thread := thread.(hook := true, wake := true);
    }

    method SwtFirstTimeout()
      requires Valid()
      modifies this`thread
      ensures Valid() && View() == Step(old(View()), 0, SwtFire)
    {
      thread := thread.(swt := true, wake := true);
    }
  }
}
