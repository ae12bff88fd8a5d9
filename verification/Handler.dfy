/** The MRM handler as it runs: its callbacks and its tick update its fields and call the supervisor. */
module HandlerClass {
  import opened Words
  import opened HandlerSpec
  import S = SupervisorSpec
  import opened SupervisorClass

  /** The supervisor after `calls`, all on the clock `now`. */
  function Apply(s: S.State, calls: seq<Call>, now: int): S.State
    decreases |calls|
  {
    if calls == [] then s else Apply(S.Step(s, now, Event(calls[0], now)), calls[1..], now)
  }

  lemma {:induction false} ApplyAll(s: S.State, a: seq<Call>, b: seq<Call>, now: int)
    ensures Apply(s, a + b, now) == Apply(Apply(s, a, now), b, now)
    decreases |a|
  {
    if a == [] {
      assert a + b == b;
    } else {
      assert (a + b)[0] == a[0] && (a + b)[1..] == a[1..] + b;
      ApplyAll(S.Step(s, now, Event(a[0], now)), a[1..], b, now);
    }
  }

  lemma ApplyOne(s: S.State, c: Call, now: int)
    ensures Apply(s, [c], now) == S.Step(s, now, Event(c, now))
  {
  }

  class MrmHandler {
    const p: Params
    var inp: Inputs
    var streams: Streams
    var life: Life
    var stamp: int
    var timedOut: bool
    var latchSeen: bool
    var holding: Holding
    var takeover: Takeover
    var mrm: Mrm

    function View(): Handler
      reads this
    {
      Handler(p, inp, streams, life, stamp, timedOut, latchSeen, holding, takeover, mrm)
    }

    constructor (p: Params, now: int)
      ensures View() == Boot(p, now)
    {
      this.p := p;
      inp := Inputs(NOTHING, false, false, false, None, None, None);
      streams := Streams(Arrivals(0, 0, 0), Arrivals(0, 0, 0), Arrivals(0, 0, 0));
      life, stamp := Life(now, Init, false, 0), now;
      timedOut, latchSeen := false, false;
      holding, takeover := Holding(None, false), Takeover(false, false, 0);
      mrm := Mrm(Normal, NoBehavior);
    }

    // ---------------------------------------------------------------- the callbacks

    method OnOperationModeAvailability(sup: Supervisor, a: Availability, now: int)
      requires sup.Valid()
      modifies this, sup
      ensures sup.Valid() && View() == OnAvailability(old(View()), now, a)
      ensures sup.View() == Apply(old(sup.View()), TakeCalls(old(View())), now)
    {
      stamp := now;
      if life.monitorsAt != 0 {
        ApplyOne(sup.View(), ArmIn(S.CALL_MRM, p.maxAge + p.callMrmMs), now);
        sup.Arm(S.CALL_MRM, now + p.maxAge + p.callMrmMs, now);
      }
      streams := streams.(availability := streams.availability.Note(now));
      inp := inp.(availability := a, heardAvailability := true);
      HoldEmergency(now);
    }

    method HoldEmergency(now: int)
      modifies this`holding
      ensures View() == HoldingStep(old(View()), now)
    {
      if !p.useHolding || holding.held {
        return;
      }
      if Available(View()) {
        holding := holding.(since := None);
        return;
      }
      if holding.since.None? {
        holding := holding.(since := Some(now));
      }
      holding := holding.(held := now - holding.since.value > p.recovery);
    }

    method OnOdometry(sup: Supervisor, speed: nat, now: int)
      requires sup.Valid()
      modifies this`inp, sup
      ensures sup.Valid() && View() == Next(old(View()), now, Odometry(speed)).h
      ensures sup.View() == S.Step(old(sup.View()), now, S.NoteSpeed(speed))
    {
      inp := inp.(speed := Some(speed));
      sup.NoteSpeed(speed, now);
    }

    method OnControlMode(c: Control, now: int)
      modifies this`inp
      ensures View() == Next(old(View()), now, ControlMode(c)).h
    {
      inp := inp.(control := Some(c));
    }

    method OnOperationModeState(m: Mode, now: int)
      modifies this`inp
      ensures View() == Next(old(View()), now, OperationMode(m)).h
    {
      inp := inp.(mode := Some(m));
    }

    method OnComfortableStopStatus(available: bool, now: int)
      modifies this`inp, this`streams
      ensures View() == OnComfortableStatus(old(View()), now, available)
    {
      inp := inp.(heardComfortable := true);
      if available {
        streams := streams.(comfortable := streams.comfortable.Note(now));
      } else {
        streams := streams.(comfortable := streams.comfortable.Reset());
      }
    }

    method OnEmergencyStopStatus(available: bool, now: int)
      modifies this`inp, this`streams
      ensures View() == OnEmergencyStatus(old(View()), now, available)
    {
      inp := inp.(heardEmergency := true);
      if available {
        streams := streams.(emergency := streams.emergency.Note(now));
      } else {
        streams := streams.(emergency := streams.emergency.Reset());
      }
    }

    // ---------------------------------------------------------------- the tick

    /** Whether the state machine runs this tick. */
    method UpdatePhase(now: int) returns (runs: bool, mark: Mark)
      modifies this`life
      ensures View() == PhaseStep(old(View()), now) && mark == PhaseMark(old(View()), now)
      ensures runs == View().life.phase.Run?
    {
      mark := NoMark;
      var pending := !AllEstablished(View(), now);
      if life.phase.Run? {
        if life.failed && !pending {
          life := life.(failed := false, monitorsAt := Trunc32(now));
          mark := InitRecovery;
        }
        return true, mark;
      }
      if !pending {
        life := life.(phase := Run, monitorsAt := Trunc32(now));
        return true, InitDone;
      }
      if now - life.boot >= p.initTimeout {
        life := life.(phase := Run, failed := true);
        return true, InitTimeout;
      }
      return false, mark;
    }

    method UpdateTakeoverRequest(now: int) returns (wait: bool)
      modifies this`takeover
      ensures View() == old(View()).(takeover := TakeoverStep(old(View()), now).0)
      ensures wait == TakeoverStep(old(View()), now).1
    {
      if !InAutonomousControl(View()) {
        if takeover.requested { takeover := takeover.(requested := false); }
        return false;
      }
      if !p.useTakeover || takeover.expired || CurrentMode(View()) != Autonomous {
        return false;
      }
      if InputLost(View()) {
        if takeover.requested { takeover := takeover.(requested := false); }
        return false;
      }
      if !takeover.requested {
        takeover := takeover.(requested := true, since := now);
        return true;
      }
      if now - takeover.since < p.takeoverTimeout {
        return true;
      }
      takeover := takeover.(expired := true, requested := false);
      return false;
    }

    method UpdateMrmState(sup: Supervisor, now: int, fault: bool)
      requires sup.Valid()
      modifies this`takeover, this`mrm, sup
      ensures sup.Valid() && View() == UpdateState(old(View()), now, fault).h
      ensures sup.View() == Apply(old(sup.View()), UpdateState(old(View()), now, fault).calls, now)
    {
      if latchSeen && fault {
        mrm := Mrm(Failed, EmergencyStop);
        return;
      }
      if !Emergency(View()) {
        takeover := takeover.(requested := false, expired := false);
        mrm := mrm.(state := Normal);
        return;
      }
      match mrm.state
      case Normal =>
        var wait := UpdateTakeoverRequest(now);
        if !wait && InAutonomousControl(View()) {
          mrm := mrm.(state := Operating);
        }
      case Operating =>
        if AtStandstill(View()) {
          if mrm.behavior.ComfortableStop? {
            ApplyOne(sup.View(), Finish(S.COMFORTABLE), now);
            sup.Done(S.COMFORTABLE);
          }
          if mrm.behavior.EmergencyStop? {
            ApplyOne(sup.View(), Finish(S.FLOOR), now);
            sup.Done(S.FLOOR);
          }
          if !mrm.behavior.PullOver? || inp.mode == Some(StopMode) {
            mrm := mrm.(state := Succeeded);
          }
        }
      case Succeeded =>
        if mrm.behavior != CurrentBehavior(View()) {
          mrm := mrm.(state := Operating);
        }
      case Failed =>
    }

    /** One request: route 3 is armed or cleared before the send, route 2 after a send that went out. */
    method RequestMrmBehavior(sup: Supervisor, b: Behavior, operate: bool, o: Outcome, now: int) returns (ok: bool, tried: seq<Request>)
      requires sup.Valid()
      modifies sup
      ensures sup.Valid() && ok == Accepted(b, o) && tried == Tried(b, operate, o)
      ensures sup.View() == Apply(old(sup.View()), RequestCalls(p, b, operate, o), now)
    {
      if o.Unserialised? {
        return false, [];
      }
      match b
      case NoBehavior => return true, [];
      case PullOver => return false, [];
      case EmergencyStop =>
        ApplyOne(sup.View(), if operate then ArmIn(S.FLOOR, p.emergencyMs + p.observeMs) else Finish(S.FLOOR), now);
        if operate { sup.Arm(S.FLOOR, now + p.emergencyMs + p.observeMs, now); } else { sup.Done(S.FLOOR); }
        return o.Sent?, [Request(b, operate)];
      case ComfortableStop =>
        if !o.Sent? {
          return false, [Request(b, operate)];
        }
        ApplyOne(sup.View(), if operate then ArmIn(S.COMFORTABLE, p.comfortableMs + p.observeMs) else Finish(S.COMFORTABLE), now);
        if operate { sup.Arm(S.COMFORTABLE, now + p.comfortableMs + p.observeMs, now); } else { sup.Done(S.COMFORTABLE); }
        return true, [Request(b, operate)];
    }

    method HandleFailedRequest(sup: Supervisor, o: Outcome, now: int) returns (tried: seq<Request>)
      requires sup.Valid()
      modifies this`mrm, sup
      ensures sup.Valid() && View() == FailedRequest(old(View()), o).h && tried == FailedRequest(old(View()), o).tried
      ensures sup.View() == Apply(old(sup.View()), FailedRequest(old(View()), o).calls, now)
    {
      var ok;
      ok, tried := RequestMrmBehavior(sup, EmergencyStop, true, o, now);
      if ok {
        mrm := mrm.(state := Operating);
      } else {
        mrm := mrm.(state := Failed);
      }
      mrm := mrm.(behavior := EmergencyStop);
    }

    method OperateMrm(sup: Supervisor, sends: Sends, now: int) returns (tried: seq<Request>)
      requires sup.Valid()
      modifies this`mrm, sup
      ensures sup.Valid() && View() == Operate(old(View()), sends).h && tried == Operate(old(View()), sends).tried
      ensures sup.View() == Apply(old(sup.View()), Operate(old(View()), sends).calls, now)
    {
      if mrm.state.Succeeded? || mrm.state.Failed? {
        return [];
      }
      var next := if mrm.state.Normal? then NoBehavior else CurrentBehavior(View());
      if next == mrm.behavior {
        return [];
      }
      ghost var was := sup.View();
      ghost var cancels := RequestCalls(p, mrm.behavior, false, sends.cancel);
      var ok, cancelled := RequestMrmBehavior(sup, mrm.behavior, false, sends.cancel, now);
      var more: seq<Request> := [];
      if !ok {
        ApplyAll(was, cancels, FailedRequest(View(), sends.emergency).calls, now);
        more := HandleFailedRequest(sup, sends.emergency, now);
      } else if mrm.state.Normal? {
        ApplyAll(was, cancels, [], now);
        mrm := mrm.(behavior := NoBehavior);
      } else {
        ApplyAll(was, cancels, CallNext(View(), next, sends).calls, now);
        more := CallBehavior(sup, next, sends, now);
      }
      tried := cancelled + more;
    }

    method CallBehavior(sup: Supervisor, next: Behavior, sends: Sends, now: int) returns (tried: seq<Request>)
      requires sup.Valid()
      modifies this`mrm, sup
      ensures sup.Valid() && View() == CallNext(old(View()), next, sends).h && tried == CallNext(old(View()), next, sends).tried
      ensures sup.View() == Apply(old(sup.View()), CallNext(old(View()), next, sends).calls, now)
    {
      ghost var was := sup.View();
      ghost var calls := RequestCalls(p, next, true, sends.call);
      var ok, called := RequestMrmBehavior(sup, next, true, sends.call, now);
      var more: seq<Request> := [];
      if ok {
        ApplyAll(was, calls, [], now);
        mrm := mrm.(behavior := next);
      } else {
        ApplyAll(was, calls, FailedRequest(View(), sends.emergency).calls, now);
        more := HandleFailedRequest(sup, sends.emergency, now);
      }
      tried := called + more;
    }

    /** A RUN tick from its decision to its report. */
    method React(sup: Supervisor, fault: bool, sends: Sends, now: int) returns (tried: seq<Request>)
      requires sup.Valid()
      modifies this`takeover, this`mrm, sup
      ensures sup.Valid() && View() == Decide(old(View()), now, fault, sends).h && tried == Decide(old(View()), now, fault, sends).tried
      ensures sup.View() == Apply(old(sup.View()), Decide(old(View()), now, fault, sends).calls, now)
    {
      ghost var u := UpdateState(View(), now, fault);
      ApplyAll(sup.View(), u.calls, Operate(u.h, sends).calls, now);
      UpdateMrmState(sup, now, fault);
      tried := OperateMrm(sup, sends, now);
      assert u.tried + tried == tried;
    }

    method Close(sup: Supervisor, now: int)
      requires sup.Valid()
      modifies sup
      ensures sup.Valid() && sup.View() == Apply(old(sup.View()), ClosingCalls(View()), now)
    {
      ghost var done, alive := Finish(S.CALL_MRM), Alive(S.HANDLER, p.periodMs);
      ghost var was := sup.View();
      ApplyOne(was, done, now);
      ApplyOne(was, alive, now);
      ApplyAll(was, [done], [alive], now);
      ApplyOne(Apply(was, [done], now), alive, now);
      if timedOut { sup.Done(S.CALL_MRM); }
      if latchSeen { var _ := sup.Handover(S.HANDLER, p.periodMs, now); }
    }

    /** The timer tick, undisturbed: every call into the supervisor falls on the tick's own clock. */
    method OnTimer(sup: Supervisor, sends: Sends, now: int) returns (tried: seq<Request>)
      requires sup.Valid()
      modifies this`life, this`timedOut, this`latchSeen, this`takeover, this`mrm, sup
      ensures sup.Valid()
      ensures var r := Read(old(sup.latched), old(sup.fault.Fault?), sends);
              var t := Tick(old(View()), now, r);
              View() == t.h && tried == t.tried && sup.View() == Apply(old(sup.View()), t.calls, now)
    {
      var fault := sup.fault.Fault?;
      ghost var was := sup.View();
      var runs, _ := UpdatePhase(now);
      if !runs {
        return [];
      }
      timedOut := now - stamp > p.maxAge;
      latchSeen := sup.latched;
      ghost var s := View();
      ApplyAll(was, Decide(s, now, fault, sends).calls, ClosingCalls(s), now);
      tried := React(sup, fault, sends, now);
      ClosesSame(s, View());
      Close(sup, now);
    }
  }

  lemma ClosesSame(s: Handler, t: Handler)
    requires t.timedOut == s.timedOut && t.latchSeen == s.latchSeen && t.p == s.p
    ensures ClosingCalls(t) == ClosingCalls(s)
  {
  }
}
