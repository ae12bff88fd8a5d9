/** Which behaviour a tick calls, which requests it makes for it, and which routes follow them. */
module BehaviorChoice {
  import opened Words
  import opened HandlerSpec
  import opened HandlerRuns
  import S = SupervisorSpec

  /** A RUN tick that finds a fault with no input lost. */
  predicate PlainFault(h: Handler, now: int, r: Read)
  {
    var s := Sensed(h, now, r.latched);
    RunsAt(h, now) && Emergency(s) && !InputLost(s)
  }

  /** The comfortable stop may run: the availability stream says so, and it is in use. */
  predicate Comfort(h: Handler) { h.inp.availability.comfortableStop && h.p.useComfortable }

  predicate PullsOver(h: Handler) { h.inp.availability.pullOver && h.p.usePullOver }

  /** The last odometry reads zero. */
  predicate Halted(h: Handler) { h.inp.speed == Some(0) }

  const COMFORT: Request := Request(ComfortableStop, true)
  const EMERGENCY: Request := Request(EmergencyStop, true)

  function ComfortRoute(p: Params): Call { ArmIn(S.COMFORTABLE, p.comfortableMs + p.observeMs) }

  function FloorRoute(p: Params): Call { ArmIn(S.FLOOR, p.emergencyMs + p.observeMs) }

  /** A tick's outcome: the state it leaves, its requests, and its supervisor calls before the closing ones. */
  datatype Turn = Turn(mrm: Mrm, tried: seq<Request>, calls: seq<Call>)

  /** The emergency stop in place of what failed, after `tried` and `calls`. */
  function Fallback(p: Params, o: Outcome, tried: seq<Request>, calls: seq<Call>): Turn
  {
    match o
    case Sent => Turn(Mrm(Operating, EmergencyStop), tried + [EMERGENCY], calls + [FloorRoute(p)])
    case Refused => Turn(Mrm(Failed, EmergencyStop), tried + [EMERGENCY], calls + [FloorRoute(p)])
    case Unserialised => Turn(Mrm(Failed, EmergencyStop), tried, calls)
  }

  /** The emergency stop called, after `tried` and `calls`. */
  function CallsEmergency(p: Params, s: Sends, tried: seq<Request>, calls: seq<Call>): Turn
  {
    match s.call
    case Sent => Turn(Mrm(Operating, EmergencyStop), tried + [EMERGENCY], calls + [FloorRoute(p)])
    case Refused => Fallback(p, s.emergency, tried + [EMERGENCY], calls + [FloorRoute(p)])
    case Unserialised => Fallback(p, s.emergency, tried, calls)
  }

  /** The comfortable stop called from no behaviour. */
  function CallsComfort(p: Params, s: Sends): Turn
  {
    match s.call
    case Sent => Turn(Mrm(Operating, ComfortableStop), [COMFORT], [ComfortRoute(p)])
    case Refused => Fallback(p, s.emergency, [COMFORT], [])
    case Unserialised => Fallback(p, s.emergency, [], [])
  }

  /** What every RUN tick ends with: route 0 is met once the stream is stale, and a tick that read the latch reports itself alive. */
  function Closing(h: Handler, now: int, r: Read): seq<Call>
  {
    (if now - h.stamp > h.p.maxAge then [Finish(S.CALL_MRM)] else []) + (if r.latched then [Alive(S.HANDLER, h.p.periodMs)] else [])
  }

  predicate Turns(h: Handler, now: int, r: Read, t: Turn)
  {
    var o := Tick(h, now, r);
    o.h.mrm == t.mrm && o.tried == t.tried && o.calls == t.calls + Closing(h, now, r)
  }

  predicate Yields(o: Out, t: Turn) { o.h.mrm == t.mrm && o.tried == t.tried && o.calls == t.calls }

  lemma TickTurns(h: Handler, now: int, r: Read, t: Turn)
    requires RunsAt(h, now)
    requires Yields(Decide(Sensed(h, now, r.latched), now, r.fault, r.sends), t)
    ensures Turns(h, now, r, t)
  {
  }

  // ------------------------------------------------------------------ an MRM starts

  /** What a fault starts. */
  function Starts(h: Handler, s: Sends): Turn
  {
    if s.cancel.Unserialised? || PullsOver(h) then Fallback(h.p, s.emergency, [], [])
    else if Comfort(h) then CallsComfort(h.p, s)
    else CallsEmergency(h.p, s, [], [])
  }

  lemma OperateFromNone(h: Handler, s: Sends)
    requires h.mrm == Mrm(Operating, NoBehavior) && !InputLost(h)
    ensures Yields(Operate(h, s), Starts(h, s))
  {
    assert Operate(h, s) == (if s.cancel.Unserialised? then FailedRequest(h, s.emergency) else CallNext(h, CurrentBehavior(h), s)) by {
      NothingBefore(if s.cancel.Unserialised? then FailedRequest(h, s.emergency) else CallNext(h, CurrentBehavior(h), s));
    }
    if CurrentBehavior(h).EmergencyStop? { EmergencyIsCalled(h, s); }
  }

  lemma NothingBefore(o: Out)
    ensures After([], [], o) == o
  {
  }

  /**
   * The behaviour a fault starts. With no input lost, a tick that starts an MRM calls the comfortable stop exactly when
   * it is available and in use, and the emergency stop otherwise; a pull-over, where it is offered and in use, is never
   * accepted and falls to the emergency stop, and so does a call that does not get out, with MRM_FAILED if that does not
   * either. Route 2 is armed exactly with a comfortable request that was sent, route 3 with every emergency request.
   */
  lemma StartsBehavior(h: Handler, now: int, r: Read)
    requires Coherent(h.mrm) && h.mrm.state.Normal? && PlainFault(h, now, r)
    requires !Tick(h, now, r).h.mrm.state.Normal?
    ensures Turns(h, now, r, Starts(h, r.sends))
  {
    var s := Sensed(h, now, r.latched);
    TickIsDecision(h, now, r);
    StartDecided(s, now, r);
    TickTurns(h, now, r, Starts(h, r.sends));
  }

  lemma StartDecided(s: Handler, now: int, r: Read)
    requires Coherent(s.mrm) && s.mrm.state.Normal? && Emergency(s) && !InputLost(s)
    requires !Decide(s, now, r.fault, r.sends).h.mrm.state.Normal?
    ensures Yields(Decide(s, now, r.fault, r.sends), Starts(s, r.sends))
  {
    var u := UpdateState(s, now, r.fault);
    if u.h.mrm.state.Normal? {
      Operated(u.h, r.sends);
      assert false;
    }
    assert u.h.mrm == Mrm(Operating, NoBehavior) && u.calls == [] && u.tried == [];
    OperateFromNone(u.h, r.sends);
  }

  /** A driver in control of the vehicle has no request, and no MRM starts. */
  lemma DriverInControl(h: Handler, now: int, r: Read)
    requires Coherent(h.mrm) && h.mrm.state.Normal? && RunsAt(h, now) && h.inp.control != Some(AutonomousControl) && !(r.latched && r.fault)
    ensures !Tick(h, now, r).h.takeover.requested && Tick(h, now, r).h.mrm == h.mrm
  {
    var s := Sensed(h, now, r.latched);
    TickIsDecision(h, now, r);
    Decided(s, now, r.fault, r.sends);
    Operated(UpdateState(s, now, r.fault).h, r.sends);
  }

  /** The driver has time: the request is in use and has not run out, in the ADS's own mode and with no input lost. */
  predicate DriverHasTime(h: Handler, now: int)
  {
    && h.p.useTakeover && !h.takeover.expired && h.inp.mode == Some(Autonomous)
    && (h.takeover.requested ==> now - h.takeover.since < h.p.takeoverTimeout)
  }

  /** From NORMAL a fault starts an MRM exactly in autonomous control and, unless an input is lost, when the driver's time is up. */
  lemma StartsExactly(h: Handler, now: int, r: Read)
    requires Coherent(h.mrm) && h.mrm.state.Normal? && RunsAt(h, now) && Emergency(Sensed(h, now, r.latched)) && !(r.latched && r.fault)
    ensures !Tick(h, now, r).h.mrm.state.Normal? <==>
              InAutonomousControl(h) && (InputLost(Sensed(h, now, r.latched)) || !DriverHasTime(h, now))
  {
    var s := Sensed(h, now, r.latched);
    TickIsDecision(h, now, r);
    Operated(UpdateState(s, now, r.fault).h, r.sends);
  }

  // ------------------------------------------------------------------ an MRM goes on

  /** A comfortable stop that is no longer the choice. */
  function LeavesComfort(p: Params, s: Sends): Turn
  {
    match s.cancel
    case Sent => CallsEmergency(p, s, [Request(ComfortableStop, false)], [Finish(S.COMFORTABLE)])
    case Refused => Fallback(p, s.emergency, [Request(ComfortableStop, false)], [])
    case Unserialised => Fallback(p, s.emergency, [], [])
  }

  /** At standstill a pull-over that is offered and in use takes over, in vain. */
  predicate Diverts(h: Handler) { Halted(h) && PullsOver(h) }

  lemma ComfortStays(h: Handler, s: Sends)
    requires h.mrm == Mrm(Operating, ComfortableStop) && (InputLost(h) || !Diverts(h)) && Comfort(h) && !InputLost(h)
    ensures Yields(Operate(h, s), Turn(h.mrm, [], []))
  {
  }

  lemma ComfortIsLeft(h: Handler, s: Sends)
    requires h.mrm == Mrm(Operating, ComfortableStop) && (InputLost(h) || !Diverts(h)) && !(Comfort(h) && !InputLost(h))
    ensures Yields(Operate(h, s), LeavesComfort(h.p, s))
  {
    if s.cancel.Sent? { ComfortCancelled(h, s); } else { ComfortStuck(h, s); }
  }

  lemma ComfortCancelled(h: Handler, s: Sends)
    requires h.mrm == Mrm(Operating, ComfortableStop) && (InputLost(h) || !Diverts(h)) && !(Comfort(h) && !InputLost(h)) && s.cancel.Sent?
    ensures Yields(Operate(h, s), CallsEmergency(h.p, s, [Request(ComfortableStop, false)], [Finish(S.COMFORTABLE)]))
  {
    EmergencyIsCalled(h, s);
    Prefixed(h.p, s, [Request(ComfortableStop, false)], [Finish(S.COMFORTABLE)]);
    var c := CallNext(h, EmergencyStop, s);
    assert Operate(h, s) == Out(c.h, [Request(ComfortableStop, false)] + c.tried, [Finish(S.COMFORTABLE)] + c.calls);
  }

  lemma ComfortStuck(h: Handler, s: Sends)
    requires h.mrm == Mrm(Operating, ComfortableStop) && (InputLost(h) || !Diverts(h)) && !(Comfort(h) && !InputLost(h)) && !s.cancel.Sent?
    ensures Yields(Operate(h, s), Fallback(h.p, s.emergency, if s.cancel.Refused? then [Request(ComfortableStop, false)] else [], []))
  {
    var f := FailedRequest(h, s.emergency);
    assert Operate(h, s) == Out(f.h, (if s.cancel.Refused? then [Request(ComfortableStop, false)] else []) + f.tried, [] + f.calls);
  }

  lemma Prefixed(p: Params, s: Sends, tried: seq<Request>, calls: seq<Call>)
    ensures var x := CallsEmergency(p, s, [], []);
            CallsEmergency(p, s, tried, calls) == Turn(x.mrm, tried + x.tried, calls + x.calls)
  {
  }

  lemma EmergencyIsCalled(h: Handler, s: Sends)
    requires h.mrm.state.Operating?
    ensures Yields(CallNext(h, EmergencyStop, s), CallsEmergency(h.p, s, [], []))
  {
  }

  /**
   * A comfortable stop on its way stays exactly while it is available and in use and no input is lost; otherwise it is
   * cancelled and the emergency stop called in its place, and a cancel that does not get out brings it too.
   */
  lemma ComfortGoesOn(h: Handler, now: int, r: Read)
    requires h.mrm == Mrm(Operating, ComfortableStop) && RunsAt(h, now) && Emergency(Sensed(h, now, r.latched))
    requires !(r.latched && r.fault) && !Halted(h)
    ensures Turns(h, now, r,
              if Comfort(h) && !InputLost(Sensed(h, now, r.latched)) then Turn(h.mrm, [], []) else LeavesComfort(h.p, r.sends))
  {
    var s := Sensed(h, now, r.latched);
    TickIsDecision(h, now, r);
    ComfortDecided(s, now, r);
    TickTurns(h, now, r, if Comfort(s) && !InputLost(s) then Turn(s.mrm, [], []) else LeavesComfort(s.p, r.sends));
  }

  lemma ComfortDecided(s: Handler, now: int, r: Read)
    requires s.mrm == Mrm(Operating, ComfortableStop) && Emergency(s) && !(s.latchSeen && r.fault) && !Halted(s)
    ensures Yields(Decide(s, now, r.fault, r.sends),
                   if Comfort(s) && !InputLost(s) then Turn(s.mrm, [], []) else LeavesComfort(s.p, r.sends))
  {
    if Comfort(s) && !InputLost(s) { ComfortStays(s, r.sends); } else { ComfortIsLeft(s, r.sends); }
    assert UpdateState(s, now, r.fault) == Out(s, [], []);
  }

  /** What runs is cancelled for a pull-over, which falls to the emergency stop. */
  function FallsBack(p: Params, s: Sends, b: Behavior): Turn
  {
    Fallback(p, s.emergency, if s.cancel.Unserialised? then [] else [Request(b, false)],
             if b.EmergencyStop? then (if s.cancel.Unserialised? then [] else [Finish(S.FLOOR)])
             else if s.cancel.Sent? then [Finish(S.COMFORTABLE)] else [])
  }

  lemma Diverted(h: Handler, s: Sends)
    requires h.mrm.state.Operating? && (h.mrm.behavior.ComfortableStop? || h.mrm.behavior.EmergencyStop?) && Diverts(h) && !InputLost(h)
    ensures Yields(Operate(h, s), FallsBack(h.p, s, h.mrm.behavior))
  {
    var f := FailedRequest(h, s.emergency);
    assert CallNext(h, PullOver, s) == Out(f.h, [] + f.tried, [] + f.calls);
  }

  /** What becomes of a stop that has ended. */
  function Held(h: Handler, lost: bool, s: Sends): Turn
  {
    if !lost && Diverts(h) then FallsBack(h.p, s, h.mrm.behavior)
    else if h.mrm.behavior.EmergencyStop? || (Comfort(h) && !lost) then Turn(h.mrm, [], [])
    else LeavesComfort(h.p, s)
  }

  /**
   * A stop that has ended: the comfortable stop holds while it is available and in use and no input is lost, and is left
   * like one on its way; the emergency stop holds; but a pull-over that is offered and in use has either of them
   * cancelled, and falls to the emergency stop.
   */
  lemma StopHolds(h: Handler, now: int, r: Read)
    requires Coherent(h.mrm) && h.mrm.state.Succeeded? && RunsAt(h, now) && Emergency(Sensed(h, now, r.latched))
    requires !(r.latched && r.fault)
    ensures Turns(h, now, r, Held(h, InputLost(Sensed(h, now, r.latched)), r.sends))
  {
    var s := Sensed(h, now, r.latched);
    TickIsDecision(h, now, r);
    HoldDecided(s, now, r);
    TickTurns(h, now, r, Held(s, InputLost(s), r.sends));
  }

  lemma HoldDecided(s: Handler, now: int, r: Read)
    requires Coherent(s.mrm) && s.mrm.state.Succeeded? && Emergency(s) && !(s.latchSeen && r.fault)
    ensures Yields(Decide(s, now, r.fault, r.sends), Held(s, InputLost(s), r.sends))
  {
    HoldUpdates(s, now, r.fault);
    var o := WithState(s, Operating);
    if !InputLost(s) && Diverts(s) { Diverted(o, r.sends); }
    else if s.mrm.behavior.ComfortableStop? && !(Comfort(s) && !InputLost(s)) { ComfortIsLeft(o, r.sends); }
  }

  lemma HoldUpdates(s: Handler, now: int, fault: bool)
    requires Coherent(s.mrm) && s.mrm.state.Succeeded? && Emergency(s) && !(s.latchSeen && fault)
    ensures var stays := (InputLost(s) || !Diverts(s)) && (s.mrm.behavior.EmergencyStop? || (Comfort(s) && !InputLost(s)));
            UpdateState(s, now, fault) == Out(if stays then s else WithState(s, Operating), [], [])
  {
  }

  /** An MRM under the emergency stop makes no more requests while the fault lasts and the vehicle moves. */
  lemma EmergencyGoesOn(h: Handler, now: int, r: Read)
    requires h.mrm.behavior.EmergencyStop? && Coherent(h.mrm) && PlainFault(h, now, r) && !Halted(h)
    ensures Tick(h, now, r).tried == [] && Tick(h, now, r).h.mrm.behavior.EmergencyStop?
  {
    TickIsDecision(h, now, r);
    Updated(Sensed(h, now, r.latched), now, r.fault);
  }

  /** MRM_FAILED holds, with no request, until the fault ends. */
  lemma FailedHolds(h: Handler, now: int, r: Read)
    requires Coherent(h.mrm) && h.mrm.state.Failed? && RunsAt(h, now) && Emergency(Sensed(h, now, r.latched))
    ensures Turns(h, now, r, Turn(h.mrm, [], []))
  {
    TickIsDecision(h, now, r);
  }

  /** A tick that reads the latch and the vehicle fault reports MRM_FAILED in the emergency stop, and asks for nothing. */
  lemma FaultFails(h: Handler, now: int, r: Read)
    requires RunsAt(h, now) && r.latched && r.fault
    ensures Turns(h, now, r, Turn(Mrm(Failed, EmergencyStop), [], []))
  {
    TickIsDecision(h, now, r);
  }

  // ------------------------------------------------------------------ an MRM ends

  /** The standstill ends the running stop: MRM_SUCCEEDED, and its route is met. */
  lemma StandstillSucceeds(h: Handler, now: int, r: Read)
    requires Coherent(h.mrm) && h.mrm.state.Operating? && RunsAt(h, now) && Emergency(Sensed(h, now, r.latched))
    requires Halted(h) && !(r.latched && r.fault)
    ensures Turns(h, now, r, Turn(Mrm(Succeeded, h.mrm.behavior), [],
              [Finish(if h.mrm.behavior.ComfortableStop? then S.COMFORTABLE else S.FLOOR)]))
  {
    TickIsDecision(h, now, r);
  }

  /** The fault's end also ends the driver's window: the next fault gets a fresh one. */
  lemma FreshWindow(h: Handler, now: int, r: Read)
    requires Coherent(h.mrm) && RunsAt(h, now) && !Emergency(Sensed(h, now, r.latched))
    ensures !Tick(h, now, r).h.takeover.requested && !Tick(h, now, r).h.takeover.expired
  {
    TickIsDecision(h, now, r);
    Decided(Sensed(h, now, r.latched), now, r.fault, r.sends);
  }

  /** The fault's end cancels what runs: back to NORMAL, its route cleared with the cancel; a cancel that fails brings the emergency stop. */
  lemma FaultEnds(h: Handler, now: int, r: Read)
    requires Coherent(h.mrm) && RunsAt(h, now) && !Emergency(Sensed(h, now, r.latched))
    ensures var b := h.mrm.behavior;
            var o := r.sends.cancel;
            Turns(h, now, r,
              if b.NoBehavior? then Turn(h.mrm, [], [])
              else
                var calls := if b.EmergencyStop? then (if o.Unserialised? then [] else [Finish(S.FLOOR)])
                             else if o.Sent? then [Finish(S.COMFORTABLE)] else [];
                var tried := if o.Unserialised? then [] else [Request(b, false)];
                if o.Sent? then Turn(Mrm(Normal, NoBehavior), tried, calls) else Fallback(h.p, r.sends.emergency, tried, calls))
  {
    TickIsDecision(h, now, r);
  }
}
