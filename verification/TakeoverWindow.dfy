/** The takeover request: the driver's window, its expiry, and when the request outlives it. */
module TakeoverWindow {
  import opened Words
  import opened HandlerSpec
  import opened HandlerRuns

  /** The ODD exit: the availability withdraws the mode the ADS is driving in, and nothing else is wrong. */
  predicate OddExit(h: Handler, now: int, r: Read)
  {
    var s := Sensed(h, now, r.latched);
    && RunsAt(h, now) && Emergency(s) && !InputLost(s)
    && InAutonomousControl(h) && CurrentMode(h).Autonomous?
  }

  /** Every tick of `es[i..j]` reads the ODD exit. */
  ghost predicate Persists(hs: seq<Handler>, es: seq<Timed>, i: nat, j: nat)
    requires |hs| == |es| + 1 && i <= j <= |es|
  {
    forall k | i <= k < j && es[k].ev.OnTimer? :: OddExit(hs[k], es[k].at, es[k].ev.r)
  }

  /** The window is open since `w`. */
  predicate Waiting(h: Handler, w: int)
  {
    h.p.useTakeover && h.takeover == Takeover(true, false, w) && h.mrm == Mrm(Normal, NoBehavior)
  }

  /** The ODD exit, as a RUN tick senses it. */
  predicate SensedExit(s: Handler) { Emergency(s) && !InputLost(s) && InAutonomousControl(s) && CurrentMode(s).Autonomous? }

  lemma WaitingDecision(s: Handler, now: int, r: Read, w: int)
    requires Waiting(s, w) && SensedExit(s)
    ensures var t := Decide(s, now, r.fault, r.sends).h;
            && (now - w < s.p.takeoverTimeout ==> Waiting(t, w))
            && (now - w >= s.p.takeoverTimeout ==>
                  && t.takeover == Takeover(false, true, w)
                  && (t.mrm.state.Operating? || t.mrm.state.Failed?)
                  && (t.mrm.state.Failed? ==> !r.sends.emergency.Sent?))
  {
    var u := UpdateState(s, now, r.fault).h;
    assert u.takeover == TakeoverStep(s, now).0;
    Decided(s, now, r.fault, r.sends);
    if now - w >= s.p.takeoverTimeout {
      assert u.mrm == Mrm(Operating, NoBehavior);
    }
  }

  /** A tick in an open window: the handler waits, or the window expires and the MRM is called. */
  lemma WaitingTick(h: Handler, now: int, r: Read, w: int)
    requires Waiting(h, w) && OddExit(h, now, r)
    ensures var t := Tick(h, now, r).h;
            && (now - w < h.p.takeoverTimeout ==> Waiting(t, w))
            && (now - w >= h.p.takeoverTimeout ==>
                  && t.takeover == Takeover(false, true, w)
                  && (t.mrm.state.Operating? || t.mrm.state.Failed?)
                  && (t.mrm.state.Failed? ==> !r.sends.emergency.Sent?))
            && t.p == h.p
  {
    TickIsDecision(h, now, r);
    TickFrame(h, now, r);
    WaitingDecision(Sensed(h, now, r.latched), now, r, w);
  }

  lemma OpeningDecision(s: Handler, now: int, r: Read)
    requires s.mrm == Mrm(Normal, NoBehavior) && SensedExit(s) && s.p.useTakeover && !s.takeover.requested
    ensures var t := Decide(s, now, r.fault, r.sends).h;
            if s.takeover.expired then !t.mrm.state.Normal? else Waiting(t, now)
  {
    Decided(s, now, r.fault, r.sends);
  }

  /** A window opens on the first ODD-exit tick in NORMAL, unless one expired in this episode. */
  lemma WindowOpens(h: Handler, now: int, r: Read)
    requires h.mrm == Mrm(Normal, NoBehavior) && OddExit(h, now, r) && h.p.useTakeover && !h.takeover.requested
    ensures if h.takeover.expired then !Tick(h, now, r).h.mrm.state.Normal? else Waiting(Tick(h, now, r).h, now)
  {
    TickIsDecision(h, now, r);
    OpeningDecision(Sensed(h, now, r.latched), now, r);
  }

  lemma WaitingAt(hs: seq<Handler>, es: seq<Timed>, k: nat, w: int)
    requires HandlerRun(hs, es) && k < |es| && es[k].ev.OnTimer? && Waiting(hs[k], w) && OddExit(hs[k], es[k].at, es[k].ev.r)
    ensures hs[k + 1].p == hs[k].p
    ensures es[k].at - w < hs[k].p.takeoverTimeout ==> Waiting(hs[k + 1], w)
    ensures es[k].at - w >= hs[k].p.takeoverTimeout ==>
              && (hs[k + 1].mrm.state.Operating? || hs[k + 1].mrm.state.Failed?)
              && (hs[k + 1].mrm.state.Failed? ==> !es[k].ev.r.sends.emergency.Sent?)
              && hs[k + 1].takeover == Takeover(false, true, w)
  {
    assert StepAt(hs, es, k);
    WaitingTick(hs[k], es[k].at, es[k].ev.r, w);
  }

  /** Before the timeout the handler stays NORMAL with the request on, whatever else arrives. */
  lemma {:induction false} WindowHolds(hs: seq<Handler>, es: seq<Timed>, i: nat, j: nat, w: int)
    requires HandlerRun(hs, es) && i <= j <= |es| && Waiting(hs[i], w) && Persists(hs, es, i, j)
    requires forall k | i <= k < j && es[k].ev.OnTimer? :: es[k].at - w < hs[i].p.takeoverTimeout
    ensures Waiting(hs[j], w) && hs[j].p == hs[i].p
    decreases j
  {
    if i < j {
      WindowHolds(hs, es, i, j - 1, w);
      if es[j - 1].ev.OnTimer? { WaitingAt(hs, es, j - 1, w); } else { CallbackAt(hs, es, j - 1); }
    }
  }

  /**
   * The window opened at `w` lasts the whole timeout and not a tick longer: NORMAL with the request on
   * until the first tick at or after `w + takeoverTimeout`, which starts the MRM and drops the request.
   */
  lemma WindowExact(hs: seq<Handler>, es: seq<Timed>, i: nat, j: nat, w: int)
    requires HandlerRun(hs, es) && i <= j < |es| && Waiting(hs[i], w) && Persists(hs, es, i, j + 1)
    requires es[j].ev.OnTimer?
    requires forall k | i <= k < j && es[k].ev.OnTimer? :: es[k].at - w < hs[i].p.takeoverTimeout
    ensures Waiting(hs[j], w)
    ensures es[j].at - w < hs[i].p.takeoverTimeout ==> Waiting(hs[j + 1], w)
    ensures es[j].at - w >= hs[i].p.takeoverTimeout ==>
              && (hs[j + 1].mrm.state.Operating? || hs[j + 1].mrm.state.Failed?)
              && (hs[j + 1].mrm.state.Failed? ==> !es[j].ev.r.sends.emergency.Sent?)
              && hs[j + 1].takeover == Takeover(false, true, w)
  {
    WindowHolds(hs, es, i, j, w);
    WaitingAt(hs, es, j, w);
  }

  lemma ExpiredDecision(s: Handler, now: int, fault: bool)
    requires s.takeover.expired && !s.takeover.requested && Emergency(s)
    ensures UpdateState(s, now, fault).h.takeover == s.takeover
  {
  }

  lemma ExpiredTick(h: Handler, now: int, r: Read)
    requires Coherent(h.mrm) && h.takeover.expired && !h.takeover.requested && FaultTick(h, now, r)
    ensures Tick(h, now, r).h.takeover == h.takeover
  {
    TickFrame(h, now, r);
    if RunsAt(h, now) {
      TickIsDecision(h, now, r);
      ExpiredDecision(Sensed(h, now, r.latched), now, r.fault);
    }
  }

  /** After an expiry no second window opens until a tick finds the fault gone. */
  lemma {:induction false} NoSecondWindow(hs: seq<Handler>, es: seq<Timed>, i: nat, j: nat)
    requires HandlerRun(hs, es) && Episode(hs, es, i, j)
    requires hs[i].takeover.expired && !hs[i].takeover.requested
    ensures hs[j].takeover == hs[i].takeover
    decreases j
  {
    if i < j {
      NoSecondWindow(hs, es, i, j - 1);
      if es[j - 1].ev.OnTimer? { ExpiredAt(hs, es, j - 1); } else { CallbackAt(hs, es, j - 1); }
    }
  }

  lemma ExpiredAt(hs: seq<Handler>, es: seq<Timed>, k: nat)
    requires HandlerRun(hs, es) && k < |es| && es[k].ev.OnTimer? && FaultTick(hs[k], es[k].at, es[k].ev.r)
    requires hs[k].takeover.expired && !hs[k].takeover.requested
    ensures hs[k + 1].takeover == hs[k].takeover
  {
    CoherentAlways(hs, es, k);
    assert StepAt(hs, es, k);
    ExpiredTick(hs[k], es[k].at, es[k].ev.r);
  }

  // ------------------------------------------------------------------ a request that outlives its window

  /** The request is on while an MRM is out. */
  predicate Outlives(h: Handler) { h.takeover.requested && !h.mrm.state.Normal? }

  /** A request is on only where it is in use and has not expired. */
  predicate OneWindow(h: Handler) { h.takeover.requested ==> h.p.useTakeover && !h.takeover.expired }

  lemma {:induction false} OneWindowAlways(hs: seq<Handler>, es: seq<Timed>, k: nat)
    requires HandlerRun(hs, es) && k <= |es|
    ensures OneWindow(hs[k])
  {
    if k > 0 {
      OneWindowAlways(hs, es, k - 1);
      if es[k - 1].ev.OnTimer? { OneWindowAt(hs, es, k - 1); } else { CallbackAt(hs, es, k - 1); }
    }
  }

  lemma OneWindowAt(hs: seq<Handler>, es: seq<Timed>, k: nat)
    requires HandlerRun(hs, es) && k < |es| && es[k].ev.OnTimer? && OneWindow(hs[k])
    ensures OneWindow(hs[k + 1])
  {
    CoherentAlways(hs, es, k);
    assert StepAt(hs, es, k);
    OneWindowTick(hs[k], es[k].at, es[k].ev.r);
  }

  lemma OneWindowUpdate(h: Handler, now: int, fault: bool)
    requires OneWindow(h)
    ensures var t := UpdateState(h, now, fault).h.takeover; t.requested ==> h.p.useTakeover && !t.expired
  {
  }

  lemma OneWindowTick(h: Handler, now: int, r: Read)
    requires Coherent(h.mrm) && OneWindow(h)
    ensures OneWindow(Tick(h, now, r).h)
  {
    TickFrame(h, now, r);
    if RunsAt(h, now) { OneWindowUpdate(Sensed(h, now, r.latched), now, r.fault); }
  }

  /** The two early returns that leave the request on: the mode left AUTONOMOUS, or the vehicle fault is reported. */
  predicate ReturnsEarly(h: Handler, now: int, r: Read)
  {
    && RunsAt(h, now) && h.takeover.requested
    && (|| (r.latched && r.fault)
        || (Emergency(Sensed(h, now, r.latched)) && InAutonomousControl(h) && !CurrentMode(h).Autonomous?))
  }

  /** The same on the state decision. */
  lemma OutlivesDecision(s: Handler, now: int, fault: bool)
    requires Coherent(s.mrm) && !Outlives(s) && OneWindow(s)
    ensures var u := UpdateState(s, now, fault).h;
            && (Outlives(u) <==>
                  && s.takeover.requested
                  && ((s.latchSeen && fault) || (Emergency(s) && InAutonomousControl(s) && !CurrentMode(s).Autonomous?)))
            && (u.takeover.requested && u.mrm.state.Normal? ==> u.mrm.behavior.NoBehavior?)
  {
    if s.takeover.requested { assert s.mrm == Mrm(Normal, NoBehavior); }
  }

  /** A request is dropped with its window exactly unless the tick returns early past it. */
  lemma OutlivesExactly(h: Handler, now: int, r: Read)
    requires Coherent(h.mrm) && !Outlives(h) && OneWindow(h)
    ensures Outlives(Tick(h, now, r).h) <==> ReturnsEarly(h, now, r)
  {
    if RunsAt(h, now) {
      var s := Sensed(h, now, r.latched);
      TickIsDecision(h, now, r);
      Updated(s, now, r.fault);
      OutlivesDecision(s, now, r.fault);
      Operated(UpdateState(s, now, r.fault).h, r.sends);
    }
  }

  lemma Extend(hs: seq<Handler>, es: seq<Timed>, e: Timed) returns (gs: seq<Handler>, fs: seq<Timed>)
    requires HandlerRun(hs, es) && hs[0].life.boot <= e.at && (es != [] ==> es[|es| - 1].at <= e.at)
    ensures HandlerRun(gs, fs) && fs == es + [e] && gs == hs + [Next(hs[|es|], e.at, e.ev).h]
  {
    gs, fs := hs + [Next(hs[|es|], e.at, e.ev).h], es + [e];
    forall k | 0 <= k < |fs| ensures StepAt(gs, fs, k) { if k < |es| { assert StepAt(hs, es, k); } }
  }

  /** Every input heard twice, nothing available, in autonomous control and mode. */
  const HEARD: seq<Step> := [
    OperationMode(Autonomous), ControlMode(AutonomousControl),
    ComfortableStatus(true), ComfortableStatus(true), EmergencyStatus(true), EmergencyStatus(true), Take(NOTHING), Take(NOTHING)]

  function Heard(h: Handler, n: nat): Handler
    requires n <= |HEARD|
  {
    if n == 0 then h else Next(Heard(h, n - 1), 1, HEARD[n - 1]).h
  }

  lemma {:induction false} HeardRun(p: Params, n: nat) returns (hs: seq<Handler>, es: seq<Timed>)
    requires n <= |HEARD|
    ensures HandlerRun(hs, es) && |es| == n && hs[0] == Boot(p, 0) && hs[n] == Heard(Boot(p, 0), n)
    ensures es != [] ==> es[|es| - 1].at == 1
  {
    hs, es := [Boot(p, 0)], [];
    if n > 0 {
      hs, es := HeardRun(p, n - 1);
      hs, es := Extend(hs, es, Timed(1, HEARD[n - 1]));
    }
  }

  lemma Fresh(p: Params)
    ensures var h := Heard(Boot(p, 0), |HEARD|);
            && h.p == p && h.mrm == Mrm(Normal, NoBehavior) && h.life == Life(0, Init, false, 0) && h.stamp == 1
            && h.inp == Inputs(NOTHING, true, true, true, None, Some(AutonomousControl), Some(Autonomous))
            && AllEstablished(h, 1) && !h.holding.held && h.takeover == Takeover(false, false, 0)
  {
    var b := Boot(p, 0);
    Statuses(p);
    HeardTwo(b, 6);
  }

  lemma Statuses(p: Params)
    ensures var b := Boot(p, 0);
            Heard(b, 6) == b.(inp := Inputs(NOTHING, false, true, true, None, Some(AutonomousControl), Some(Autonomous)),
                              streams := Streams(b.streams.availability, Arrivals(2, 1, 1), Arrivals(2, 1, 1)))
  {
    var b := Boot(p, 0);
    HeardTwo(b, 0);
    HeardTwo(b, 2);
    HeardTwo(b, 4);
  }

  lemma HeardTwo(h: Handler, n: nat)
    requires n + 2 <= |HEARD|
    ensures Heard(h, n + 2) == Next(Next(Heard(h, n), 1, HEARD[n]).h, 1, HEARD[n + 1]).h
  {
    assert Heard(h, n + 1) == Next(Heard(h, n), 1, HEARD[n]).h;
  }

  /** The first tick ends INIT and opens the window. */
  lemma FirstTickWaits(h: Handler, p: Params, r: Read)
    requires h == Heard(Boot(p, 0), |HEARD|) && p.useTakeover && !r.latched
    ensures Waiting(Tick(h, 1, r).h, 1) && Tick(h, 1, r).h.life.phase.Run? && Tick(h, 1, r).h.inp == h.inp
  {
    Fresh(p);
    WindowOpens(h, 1, r);
    TickFrame(h, 1, r);
  }

  const ALL_SENT: Read := Read(false, false, Sends(Sent, Sent, Sent))

  lemma OpenRun(p: Params) returns (hs: seq<Handler>, es: seq<Timed>)
    requires p.useTakeover
    ensures HandlerRun(hs, es) && |es| == |HEARD| + 1 && hs[0] == Boot(p, 0) && es[|HEARD|].at == 1
    ensures Waiting(hs[|HEARD| + 1], 1) && hs[|HEARD| + 1].life.phase.Run?
    ensures hs[|HEARD| + 1].inp == Inputs(NOTHING, true, true, true, None, Some(AutonomousControl), Some(Autonomous))
  {
    hs, es := HeardRun(p, |HEARD|);
    Fresh(p);
    FirstTickWaits(hs[|HEARD|], p, ALL_SENT);
    hs, es := Extend(hs, es, Timed(1, OnTimer(ALL_SENT)));
  }

  /** A window whose operation mode went to STOP: the tick returns early past the request. */
  lemma ModeLeft(h: Handler, now: int, r: Read)
    requires Waiting(h, 1) && h.life.phase.Run?
    requires h.inp == Inputs(NOTHING, true, true, true, None, Some(AutonomousControl), Some(StopMode))
    ensures Outlives(Tick(h, now, r).h)
  {
    OutlivesExactly(h, now, r);
  }

  /**
   * For all parameters with the takeover in use and every `t`, a run from boot: the window opens, the operation
   * mode goes to STOP, and `t` ms later, inside the window or after it, the request is on while an MRM is out.
   */
  lemma RequestOutlivesWindow(p: Params, t: nat) returns (hs: seq<Handler>, es: seq<Timed>)
    requires p.useTakeover
    ensures HandlerRun(hs, es) && |es| == |HEARD| + 3 && hs[0] == Boot(p, 0)
    ensures Waiting(hs[|HEARD| + 1], 1)
    ensures es[|HEARD| + 1].ev == OperationMode(StopMode) && es[|HEARD| + 2].ev.OnTimer? && es[|HEARD| + 2].at == 1 + t
    ensures Outlives(hs[|HEARD| + 3])
  {
    hs, es := OpenRun(p);
    hs, es := Extend(hs, es, Timed(1, OperationMode(StopMode)));
    ModeLeft(hs[|HEARD| + 2], 1 + t, ALL_SENT);
    hs, es := Extend(hs, es, Timed(1 + t, OnTimer(ALL_SENT)));
  }
}
