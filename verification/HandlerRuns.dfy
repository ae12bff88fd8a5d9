/** Whole runs of the MRM handler: the ladder, the latch, the takeover window and the start-up lifecycle. */
module HandlerRuns {
  import opened HandlerSpec

  // ------------------------------------------------------------------ the state and the behaviour

  /** NORMAL is exactly "no behaviour", MRM_FAILED is held in the emergency stop, and a pull-over never runs. */
  predicate Coherent(m: Mrm)
  {
    && (m.state.Normal? <==> m.behavior.NoBehavior?)
    && (m.state.Failed? ==> m.behavior.EmergencyStop?)
    && !m.behavior.PullOver?
  }

  function Rank(b: Behavior): nat
  {
    match b case NoBehavior => 0 case PullOver => 0 case ComfortableStop => 1 case EmergencyStop => 2
  }

  predicate RunsAt(h: Handler, now: int) { PhaseStep(h, now).life.phase.Run? }

  /** The tick either is silent or judges a fault. */
  predicate FaultTick(h: Handler, now: int, r: Read)
  {
    RunsAt(h, now) ==> Emergency(Sensed(h, now, r.latched))
  }

  /** What the state decision leaves: a behaviour is never changed there but by the vehicle fault. */
  lemma Updated(h: Handler, now: int, fault: bool)
    requires Coherent(h.mrm)
    ensures var u := UpdateState(h, now, fault);
            && u.tried == [] && u.h == h.(mrm := u.h.mrm, takeover := u.h.takeover)
            && (h.latchSeen && fault ==> u.h.mrm == Mrm(Failed, EmergencyStop))
            && (!(h.latchSeen && fault) ==> u.h.mrm.behavior == h.mrm.behavior)
            && (u.h.mrm.state.Failed? ==> u.h.mrm.behavior.EmergencyStop?)
            && (Emergency(h) && !h.mrm.state.Normal? ==> !u.h.mrm.state.Normal?)
            && (!Emergency(h) ==> u.h.mrm.state.Normal?)
            && (!u.h.mrm.state.Normal? && !u.h.mrm.state.Operating? ==> !u.h.mrm.behavior.NoBehavior?)
            && (Emergency(h) && h.mrm.state.Failed? ==> u.h.mrm.state.Failed?)
  {
  }

  /** What the requests make of the decision. */
  lemma Operated(h: Handler, sends: Sends)
    requires !h.mrm.behavior.PullOver? && (h.mrm.state.Failed? ==> h.mrm.behavior.EmergencyStop?)
    requires !h.mrm.state.Normal? && !h.mrm.state.Operating? ==> !h.mrm.behavior.NoBehavior?
    ensures var o := Operate(h, sends).h;
            && Coherent(o.mrm) && o == h.(mrm := o.mrm)
            && (!h.mrm.state.Normal? ==> Rank(h.mrm.behavior) <= Rank(o.mrm.behavior))
            && (h.mrm.state.Normal? && h.mrm.behavior.NoBehavior? ==> o.mrm == h.mrm)
            && (h.mrm.state.Failed? ==> o.mrm == h.mrm)
  {
  }

  lemma Decided(h: Handler, now: int, fault: bool, sends: Sends)
    requires Coherent(h.mrm)
    ensures var d := Decide(h, now, fault, sends).h;
            && Coherent(d.mrm) && d == h.(mrm := d.mrm, takeover := d.takeover)
            && (Emergency(h) ==> Rank(h.mrm.behavior) <= Rank(d.mrm.behavior))
            && (Emergency(h) && h.mrm.state.Failed? ==> d.mrm.state.Failed?)
            && d.takeover == UpdateState(h, now, fault).h.takeover
  {
    Updated(h, now, fault);
    Operated(UpdateState(h, now, fault).h, sends);
  }

  /** A RUN tick is the decision on what it senses, and sensing leaves the inputs, the request and the state. */
  lemma TickIsDecision(h: Handler, now: int, r: Read)
    requires RunsAt(h, now)
    ensures var s := Sensed(h, now, r.latched);
            && s.p == h.p && s.inp == h.inp && s.takeover == h.takeover && s.mrm == h.mrm && s.latchSeen == r.latched
            && Tick(h, now, r).h == Decide(s, now, r.fault, r.sends).h
            && Tick(h, now, r).tried == Decide(s, now, r.fault, r.sends).tried
  {
  }

  /** A tick changes its own readings, the state and the request, and nothing else. */
  lemma TickFrame(h: Handler, now: int, r: Read)
    requires Coherent(h.mrm)
    ensures var t := Tick(h, now, r).h;
            if RunsAt(h, now) then
              t == Sensed(h, now, r.latched).(mrm := t.mrm, takeover := t.takeover)
              && t.takeover == UpdateState(Sensed(h, now, r.latched), now, r.fault).h.takeover
            else t == h
  {
    if RunsAt(h, now) { Decided(Sensed(h, now, r.latched), now, r.fault, r.sends); }
  }

  lemma TickLadder(h: Handler, now: int, r: Read)
    requires Coherent(h.mrm)
    ensures var t := Tick(h, now, r).h;
            && Coherent(t.mrm)
            && (FaultTick(h, now, r) ==> Rank(h.mrm.behavior) <= Rank(t.mrm.behavior))
            && (FaultTick(h, now, r) && h.mrm.state.Failed? ==> t.mrm.state.Failed?)
  {
    if RunsAt(h, now) { Decided(Sensed(h, now, r.latched), now, r.fault, r.sends); }
  }

  lemma CallbacksLeave(h: Handler, now: int, e: Step)
    requires !e.OnTimer?
    ensures var n := Next(h, now, e).h;
            n.mrm == h.mrm && n.takeover == h.takeover && n.life == h.life && n.p == h.p
            && n.timedOut == h.timedOut && n.latchSeen == h.latchSeen
  {
  }

  /** One event of a run: a callback leaves the state, the request and the lifecycle alone. */
  lemma CallbackAt(hs: seq<Handler>, es: seq<Timed>, k: nat)
    requires HandlerRun(hs, es) && k < |es| && !es[k].ev.OnTimer?
    ensures hs[k + 1].mrm == hs[k].mrm && hs[k + 1].takeover == hs[k].takeover && hs[k + 1].life == hs[k].life && hs[k + 1].p == hs[k].p
  {
    assert StepAt(hs, es, k);
    CallbacksLeave(hs[k], es[k].at, es[k].ev);
  }

  /** And a tick climbs the ladder while it finds a fault. */
  lemma TickAt(hs: seq<Handler>, es: seq<Timed>, k: nat)
    requires HandlerRun(hs, es) && k < |es| && es[k].ev.OnTimer? && Coherent(hs[k].mrm)
    ensures Coherent(hs[k + 1].mrm) && (hs[k].life.phase.Run? ==> hs[k + 1].life.phase.Run?)
    ensures FaultTick(hs[k], es[k].at, es[k].ev.r) ==>
              Rank(hs[k].mrm.behavior) <= Rank(hs[k + 1].mrm.behavior) && (hs[k].mrm.state.Failed? ==> hs[k + 1].mrm.state.Failed?)
  {
    assert StepAt(hs, es, k);
    TickLadder(hs[k], es[k].at, es[k].ev.r);
    TickFrame(hs[k], es[k].at, es[k].ev.r);
  }

  /** After every callback and every tick of every run. */
  lemma {:induction false} CoherentAlways(hs: seq<Handler>, es: seq<Timed>, k: nat)
    requires HandlerRun(hs, es) && k <= |es|
    ensures Coherent(hs[k].mrm)
  {
    if k > 0 {
      CoherentAlways(hs, es, k - 1);
      if es[k - 1].ev.OnTimer? { TickAt(hs, es, k - 1); } else { CallbackAt(hs, es, k - 1); }
    }
  }

  /** No tick of `es[i..j]` finds the fault gone. */
  ghost predicate Episode(hs: seq<Handler>, es: seq<Timed>, i: nat, j: nat)
    requires |hs| == |es| + 1
  {
    i <= j <= |es| && forall k | i <= k < j && es[k].ev.OnTimer? :: FaultTick(hs[k], es[k].at, es[k].ev.r)
  }

  /** Within one fault episode the behaviour only climbs, and MRM_FAILED stays. */
  lemma {:induction false} Ladder(hs: seq<Handler>, es: seq<Timed>, i: nat, j: nat)
    requires HandlerRun(hs, es) && Episode(hs, es, i, j)
    ensures Rank(hs[i].mrm.behavior) <= Rank(hs[j].mrm.behavior)
    ensures hs[i].mrm.state.Failed? ==> hs[j].mrm == Mrm(Failed, EmergencyStop)
    decreases j
  {
    CoherentAlways(hs, es, j);
    if i < j {
      Ladder(hs, es, i, j - 1);
      CoherentAlways(hs, es, j - 1);
      if es[j - 1].ev.OnTimer? { TickAt(hs, es, j - 1); } else { CallbackAt(hs, es, j - 1); }
    }
  }

  // ------------------------------------------------------------------ under the latch

  /** The requests that would undo the latch's emergency stop. */
  predicate Harmless(q: Request)
  {
    q != Request(EmergencyStop, false) && q != Request(ComfortableStop, true)
  }

  lemma OperatedLost(h: Handler, sends: Sends)
    requires InputLost(h) && !h.mrm.behavior.PullOver?
    requires h.mrm.state.Normal? ==> h.mrm.behavior.NoBehavior?
    ensures var o := Operate(h, sends);
            && (forall q <- o.tried :: Harmless(q))
            && (h.mrm.state.Operating? ==> o.h.mrm.behavior.EmergencyStop?)
            && (!h.mrm.state.Operating? ==> o.h.mrm == h.mrm)
            && (h.mrm.behavior.EmergencyStop? ==> o.tried == [])
  {
  }

  lemma UpdatedLost(h: Handler, now: int, fault: bool)
    requires Coherent(h.mrm) && InputLost(h)
    ensures var u := UpdateState(h, now, fault).h.mrm;
            && (u.state.Normal? ==> h.mrm.state.Normal? && u.behavior.NoBehavior?)
            && (u.state.Normal? <==> !(h.latchSeen && fault) && h.mrm.state.Normal? && !InAutonomousControl(h))
            && (!(h.latchSeen && fault) && (h.mrm.behavior.ComfortableStop? || h.mrm.behavior.NoBehavior?) && !u.state.Normal? ==>
                  (u.state.Operating? <==> !(h.mrm == Mrm(Operating, ComfortableStop) && AtStandstill(h)))
                  && (!u.state.Operating? ==> u == Mrm(Succeeded, ComfortableStop)))
  {
  }

  /** The one tick on which a lost input does not yet bring the emergency stop: the comfortable stop just ended. */
  predicate JustStopped(h: Handler, r: Read)
  {
    h.mrm == Mrm(Operating, ComfortableStop) && AtStandstill(h) && !(r.latched && r.fault)
  }

  /**
   * A tick that finds an input lost (the stream stale, the start-up failed or the latch read) never
   * cancels the emergency stop, never calls the comfortable stop, never returns to NORMAL; and under an
   * MRM or in autonomous control it ends in the emergency stop, on all but exactly one kind of tick.
   */
  lemma LostTick(h: Handler, now: int, r: Read)
    requires Coherent(h.mrm) && RunsAt(h, now) && InputLost(Sensed(h, now, r.latched))
    ensures var t := Tick(h, now, r);
            && (forall q <- t.tried :: Harmless(q))
            && (t.h.mrm.state.Normal? <==> h.mrm.state.Normal? && !InAutonomousControl(h) && !(r.latched && r.fault))
            && (!t.h.mrm.state.Normal? ==> (t.h.mrm.behavior.EmergencyStop? <==> !JustStopped(h, r)))
            && (JustStopped(h, r) ==> t.h.mrm == Mrm(Succeeded, ComfortableStop))
  {
    TickIsDecision(h, now, r);
    LostDecision(Sensed(h, now, r.latched), now, r);
  }

  lemma LostDecision(s: Handler, now: int, r: Read)
    requires Coherent(s.mrm) && InputLost(s) && s.latchSeen == r.latched
    ensures var t := Decide(s, now, r.fault, r.sends);
            && (forall q <- t.tried :: Harmless(q))
            && (t.h.mrm.state.Normal? <==> s.mrm.state.Normal? && !InAutonomousControl(s) && !(r.latched && r.fault))
            && (!t.h.mrm.state.Normal? ==> (t.h.mrm.behavior.EmergencyStop? <==> !JustStopped(s, r)))
            && (JustStopped(s, r) ==> t.h.mrm == Mrm(Succeeded, ComfortableStop))
  {
    Updated(s, now, r.fault);
    UpdatedLost(s, now, r.fault);
    OperatedLost(UpdateState(s, now, r.fault).h, r.sends);
    Decided(s, now, r.fault, r.sends);
  }

  /** Every RUN tick from `i` on reads the latch. */
  ghost predicate LatchedFrom(es: seq<Timed>, i: nat)
  {
    forall k | i <= k < |es| && es[k].ev.OnTimer? :: es[k].ev.r.latched
  }

  lemma {:induction false} RunStays(hs: seq<Handler>, es: seq<Timed>, i: nat, j: nat)
    requires HandlerRun(hs, es) && i <= j <= |es| && hs[i].life.phase.Run?
    ensures hs[j].life.phase.Run?
    decreases j
  {
    if i < j {
      RunStays(hs, es, i, j - 1);
      CoherentAlways(hs, es, j - 1);
      if es[j - 1].ev.OnTimer? { TickAt(hs, es, j - 1); } else { CallbackAt(hs, es, j - 1); }
    }
  }

  lemma LatchedIsEpisode(hs: seq<Handler>, es: seq<Timed>, i: nat, j: nat)
    requires HandlerRun(hs, es) && LatchedFrom(es, i) && i <= j <= |es|
    ensures Episode(hs, es, i, j)
  {
  }

  /**
   * Two RUN ticks that read the latch, the first of them in autonomous control, and the emergency stop is
   * the behaviour for good: whatever the inputs, the driver and the transport do afterwards.
   */
  lemma LatchHolds(hs: seq<Handler>, es: seq<Timed>, i: nat, j: nat, k: nat)
    requires HandlerRun(hs, es) && LatchedFrom(es, i) && i < j < k <= |es|
    requires es[i].ev.OnTimer? && RunsAt(hs[i], es[i].at) && es[j].ev.OnTimer?
    requires InAutonomousControl(hs[i]) || !hs[i].mrm.state.Normal?
    ensures hs[k].mrm.behavior.EmergencyStop?
  {
    FirstLatched(hs, es, i);
    RunStays(hs, es, i + 1, j);
    if JustStopped(hs[i], es[i].ev.r) {
      SucceededOrEmergency(hs, es, i + 1, j);
    } else {
      LatchedIsEpisode(hs, es, i + 1, j);
      Ladder(hs, es, i + 1, j);
    }
    SecondLatched(hs, es, j);
    LatchedIsEpisode(hs, es, j + 1, k);
    Ladder(hs, es, j + 1, k);
  }

  lemma FirstLatched(hs: seq<Handler>, es: seq<Timed>, i: nat)
    requires HandlerRun(hs, es) && i < |es| && es[i].ev.OnTimer? && es[i].ev.r.latched && RunsAt(hs[i], es[i].at)
    requires InAutonomousControl(hs[i]) || !hs[i].mrm.state.Normal?
    ensures hs[i + 1].life.phase.Run?
    ensures if JustStopped(hs[i], es[i].ev.r) then hs[i + 1].mrm == Mrm(Succeeded, ComfortableStop)
            else hs[i + 1].mrm.behavior.EmergencyStop?
  {
    CoherentAlways(hs, es, i);
    assert StepAt(hs, es, i);
    LostTick(hs[i], es[i].at, es[i].ev.r);
    TickFrame(hs[i], es[i].at, es[i].ev.r);
  }

  lemma SecondLatched(hs: seq<Handler>, es: seq<Timed>, j: nat)
    requires HandlerRun(hs, es) && j < |es| && es[j].ev.OnTimer? && es[j].ev.r.latched && hs[j].life.phase.Run?
    requires hs[j].mrm == Mrm(Succeeded, ComfortableStop) || hs[j].mrm.behavior.EmergencyStop?
    ensures hs[j + 1].mrm.behavior.EmergencyStop?
  {
    CoherentAlways(hs, es, j);
    assert StepAt(hs, es, j);
    LostTick(hs[j], es[j].at, es[j].ev.r);
  }

  lemma {:induction false} SucceededOrEmergency(hs: seq<Handler>, es: seq<Timed>, i: nat, j: nat)
    requires HandlerRun(hs, es) && LatchedFrom(es, i) && i <= j <= |es|
    requires hs[i].life.phase.Run? && hs[i].mrm == Mrm(Succeeded, ComfortableStop)
    ensures hs[j].mrm == Mrm(Succeeded, ComfortableStop) || hs[j].mrm.behavior.EmergencyStop?
    decreases j
  {
    if i < j {
      SucceededOrEmergency(hs, es, i, j - 1);
      RunStays(hs, es, i, j - 1);
      if es[j - 1].ev.OnTimer? { SecondLatched(hs, es, j - 1); } else { CallbackAt(hs, es, j - 1); }
    }
  }
}
