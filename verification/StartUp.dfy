/** The handler's start-up lifecycle over whole runs. */
module StartUp {
  import opened Words
  import opened HandlerSpec
  import opened HandlerRuns

  /** What event `k` announces. */
  ghost function MarkAt(hs: seq<Handler>, es: seq<Timed>, k: nat): Mark
    requires |hs| == |es| + 1 && k < |es|
  {
    if es[k].ev.OnTimer? then PhaseMark(hs[k], es[k].at) else NoMark
  }

  predicate EndsInit(m: Mark) { m.InitDone? || m.InitTimeout? }

  /** Every event moves the lifecycle by its mark alone. */
  lemma LifeStep(hs: seq<Handler>, es: seq<Timed>, k: nat)
    requires HandlerRun(hs, es) && k < |es|
    ensures hs[k + 1].life == (if es[k].ev.OnTimer? then PhaseStep(hs[k], es[k].at).life else hs[k].life)
    ensures hs[k + 1].p == hs[k].p
    ensures es[k].ev.OnTimer? && RunsAt(hs[k], es[k].at) ==> hs[k + 1].timedOut == (es[k].at - hs[k].stamp > hs[k].p.maxAge)
  {
    CoherentAlways(hs, es, k);
    assert StepAt(hs, es, k);
    LifeMoves(hs[k], es[k].at, es[k].ev);
  }

  lemma LifeMoves(h: Handler, now: int, e: Step)
    requires Coherent(h.mrm)
    ensures var n := Next(h, now, e).h;
            && n.life == (if e.OnTimer? then PhaseStep(h, now).life else h.life) && n.p == h.p
            && (e.OnTimer? && RunsAt(h, now) ==> n.timedOut == (now - h.stamp > h.p.maxAge))
  {
    if e.OnTimer? { TickFrame(h, now, e.r); } else { CallbacksLeave(h, now, e); }
  }

  lemma {:induction false} ParamsStay(hs: seq<Handler>, es: seq<Timed>, k: nat)
    requires HandlerRun(hs, es) && k <= |es|
    ensures hs[k].p == hs[0].p && hs[k].life.boot == hs[0].life.boot
    ensures hs[k].life.phase.Init? ==> !hs[k].life.failed && hs[k].life.monitorsAt == 0
  {
    if k > 0 {
      ParamsStay(hs, es, k - 1);
      LifeStep(hs, es, k - 1);
    }
  }

  /** RUN is absorbing, and reached at exactly the first tick that finds every input established or the INIT budget spent. */
  lemma {:induction false} RunReached(hs: seq<Handler>, es: seq<Timed>, k: nat)
    requires HandlerRun(hs, es) && k <= |es|
    ensures hs[k].life.phase.Run? <==>
            exists j | 0 <= j < k :: es[j].ev.OnTimer?
              && (AllEstablished(hs[j], es[j].at) || es[j].at - hs[0].life.boot >= hs[0].p.initTimeout)
  {
    if k > 0 {
      RunReached(hs, es, k - 1);
      LifeStep(hs, es, k - 1);
      ParamsStay(hs, es, k - 1);
      var e := es[k - 1];
      if e.ev.OnTimer? && (AllEstablished(hs[k - 1], e.at) || e.at - hs[0].life.boot >= hs[0].p.initTimeout) {
        assert hs[k].life.phase.Run?;
      }
    }
  }

  /** INIT ends once: INIT_DONE or INIT_TIMEOUT, never both and never twice. */
  lemma InitEndsOnce(hs: seq<Handler>, es: seq<Timed>, i: nat, j: nat)
    requires HandlerRun(hs, es) && i < j < |es|
    ensures !(EndsInit(MarkAt(hs, es, i)) && EndsInit(MarkAt(hs, es, j)))
  {
    if EndsInit(MarkAt(hs, es, i)) {
      LifeStep(hs, es, i);
      RunStays(hs, es, i + 1, j);
    }
  }

  lemma SoundTick(h: Handler, now: int)
    requires h.life.phase.Run? && !h.life.failed
    ensures PhaseStep(h, now) == h
  {
  }

  lemma {:induction false} SoundStays(hs: seq<Handler>, es: seq<Timed>, i: nat, j: nat)
    requires HandlerRun(hs, es) && i <= j <= |es| && hs[i].life.phase.Run? && !hs[i].life.failed
    ensures hs[j].life == hs[i].life
    decreases j
  {
    if i < j {
      SoundStays(hs, es, i, j - 1);
      SoundTick(hs[j - 1], es[j - 1].at);
      LifeStep(hs, es, j - 1);
    }
  }

  /** The monitors are armed at most once, and no start-up fault follows. */
  lemma MonitorsArmedOnce(hs: seq<Handler>, es: seq<Timed>, i: nat, j: nat)
    requires HandlerRun(hs, es) && i < j < |es| && ArmsMonitors(MarkAt(hs, es, i))
    ensures MarkAt(hs, es, j).NoMark?
    ensures hs[j].life.monitorsAt == Trunc32(es[i].at) && !hs[j].life.failed
  {
    LifeStep(hs, es, i);
    ParamsStay(hs, es, i);
    SoundStays(hs, es, i + 1, j);
  }

  /** A mark of kind `InitTimeout` or `InitRecovery` among the first `k` events. */
  ghost predicate TimedOutBefore(hs: seq<Handler>, es: seq<Timed>, k: nat)
    requires |hs| == |es| + 1 && k <= |es|
  {
    exists j | 0 <= j < k :: MarkAt(hs, es, j).InitTimeout?
  }

  ghost predicate RecoveredBefore(hs: seq<Handler>, es: seq<Timed>, k: nat)
    requires |hs| == |es| + 1 && k <= |es|
  {
    exists j | 0 <= j < k :: MarkAt(hs, es, j).InitRecovery?
  }

  lemma BeforeNext(hs: seq<Handler>, es: seq<Timed>, k: nat)
    requires |hs| == |es| + 1 && k < |es|
    ensures TimedOutBefore(hs, es, k + 1) == (TimedOutBefore(hs, es, k) || MarkAt(hs, es, k).InitTimeout?)
    ensures RecoveredBefore(hs, es, k + 1) == (RecoveredBefore(hs, es, k) || MarkAt(hs, es, k).InitRecovery?)
  {
  }

  lemma FailedStep(h: Handler, now: int)
    requires h.life.phase.Init? ==> !h.life.failed
    ensures var m := PhaseMark(h, now);
            PhaseStep(h, now).life.failed == (m.InitTimeout? || (h.life.failed && !m.InitRecovery?))
    ensures PhaseMark(h, now).InitRecovery? ==> h.life.failed
  {
  }

  lemma FailureStep(hs: seq<Handler>, es: seq<Timed>, k: nat)
    requires HandlerRun(hs, es) && k < |es|
    ensures var m := MarkAt(hs, es, k);
            hs[k + 1].life.failed == (m.InitTimeout? || (hs[k].life.failed && !m.InitRecovery?))
  {
    LifeStep(hs, es, k);
    ParamsStay(hs, es, k);
    FailedStep(hs[k], es[k].at);
  }

  /** The start-up fault stands exactly from an INIT_TIMEOUT to the tick that recovers. */
  lemma {:induction false} FailureSpan(hs: seq<Handler>, es: seq<Timed>, k: nat)
    requires HandlerRun(hs, es) && k <= |es|
    ensures hs[k].life.failed <==> TimedOutBefore(hs, es, k) && !RecoveredBefore(hs, es, k)
  {
    if k > 0 {
      FailureSpan(hs, es, k - 1);
      BeforeNext(hs, es, k - 1);
      FailureStep(hs, es, k - 1);
      if MarkAt(hs, es, k - 1).InitTimeout? { NoRecoveryYet(hs, es, k - 1); }
    }
  }

  lemma NoRecoveryYet(hs: seq<Handler>, es: seq<Timed>, k: nat)
    requires HandlerRun(hs, es) && k < |es| && MarkAt(hs, es, k).InitTimeout?
    ensures !RecoveredBefore(hs, es, k)
  {
    forall j | 0 <= j < k ensures !MarkAt(hs, es, j).InitRecovery? {
      if ArmsMonitors(MarkAt(hs, es, j)) { MonitorsArmedOnce(hs, es, j, k); }
    }
  }

  lemma StreamTick(h: Handler, now: int, r: Read)
    requires Coherent(h.mrm)
    ensures var t := Tick(h, now, r).h; t.stamp == h.stamp && t.streams == h.streams && t.inp == h.inp
  {
    TickFrame(h, now, r);
  }

  lemma StreamCallback(h: Handler, now: int, e: Step)
    requires !e.OnTimer?
    ensures var n := Next(h, now, e).h;
            if e.Take? then n.stamp == now == n.streams.availability.last
            else n.stamp == h.stamp && n.streams.availability == h.streams.availability
                 && n.inp.heardAvailability == h.inp.heardAvailability
  {
  }

  lemma {:induction false} StampIsLastArrival(hs: seq<Handler>, es: seq<Timed>, k: nat)
    requires HandlerRun(hs, es) && k <= |es|
    ensures hs[k].inp.heardAvailability ==> hs[k].stamp == hs[k].streams.availability.last
    ensures hs[k].stamp == hs[0].life.boot || exists j | 0 <= j < k :: es[j].ev.Take? && hs[k].stamp == es[j].at
  {
    if k > 0 {
      StampIsLastArrival(hs, es, k - 1);
      CoherentAlways(hs, es, k - 1);
      var h, e := hs[k - 1], es[k - 1];
      assert StepAt(hs, es, k - 1);
      if e.ev.OnTimer? { StreamTick(h, e.at, e.ev.r); } else { StreamCallback(h, e.at, e.ev); }
    }
  }

  /** A tick that arms the monitors, at the end of INIT or of its failure, does not see the stream as timed out. */
  lemma EstablishedIsFresh(hs: seq<Handler>, es: seq<Timed>, k: nat)
    requires HandlerRun(hs, es) && k < |es| && ArmsMonitors(MarkAt(hs, es, k))
    ensures !hs[k + 1].timedOut
  {
    StampIsLastArrival(hs, es, k);
    LifeStep(hs, es, k);
  }
}
