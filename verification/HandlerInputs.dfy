/** What a tick reads of its inputs, said of the events of a run: availability, mode, the held fault, and the start-up. */
module HandlerInputs {
  import opened Words
  import opened HandlerSpec
  import opened HandlerRuns
  import opened StartUp

  // ------------------------------------------------------------------ the last of each input

  ghost function LastTake(es: seq<Timed>, k: nat): Option<Availability>
    requires k <= |es|
  {
    if k == 0 then None else if es[k - 1].ev.Take? then Some(es[k - 1].ev.a) else LastTake(es, k - 1)
  }

  ghost function LastMode(es: seq<Timed>, k: nat): Option<Mode>
    requires k <= |es|
  {
    if k == 0 then None else if es[k - 1].ev.OperationMode? then Some(es[k - 1].ev.m) else LastMode(es, k - 1)
  }

  ghost function LastControl(es: seq<Timed>, k: nat): Option<Control>
    requires k <= |es|
  {
    if k == 0 then None else if es[k - 1].ev.ControlMode? then Some(es[k - 1].ev.c) else LastControl(es, k - 1)
  }

  ghost function LastSpeed(es: seq<Timed>, k: nat): Option<nat>
    requires k <= |es|
  {
    if k == 0 then None else if es[k - 1].ev.Odometry? then Some(es[k - 1].ev.speed) else LastSpeed(es, k - 1)
  }

  /** One event's step in a run. */
  lemma EventAt(hs: seq<Handler>, es: seq<Timed>, k: nat)
    requires HandlerRun(hs, es) && k < |es|
    ensures Coherent(hs[k].mrm) && hs[k + 1] == Next(hs[k], es[k].at, es[k].ev).h && hs[k + 1].p == hs[k].p
    ensures es[k].ev.OnTimer? ==> hs[k + 1].inp == hs[k].inp && hs[k + 1].streams == hs[k].streams && hs[k + 1].holding == hs[k].holding
  {
    CoherentAlways(hs, es, k);
    assert StepAt(hs, es, k);
    EventFrame(hs[k], es[k].at, es[k].ev);
  }

  lemma EventFrame(h: Handler, now: int, e: Step)
    requires Coherent(h.mrm)
    ensures var n := Next(h, now, e).h;
            n.p == h.p && (e.OnTimer? ==> n.inp == h.inp && n.streams == h.streams && n.holding == h.holding)
  {
    if e.OnTimer? { TickFrame(h, now, e.r); } else { CallbacksLeave(h, now, e); }
  }

  /** The cached inputs are the last ones heard. */
  lemma {:induction false} InputsAre(hs: seq<Handler>, es: seq<Timed>, k: nat)
    requires HandlerRun(hs, es) && k <= |es|
    ensures hs[k].inp.availability == (if LastTake(es, k).Some? then LastTake(es, k).value else NOTHING)
    ensures hs[k].inp.mode == LastMode(es, k) && hs[k].inp.control == LastControl(es, k) && hs[k].inp.speed == LastSpeed(es, k)
  {
    if k > 0 {
      InputsAre(hs, es, k - 1);
      EventAt(hs, es, k - 1);
      CallbackInputs(hs[k - 1], es[k - 1].at, es[k - 1].ev);
    }
  }

  lemma CallbackInputs(h: Handler, now: int, e: Step)
    requires Coherent(h.mrm)
    ensures var n := Next(h, now, e).h.inp;
            && n.availability == (if e.Take? then e.a else h.inp.availability)
            && n.mode == (if e.OperationMode? then Some(e.m) else h.inp.mode)
            && n.control == (if e.ControlMode? then Some(e.c) else h.inp.control)
            && n.speed == (if e.Odometry? then Some(e.speed) else h.inp.speed)
  {
    if e.OnTimer? { TickFrame(h, now, e.r); }
  }

  /** The mode's own bit; a mode that was never heard, or is none of the four, is never available. */
  predicate Offered(m: Option<Mode>, a: Availability)
  {
    || (m == Some(StopMode) && a.stop) || (m == Some(Autonomous) && a.autonomous)
    || (m == Some(Local) && a.local) || (m == Some(Remote) && a.remote)
  }

  /** The availability stream offers the mode, as last heard. */
  ghost predicate OfferedAt(es: seq<Timed>, k: nat)
    requires k <= |es|
  {
    LastTake(es, k).Some? && Offered(LastMode(es, k), LastTake(es, k).value)
  }

  lemma AvailableIs(hs: seq<Handler>, es: seq<Timed>, k: nat)
    requires HandlerRun(hs, es) && k <= |es|
    ensures Available(hs[k]) <==> OfferedAt(es, k)
  {
    InputsAre(hs, es, k);
  }

  // ------------------------------------------------------------------ the held fault

  /** The take `i` withdraws the mode. */
  ghost predicate Withdraws(es: seq<Timed>, i: nat)
    requires i < |es|
  {
    es[i].ev.Take? && !Offered(LastMode(es, i), es[i].ev.a)
  }

  /** From take `j` to take `i` every take withdraws the mode it finds. */
  ghost predicate Streak(es: seq<Timed>, j: nat, i: nat)
    requires j <= i < |es|
  {
    Withdraws(es, j) && Withdraws(es, i) && forall m | j <= m <= i && es[m].ev.Take? :: Withdraws(es, m)
  }

  /** A streak among the first `k` events lasted longer than the recovery time. */
  ghost predicate Recovers(es: seq<Timed>, k: nat, recovery: nat)
    requires k <= |es|
  {
    exists j, i | 0 <= j <= i < k :: Lasts(es, j, i, recovery)
  }

  ghost predicate LastsTo(es: seq<Timed>, i: nat, recovery: nat)
    requires i < |es|
  {
    exists j | 0 <= j <= i :: Lasts(es, j, i, recovery)
  }

  ghost predicate Lasts(es: seq<Timed>, j: nat, i: nat, recovery: nat)
    requires j <= i < |es|
  {
    Streak(es, j, i) && es[i].at - es[j].at > recovery
  }

  /** Since when the takes have withdrawn the mode, up to the last one of the first `k` events. */
  ghost function Since(es: seq<Timed>, k: nat): Option<int>
    requires k <= |es|
  {
    if k == 0 then None
    else if !es[k - 1].ev.Take? then Since(es, k - 1)
    else if !Withdraws(es, k - 1) then None
    else if Since(es, k - 1).Some? then Since(es, k - 1)
    else Some(es[k - 1].at)
  }

  /** What a take does of the holding. */
  lemma TakeHolds(h: Handler, now: int, a: Availability)
    ensures var g, off := OnAvailability(h, now, a).holding, !Offered(h.inp.mode, a);
            if !h.p.useHolding || h.holding.held then g == h.holding
            else if !off then g == Holding(None, false)
            else var since := if h.holding.since.Some? then h.holding.since.value else now;
                 g == Holding(Some(since), now - since > h.p.recovery)
  {
  }

  lemma OthersHold(h: Handler, now: int, e: Step)
    requires Coherent(h.mrm) && !e.Take?
    ensures Next(h, now, e).h.holding == h.holding
  {
    if e.OnTimer? { TickFrame(h, now, e.r); }
  }

  lemma {:induction false} SinceIs(es: seq<Timed>, k: nat) returns (j: nat)
    requires k <= |es| && Since(es, k).Some?
    ensures j < k && es[j].at == Since(es, k).value && Withdraws(es, j) && forall m | j <= m < k && es[m].ev.Take? :: Withdraws(es, m)
  {
    if es[k - 1].ev.Take? && Since(es, k - 1).None? { j := k - 1; } else { j := SinceIs(es, k - 1); }
  }

  /** No streak that reaches the last event began before it. */
  lemma {:induction false} SinceFirst(es: seq<Timed>, j: nat, k: nat)
    requires j < k <= |es| && Withdraws(es, j) && forall m | j <= m < k && es[m].ev.Take? :: Withdraws(es, m)
    requires InOrder(es)
    ensures Since(es, k).Some? && Since(es, k).value <= es[j].at
    decreases k
  {
    if j + 1 < k {
      SinceFirst(es, j, k - 1);
    } else if Since(es, k - 1).Some? {
      var i := SinceIs(es, k - 1);
      TimesGrow(es, i, j);
    }
  }

  ghost predicate InOrder(es: seq<Timed>) { forall m | 0 < m < |es| :: Ordered(es, m) }

  predicate Ordered(es: seq<Timed>, m: nat)
    requires 0 < m < |es|
  {
    es[m - 1].at <= es[m].at
  }

  lemma {:induction false} TimesGrow(es: seq<Timed>, i: nat, j: nat)
    requires i <= j < |es| && InOrder(es)
    ensures es[i].at <= es[j].at
    decreases j
  {
    if i < j {
      TimesGrow(es, i, j - 1);
      assert Ordered(es, j);
    }
  }

  lemma RunTimes(hs: seq<Handler>, es: seq<Timed>)
    requires HandlerRun(hs, es)
    ensures InOrder(es)
  {
    forall m | 0 < m < |es| ensures Ordered(es, m) { assert StepAt(hs, es, m); }
  }

  lemma RecoversLater(es: seq<Timed>, k: nat, recovery: nat)
    requires 0 < k <= |es|
    ensures Recovers(es, k, recovery) <==> Recovers(es, k - 1, recovery) || LastsTo(es, k - 1, recovery)
  {
  }

  /** The take at the end of the first `k` events ends a streak longer than the recovery time, exactly when its first take lies that far behind. */
  lemma LastsSince(es: seq<Timed>, k: nat, recovery: nat)
    requires 0 < k <= |es| && Withdraws(es, k - 1) && InOrder(es)
    ensures Since(es, k).Some?
    ensures es[k - 1].at - Since(es, k).value > recovery <==> LastsTo(es, k - 1, recovery)
  {
    var j := SinceIs(es, k);
    if es[k - 1].at - Since(es, k).value > recovery { assert Lasts(es, j, k - 1, recovery); }
    if LastsTo(es, k - 1, recovery) {
      var m := k - 1;
      var i :| 0 <= i <= m && Lasts(es, i, m, recovery);
      SinceFirst(es, i, k);
    }
  }

  /**
   * The availability fault is held, once and for all, exactly from the first take that ends an unbroken streak of takes
   * withdrawing the mode each finds, longer than the recovery time.
   */
  lemma {:induction false} HeldExactly(hs: seq<Handler>, es: seq<Timed>, k: nat)
    requires HandlerRun(hs, es) && k <= |es|
    ensures hs[k].p == hs[0].p
    ensures hs[k].holding.held <==> hs[0].p.useHolding && Recovers(es, k, hs[0].p.recovery)
    ensures hs[0].p.useHolding && !hs[k].holding.held ==> hs[k].holding.since == Since(es, k)
  {
    if k > 0 {
      HeldExactly(hs, es, k - 1);
      EventAt(hs, es, k - 1);
      RecoversLater(es, k, hs[0].p.recovery);
      if es[k - 1].ev.Take? {
        RunTimes(hs, es);
        InputsAre(hs, es, k - 1);
        TakeHolds(hs[k - 1], es[k - 1].at, es[k - 1].ev.a);
        if Withdraws(es, k - 1) { LastsSince(es, k, hs[0].p.recovery); }
      } else {
        OthersHold(hs[k - 1], es[k - 1].at, es[k - 1].ev);
      }
    }
  }

  // ------------------------------------------------------------------ the fault a tick finds

  /** The last take, or the construction. */
  ghost function LastArrival(hs: seq<Handler>, es: seq<Timed>, k: nat): int
    requires |hs| > 0 && k <= |es|
  {
    if k == 0 then hs[0].life.boot else if es[k - 1].ev.Take? then es[k - 1].at else LastArrival(hs, es, k - 1)
  }

  lemma {:induction false} StampIs(hs: seq<Handler>, es: seq<Timed>, k: nat)
    requires HandlerRun(hs, es) && k <= |es|
    ensures hs[k].stamp == LastArrival(hs, es, k)
  {
    if k > 0 {
      StampIs(hs, es, k - 1);
      EventAt(hs, es, k - 1);
      if es[k - 1].ev.OnTimer? { StreamTick(hs[k - 1], es[k - 1].at, es[k - 1].ev.r); }
      else { StreamCallback(hs[k - 1], es[k - 1].at, es[k - 1].ev); }
    }
  }

  /** An input is lost at tick `k`: the stream has been silent for max_age, the start-up failed, or the tick reads the latch. */
  ghost predicate LostAt(hs: seq<Handler>, es: seq<Timed>, k: nat)
    requires |hs| == |es| + 1 && k < |es| && es[k].ev.OnTimer?
  {
    || es[k].at - LastArrival(hs, es, k) > hs[0].p.maxAge
    || (TimedOutBefore(hs, es, k + 1) && !RecoveredBefore(hs, es, k + 1))
    || es[k].ev.r.latched
  }

  /**
   * A RUN tick finds a fault exactly when an input is lost, the availability fault is held, or the last take does not
   * offer the mode last heard.
   */
  lemma FaultExactly(hs: seq<Handler>, es: seq<Timed>, k: nat)
    requires HandlerRun(hs, es) && k < |es| && es[k].ev.OnTimer? && RunsAt(hs[k], es[k].at)
    ensures var s := Sensed(hs[k], es[k].at, es[k].ev.r.latched);
            && (InputLost(s) <==> LostAt(hs, es, k))
            && (Emergency(s) <==> LostAt(hs, es, k) || (hs[0].p.useHolding && Recovers(es, k, hs[0].p.recovery)) || !OfferedAt(es, k))
  {
    HeldExactly(hs, es, k);
    AvailableIs(hs, es, k);
    StampIs(hs, es, k);
    FailureSpan(hs, es, k + 1);
    LifeStep(hs, es, k);
    SensedIs(hs[k], es[k].at, es[k].ev.r.latched);
  }

  lemma SensedIs(h: Handler, now: int, latched: bool)
    ensures var s := Sensed(h, now, latched);
            && s.inp == h.inp && s.holding == h.holding && s.timedOut == (now - h.stamp > h.p.maxAge) && s.latchSeen == latched
            && s.life == PhaseStep(h, now).life && s.p == h.p
  {
  }

  // ------------------------------------------------------------------ the start-up

  datatype Periodic = AvailabilityStream | ComfortableStream | EmergencyStream

  /** What the event is to the periodic input: an arrival, one that restarts the count, or nothing. */
  function Arrives(e: Step, i: Periodic): Option<bool>
  {
    match i
    case AvailabilityStream => if e.Take? then Some(true) else None
    case ComfortableStream => if e.ComfortableStatus? then Some(e.available) else None
    case EmergencyStream => if e.EmergencyStatus? then Some(e.available) else None
  }

  /** The arrivals of the input since the last restart. */
  ghost function Times(es: seq<Timed>, k: nat, i: Periodic): seq<int>
    requires k <= |es|
  {
    if k == 0 then []
    else
      match Arrives(es[k - 1].ev, i)
      case None => Times(es, k - 1, i)
      case Some(true) => Times(es, k - 1, i) + [es[k - 1].at]
      case Some(false) => []
  }

  function StreamOf(h: Handler, i: Periodic): Arrivals
  {
    match i
    case AvailabilityStream => h.streams.availability
    case ComfortableStream => h.streams.comfortable
    case EmergencyStream => h.streams.emergency
  }

  function HeardOf(h: Handler, i: Periodic): bool
  {
    match i
    case AvailabilityStream => h.inp.heardAvailability
    case ComfortableStream => h.inp.heardComfortable
    case EmergencyStream => h.inp.heardEmergency
  }

  /** The record of arrivals, against their times. */
  predicate Noted(a: Arrivals, ts: seq<int>)
  {
    && a.count == (if |ts| < 2 then |ts| else 2)
    && (|ts| >= 1 ==> a.last == ts[|ts| - 1]) && (|ts| >= 2 ==> a.prev == ts[|ts| - 2])
  }

  /** What an event does of the input's record. */
  predicate Notes(h: Handler, n: Handler, now: int, e: Step, i: Periodic)
  {
    match Arrives(e, i)
    case None => StreamOf(n, i) == StreamOf(h, i) && HeardOf(n, i) == HeardOf(h, i)
    case Some(b) => StreamOf(n, i) == (if b then StreamOf(h, i).Note(now) else StreamOf(h, i).Reset()) && HeardOf(n, i)
  }

  lemma TickNotes(h: Handler, now: int, r: Read, i: Periodic)
    requires Coherent(h.mrm)
    ensures Notes(h, Tick(h, now, r).h, now, OnTimer(r), i)
  {
    TickFrame(h, now, r);
  }

  lemma CallbackNotes(h: Handler, now: int, e: Step, i: Periodic)
    requires !e.OnTimer?
    ensures Notes(h, Next(h, now, e).h, now, e, i)
  {
  }

  lemma EventNotes(h: Handler, now: int, e: Step, i: Periodic)
    requires Coherent(h.mrm)
    ensures Notes(h, Next(h, now, e).h, now, e, i)
  {
    if e.OnTimer? { TickNotes(h, now, e.r, i); } else { CallbackNotes(h, now, e, i); }
  }

  lemma {:induction false} StreamsAre(hs: seq<Handler>, es: seq<Timed>, k: nat, i: Periodic)
    requires HandlerRun(hs, es) && k <= |es|
    ensures Noted(StreamOf(hs[k], i), Times(es, k, i)) && (Times(es, k, i) != [] ==> HeardOf(hs[k], i))
  {
    if k > 0 {
      StreamsAre(hs, es, k - 1, i);
      EventAt(hs, es, k - 1);
      EventNotes(hs[k - 1], es[k - 1].at, es[k - 1].ev, i);
    }
  }

  /** The last two arrivals are at most `window` apart, and the last one at most that old. */
  ghost predicate Periodically(es: seq<Timed>, k: nat, i: Periodic, window: nat, now: int)
    requires k <= |es|
  {
    var ts := Times(es, k, i);
    |ts| >= 2 && ts[|ts| - 1] - ts[|ts| - 2] <= window && now - ts[|ts| - 1] <= window
  }

  /** Every input the start-up waits for is there. */
  ghost predicate Complete(p: Params, es: seq<Timed>, k: nat, now: int)
    requires k <= |es|
  {
    && Periodically(es, k, AvailabilityStream, p.maxAge, now)
    && LastMode(es, k).Some?
    && (p.useComfortable ==> Periodically(es, k, ComfortableStream, p.maxAge, now))
    && Periodically(es, k, EmergencyStream, p.maxAge, now)
  }

  lemma EstablishedIs(hs: seq<Handler>, es: seq<Timed>, k: nat, now: int)
    requires HandlerRun(hs, es) && k <= |es|
    ensures AllEstablished(hs[k], now) <==> Complete(hs[0].p, es, k, now)
  {
    InputsAre(hs, es, k);
    ParamsStay(hs, es, k);
    StreamsAre(hs, es, k, AvailabilityStream);
    StreamsAre(hs, es, k, ComfortableStream);
    StreamsAre(hs, es, k, EmergencyStream);
  }

  /**
   * RUN holds exactly from the first tick that finds every input there, two arrivals of each periodic one at most max_age
   * apart and no older, or the start-up budget spent.
   */
  lemma RunsExactly(hs: seq<Handler>, es: seq<Timed>, k: nat)
    requires HandlerRun(hs, es) && k <= |es|
    ensures hs[k].life.phase.Run? <==>
            exists j | 0 <= j < k :: es[j].ev.OnTimer?
              && (Complete(hs[0].p, es, j, es[j].at) || es[j].at - hs[0].life.boot >= hs[0].p.initTimeout)
  {
    RunReached(hs, es, k);
    forall j | 0 <= j < k ensures AllEstablished(hs[j], es[j].at) <==> Complete(hs[0].p, es, j, es[j].at) {
      EstablishedIs(hs, es, j, es[j].at);
    }
  }

  /** The monitors are armed at tick `k` exactly when it finds every input there, in INIT or after a failed start-up. */
  lemma ArmsExactly(hs: seq<Handler>, es: seq<Timed>, k: nat)
    requires HandlerRun(hs, es) && k < |es| && es[k].ev.OnTimer?
    ensures ArmsMonitors(MarkAt(hs, es, k)) <==> Complete(hs[0].p, es, k, es[k].at) && (hs[k].life.phase.Init? || hs[k].life.failed)
  {
    EstablishedIs(hs, es, k, es[k].at);
  }
}
