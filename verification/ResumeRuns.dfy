/** When the direct path takes a slot back, when it publishes, and how long it sleeps: exactly. */
module ResumeRuns {
  import opened Words
  import opened SupervisorSpec
  import opened RouteTable
  import opened ReactionPass
  import opened SupervisorRuns
  import DirectPath
  import RW = ResponseWatch

  // ------------------------------------------------------------------ the last report

  /** Slot `i`'s tick reports and is told to publish. */
  predicate Answered(s: State, e: Timed, i: nat)
    requires i < SLOTS
  {
    e.ev.Report? && e.ev.slot == i && s.latched && !s.slots.At(i).resumed
  }

  /** What a step does of a slot's report words: an answered report's own, or nothing. */
  predicate Reported(s: State, e: Timed, t: State, i: nat)
    requires i < SLOTS
  {
    var x, y := s.slots.At(i), t.slots.At(i);
    if Answered(s, e, i) then y == x.(alive := Trunc32(e.at), period := e.ev.period, handover := true)
    else y.alive == x.alive && y.period == x.period && y.handover == x.handover
  }

  lemma ServeReports(s: State, now: int, i: nat)
    requires i < SLOTS
    ensures var x, y := s.slots.At(i), Serve(s, now).slots.At(i); y.alive == x.alive && y.period == x.period && y.handover == x.handover
  {
    if s.latched { SlotsInWatch(s, now); ServiceAfterWatch(s, now); }
  }

  lemma StepReports(s: State, e: Timed, i: nat)
    requires Inv(s) && ClockOk(s, e.at) && Admissible(e) && i < SLOTS
    ensures Reported(s, e, Step(s, e.at, e.ev), i)
  {
    match e.ev
    case Wake(left, nowUs) =>
      var v := s.(thread := s.thread.(wake := false));
      Reacted(v, e.at, left, nowUs);
      ServeReports(React(v, e.at, left, nowUs), e.at, i);
    case Timeout => ServeReports(s, e.at, i);
    case _ =>
  }

  /** A handed-over slot's report words are its last answered report's. */
  lemma {:induction false} LastReport(ss: seq<State>, es: seq<Timed>, k: nat, i: nat) returns (j: nat)
    requires Behaviour(ss, es) && k <= |es| && i < SLOTS && ss[k].slots.At(i).handover
    ensures j < k && Answered(ss[j], es[j], i) && forall m | j < m < k :: !Answered(ss[m], es[m], i)
    ensures ss[k].slots.At(i).alive == Trunc32(es[j].at) && ss[k].slots.At(i).period == es[j].ev.period
    ensures ss[k].cfg == ss[j].cfg
  {
    assert k > 0;
    RW.Taken(ss, es, k - 1);
    StepReports(ss[k - 1], es[k - 1], i);
    if Answered(ss[k - 1], es[k - 1], i) { j := k - 1; } else { j := LastReport(ss, es, k - 1, i); }
  }

  // ------------------------------------------------------------------ the resume

  /** The silence a slot with reports at `period` is allowed, a 32-bit product. */
  function Allowed(cfg: Config, period: nat): nat
  {
    (if period == 0 then cfg.directPeriodMs else period) * cfg.resumePeriods % U32
  }

  predicate Serves(s: State, e: Timed) { (e.ev.Wake? || e.ev.Timeout?) && s.latched }

  lemma ServeResumes(s: State, now: int, i: nat)
    requires s.latched && i < SLOTS && s.slots.At(i).registered && s.slots.At(i).handover && !s.slots.At(i).resumed
    ensures Serve(s, now).slots.At(i).resumed <==> Trunc32(now - s.slots.At(i).alive) >= Allowed(s.cfg, s.slots.At(i).period)
  {
    SlotsInWatch(s, now);
    ServiceAfterWatch(s, now);
  }

  lemma StepResumes(s: State, e: Timed, i: nat)
    requires Inv(s) && ClockOk(s, e.at) && Admissible(e) && i < SLOTS && Serves(s, e)
    requires s.slots.At(i).registered && s.slots.At(i).handover && !s.slots.At(i).resumed
    ensures Step(s, e.at, e.ev).slots.At(i).resumed <==> Trunc32(e.at - s.slots.At(i).alive) >= Allowed(s.cfg, s.slots.At(i).period)
  {
    if e.ev.Wake? {
      var v := s.(thread := s.thread.(wake := false));
      Reacted(v, e.at, e.ev.left, e.ev.nowUs);
      ServeResumes(React(v, e.at, e.ev.left, e.ev.nowUs), e.at, i);
    } else {
      ServeResumes(s, e.at, i);
    }
  }

  /**
   * A served step takes a handed-over slot back exactly when its last answered report lies RESUME_PERIODS of that
   * report's period behind, in 32-bit milliseconds; and no other step takes one back.
   */
  lemma ResumedExactly(ss: seq<State>, es: seq<Timed>, k: nat, i: nat) returns (j: nat)
    requires Behaviour(ss, es) && k < |es| && i < SLOTS
    requires ss[k].slots.At(i).registered && ss[k].slots.At(i).handover && !ss[k].slots.At(i).resumed
    ensures j < k && Answered(ss[j], es[j], i) && forall m | j < m < k :: !Answered(ss[m], es[m], i)
    ensures ss[k + 1].slots.At(i).resumed <==>
              (es[k].ev.Wake? || es[k].ev.Timeout?) && Trunc32(es[k].at - es[j].at) >= Allowed(ss[j].cfg, es[j].ev.period)
  {
    j := LastReport(ss, es, k, i);
    RW.Taken(ss, es, k);
    TruncDiff(es[k].at, es[j].at);
    if es[k].ev.Wake? || es[k].ev.Timeout? { StepResumes(ss[k], es[k], i); } else { QuietForward(ss[k], es[k]); }
  }

  // ------------------------------------------------------------------ the publishes

  predicate Resumes(s: State, t: State)
  {
    s.slots.handler.resumed != t.slots.handler.resumed || s.slots.operator.resumed != t.slots.operator.resumed
  }

  /** The direct path's slots: not handed over, or taken back. */
  predicate Direct(x: Slot) { x.registered && (x.handover ==> x.resumed) }

  predicate AnyDirect(t: State) { Direct(t.slots.handler) || Direct(t.slots.operator) }

  /** A served step publishes every slot that is the direct path's, or none, when it is `due` to. */
  predicate Published(s: State, t: State, now: int, due: bool)
  {
    && (forall i | 0 <= i < SLOTS ::
          t.slots.At(i).calls == s.slots.At(i).calls + (if due && Direct(t.slots.At(i)) then 1 else 0))
    && (due && AnyDirect(t) ==> t.directNext == now + s.cfg.directPeriodMs)
    && (s.latched && !(due && AnyDirect(t)) ==> t.directNext == s.directNext)
  }

  lemma ServePublishes(s: State, now: int)
    requires s.latched && SlotOk(s.slots.handler, true) && SlotOk(s.slots.operator, true)
    ensures Published(s, Serve(s, now), now, Resumes(s, Serve(s, now)) || now >= s.directNext)
  {
    SlotsInWatch(s, now);
    WatchedNext(s, now);
    var w := DirectWatch(s, now);
    assert Serve(s, now).slots == DirectService(s, now).slots && Serve(s, now).directNext == DirectService(s, now).directNext;
    assert (w.slots != s.slots) == Resumes(s, w);
  }

  lemma WatchedNext(s: State, now: int)
    ensures DirectWatch(s, now).directNext == s.directNext && DirectWatch(s, now).cfg == s.cfg
  {
    var h := ResumeSlot(s, HANDLER, now);
    assert h.directNext == s.directNext;
  }

  lemma StepPublishes(s: State, e: Timed)
    requires Inv(s) && ClockOk(s, e.at) && Admissible(e) && (e.ev.Wake? || e.ev.Timeout?)
    ensures var t := Step(s, e.at, e.ev);
            t.latched ==> Published(s, t, e.at, !s.latched || Resumes(s, t) || e.at >= s.directNext)
  {
    if e.ev.Wake? {
      var v := s.(thread := s.thread.(wake := false));
      var r := React(v, e.at, e.ev.left, e.ev.nowUs);
      ReactPublishes(v, e.at, e.ev.left, e.ev.nowUs);
      ServeFrame(r, e.at);
      if r.latched {
        ServePublishes(r, e.at);
        PublishedSince(s, r, Serve(r, e.at), e.at);
      }
    } else {
      ServeFrame(s, e.at);
      if s.latched { ServePublishes(s, e.at); }
    }
  }

  lemma ReactPublishes(s: State, now: int, left: nat, nowUs: int)
    requires Inv(s) && ClockOk(s, now) && nowUs >= 1000 * now
    ensures var r := React(s, now, left, nowUs);
            && r.slots == s.slots && r.cfg == s.cfg && SlotOk(r.slots.handler, true) && SlotOk(r.slots.operator, true)
            && (s.latched ==> r.latched && r.directNext == s.directNext) && (!s.latched && r.latched ==> r.directNext == now)
  {
    Reacted(s, now, left, nowUs);
  }

  lemma PublishedSince(s: State, r: State, t: State, now: int)
    requires r.slots == s.slots && r.cfg == s.cfg
    requires (s.latched ==> r.latched && r.directNext == s.directNext) && (!s.latched ==> r.directNext == now)
    requires r.latched && Published(r, t, now, Resumes(r, t) || now >= r.directNext)
    ensures Published(s, t, now, !s.latched || Resumes(s, t) || now >= s.directNext)
  {
  }

  lemma QuietPublishes(s: State, e: Timed)
    requires !e.ev.Wake? && !e.ev.Timeout?
    ensures var t := Step(s, e.at, e.ev);
            t.directNext == s.directNext && forall i | 0 <= i < SLOTS :: t.slots.At(i).calls == s.slots.At(i).calls
  {
  }

  /**
   * The direct path publishes exactly in a served step that latches, takes a slot back, or has reached the next
   * publish; and then every slot that is its own, once.
   */
  lemma PublishedExactly(ss: seq<State>, es: seq<Timed>, k: nat)
    requires Behaviour(ss, es) && k < |es| && ss[k + 1].latched
    ensures var served := es[k].ev.Wake? || es[k].ev.Timeout?;
            Published(ss[k], ss[k + 1], es[k].at,
                      served && (!ss[k].latched || Resumes(ss[k], ss[k + 1]) || es[k].at >= ss[k].directNext))
  {
    RW.Taken(ss, es, k);
    if es[k].ev.Wake? || es[k].ev.Timeout? { StepPublishes(ss[k], es[k]); } else { QuietPublishes(ss[k], es[k]); }
  }

  predicate Publishes(s: State, t: State, i: nat)
    requires i < SLOTS
  {
    t.slots.At(i).calls > s.slots.At(i).calls
  }

  lemma {:induction false} NextStays(ss: seq<State>, es: seq<Timed>, j: nat, k: nat, i: nat)
    requires Behaviour(ss, es) && j < k <= |es| && i < SLOTS && Publishes(ss[j], ss[j + 1], i)
    ensures ss[k].latched && ss[k].directNext >= es[j].at + ss[j].cfg.directPeriodMs && ss[k].cfg == ss[j].cfg && es[j].at <= es[k - 1].at
    decreases k
  {
    RW.Taken(ss, es, k - 1);
    if j + 1 < k {
      NextStays(ss, es, j, k - 1, i);
      assert StepAt(ss, es, k - 1);
      PublishedExactly(ss, es, k - 1);
    } else {
      DirectPath.OwnerAt(ss, es, j, i);
      PublishedExactly(ss, es, j);
    }
  }

  /** Two direct publishes of a slot are a whole direct period apart, or the later one takes a slot back. */
  lemma PublishSpacing(ss: seq<State>, es: seq<Timed>, j: nat, k: nat, i: nat)
    requires Behaviour(ss, es) && j < k < |es| && i < SLOTS
    requires Publishes(ss[j], ss[j + 1], i) && Publishes(ss[k], ss[k + 1], i)
    ensures es[k].at - es[j].at >= ss[j].cfg.directPeriodMs || Resumes(ss[k], ss[k + 1])
  {
    NextStays(ss, es, j, k, i);
    RW.Taken(ss, es, k);
    PublishedExactly(ss, es, k);
  }

  // ------------------------------------------------------------------ the sleep

  /** The slot's silence is over at `t` and at no earlier time from `now` on. */
  ghost predicate FirstOver(s: State, x: Slot, now: int, t: int)
  {
    now <= t && Over(s, x, t) && forall u | now <= u < t :: !Over(s, x, u)
  }

  predicate Over(s: State, x: Slot, t: int) { Trunc32(t - x.alive) >= Allowed(s.cfg, x.period) }

  predicate HandedOver(x: Slot) { x.registered && x.handover && !x.resumed }

  lemma SilenceEnds(s: State, x: Slot, now: int)
    ensures FirstOver(s, x, now, ResumeDue(s, x, now))
  {
    var silent, limit := Trunc32(now - x.alive), Allowed(s.cfg, x.period);
    assert Limit(s, x) == limit;
    if silent < limit {
      forall u | now <= u <= now + (limit - silent) ensures Over(s, x, u) <==> u == now + (limit - silent) {
        TruncStep(now - x.alive, u - now);
        assert u - x.alive == (now - x.alive) + (u - now);
      }
    }
  }

  lemma TruncStep(x: int, d: nat)
    requires Trunc32(x) + d < U32
    ensures Trunc32(x + d) == Trunc32(x) + d
  {
    var q := x / U32;
    assert x + d == q * U32 + (Trunc32(x) + d);
    ModShift(Trunc32(x) + d, q);
  }

  /** Something wakes the thread at `t`: its next publish, the end of a slot's silence, or SWT0's feed. */
  ghost predicate WakesAt(s: State, now: int, t: int)
  {
    || (AnyDirect(s) && t == s.directNext)
    || (exists i | 0 <= i < SLOTS :: HandedOver(s.slots.At(i)) && FirstOver(s, s.slots.At(i), now, t))
    || (s.thread.swtRunning && t == now + s.cfg.swtMs / 4)
  }

  lemma OverOnce(s: State, x: Slot, now: int, t: int, u: int)
    requires FirstOver(s, x, now, t) && FirstOver(s, x, now, u)
    ensures t == u
  {
  }

  lemma WaitIsFirst(s: State, now: int)
    requires s.latched && SlotOk(s.slots.handler, true) && SlotOk(s.slots.operator, true)
    ensures SleepsTo(s, now, LatchedWait(s, now))
  {
    SilenceEnds(s, s.slots.handler, now);
    SilenceEnds(s, s.slots.operator, now);
    assert s.slots.At(HANDLER) == s.slots.handler && s.slots.At(OPERATOR) == s.slots.operator;
    forall t | WakesAt(s, now, t) ensures LatchedWait(s, now).Some? && LatchedWait(s, now).value <= t {
      if i :| 0 <= i < SLOTS && HandedOver(s.slots.At(i)) && FirstOver(s, s.slots.At(i), now, t) {
        OverOnce(s, s.slots.At(i), now, t, ResumeDue(s, s.slots.At(i), now));
      }
    }
  }

  /** The wait is the first of what wakes the thread, and forever if nothing does. */
  ghost predicate SleepsTo(s: State, now: int, w: Option<int>)
  {
    (w.Some? ==> WakesAt(s, now, w.value)) && forall t | WakesAt(s, now, t) :: w.Some? && w.value <= t
  }

  lemma SameWakes(s: State, t: State, now: int, u: int)
    requires t == s.(thread := s.thread.(waitUntil := t.thread.waitUntil))
    ensures WakesAt(s, now, u) <==> WakesAt(t, now, u)
  {
    forall i | 0 <= i < SLOTS ensures FirstOver(s, s.slots.At(i), now, u) <==> FirstOver(t, t.slots.At(i), now, u) {
      assert forall x :: Over(s, s.slots.At(i), x) == Over(t, t.slots.At(i), x);
    }
  }

  /** After every served step under the latch the thread sleeps to the first of what wakes it. */
  lemma SleepsExactly(ss: seq<State>, es: seq<Timed>, k: nat)
    requires Behaviour(ss, es) && k < |es| && (es[k].ev.Wake? || es[k].ev.Timeout?) && ss[k + 1].latched
    ensures SleepsTo(ss[k + 1], es[k].at, ss[k + 1].thread.waitUntil)
  {
    RW.Taken(ss, es, k);
    InvAlways(ss, es, k + 1);
    var d := Slept(ss[k], es[k]);
    SleptWell(d, ss[k + 1], es[k].at);
  }

  lemma SleptWell(d: State, t: State, now: int)
    requires d.latched && t == d.(thread := d.thread.(waitUntil := LatchedWait(d, now)))
    requires SlotOk(t.slots.handler, true) && SlotOk(t.slots.operator, true)
    ensures SleepsTo(t, now, t.thread.waitUntil)
  {
    WaitIsFirst(d, now);
    forall u ensures WakesAt(d, now, u) <==> WakesAt(t, now, u) { SameWakes(d, t, now, u); }
  }

  /** The state in which a served step goes to sleep. */
  lemma Slept(s: State, e: Timed) returns (d: State)
    requires (e.ev.Wake? || e.ev.Timeout?) && Step(s, e.at, e.ev).latched
    ensures d.latched && Step(s, e.at, e.ev) == d.(thread := d.thread.(waitUntil := LatchedWait(d, e.at)))
  {
    var r := if e.ev.Wake? then React(s.(thread := s.thread.(wake := false)), e.at, e.ev.left, e.ev.nowUs) else s;
    ServeFrame(r, e.at);
    d := DirectService(r, e.at);
  }

  lemma SwtStays(s: State, e: Timed)
    ensures Step(s, e.at, e.ev).thread.swtRunning == (s.thread.swtRunning || e.ev.SwtStart?)
  {
    match e.ev
    case Timeout => ServeFrame(s, e.at);
    case Wake(left, nowUs) =>
      var v := s.(thread := s.thread.(wake := false));
      SwtReacts(v, e.at, left, nowUs);
      ServeFrame(React(v, e.at, left, nowUs), e.at);
    case _ => SwtQuiet(s, e);
  }

  lemma SwtQuiet(s: State, e: Timed)
    requires !e.ev.Wake? && !e.ev.Timeout?
    ensures Step(s, e.at, e.ev).thread.swtRunning == (s.thread.swtRunning || e.ev.SwtStart?)
  {
  }

  lemma SwtReacts(s: State, now: int, left: nat, nowUs: int)
    ensures React(s, now, left, nowUs).thread.swtRunning == s.thread.swtRunning
  {
    SwtJudged(s, ROUTES, now, left, nowUs);
  }

  lemma {:induction false} SwtJudged(s: State, n: nat, now: int, left: nat, nowUs: int)
    requires n <= ROUTES
    ensures JudgeRoutes(s, n, now, left, nowUs).s.thread == s.thread
  {
    if n > 0 { SwtJudged(s, n - 1, now, left, nowUs); }
  }

  /** SWT0 is fed, by the wait of a latched thread, exactly once it was started. */
  lemma {:induction false} SwtRuns(ss: seq<State>, es: seq<Timed>, k: nat)
    requires Behaviour(ss, es) && k <= |es|
    ensures ss[k].thread.swtRunning <==> exists i | 0 <= i < k :: es[i].ev.SwtStart?
  {
    if k > 0 {
      SwtRuns(ss, es, k - 1);
      assert StepAt(ss, es, k - 1);
      SwtStays(ss[k - 1], es[k - 1]);
    }
  }
}
