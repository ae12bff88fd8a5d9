/** The direct emergency path: one owner per slot, and no silence on the braking command. */
module DirectPath {
  import opened Words
  import opened SupervisorSpec
  import opened RouteTable
  import opened ReactionPass
  import opened SupervisorRuns

  // ------------------------------------------------------------------ one owner

  /** A slot's phases, in the only order a run goes through them. */
  datatype Owner = DirectFirst | Executor | DirectForGood
  {
    function Rank(): nat { match this case DirectFirst => 0 case Executor => 1 case DirectForGood => 2 }
  }

  function OwnerOf(x: Slot): Owner
  {
    if !x.handover then DirectFirst else if !x.resumed then Executor else DirectForGood
  }

  /** The slot's executor path publishes in this step: it reports, and the report is answered "yours". */
  predicate ExecutorPublishes(s: State, e: Timed, i: nat) { e.ev.Report? && e.ev.slot == i && Holds(s, i) }

  /** The direct path publishes the slot in this step. */
  predicate DirectPublishes(s: State, t: State, i: nat)
    requires i < SLOTS
  {
    t.slots.At(i).calls > s.slots.At(i).calls
  }

  lemma ServiceCalls(s: State, now: int)
    ensures var w := DirectService(s, now);
            && (w.slots.handler.calls > s.slots.handler.calls ==> Owns(w.slots.handler))
            && (w.slots.operator.calls > s.slots.operator.calls ==> Owns(w.slots.operator))
  {
    SlotsInWatch(s, now);
  }

  lemma WakeCalls(s: State, now: int, left: nat, nowUs: int, i: nat)
    requires Inv(s) && ClockOk(s, now) && nowUs >= 1000 * now && i < SLOTS
    requires DirectPublishes(s, WakeStep(s, now, left, nowUs), i)
    ensures WakeStep(s, now, left, nowUs).latched && Owns(WakeStep(s, now, left, nowUs).slots.At(i))
  {
    var v := s.(thread := s.thread.(wake := false));
    Reacted(v, now, left, nowUs);
    ServiceCalls(React(v, now, left, nowUs), now);
  }

  /** Who published in a step owns the slot after it, and a step moves the owner by at most one phase. */
  predicate OwnerMoves(s: State, e: Timed, t: State, i: nat)
    requires i < SLOTS
  {
    && (ExecutorPublishes(s, e, i) ==> OwnerOf(t.slots.At(i)).Executor? && t.latched && !DirectPublishes(s, t, i))
    && (DirectPublishes(s, t, i) ==> !OwnerOf(t.slots.At(i)).Executor? && t.latched)
    && OwnerOf(s.slots.At(i)).Rank() <= OwnerOf(t.slots.At(i)).Rank() <= OwnerOf(s.slots.At(i)).Rank() + 1
  }

  lemma WakeOwner(s: State, e: Timed, i: nat)
    requires Inv(s) && ClockOk(s, e.at) && Admissible(e) && i < SLOTS && e.ev.Wake?
    ensures OwnerMoves(s, e, Step(s, e.at, e.ev), i)
  {
    StepForward(s, e);
    if DirectPublishes(s, Step(s, e.at, e.ev), i) { WakeCalls(s, e.at, e.ev.left, e.ev.nowUs, i); }
    WakeMovesOne(s, e.at, e.ev.left, e.ev.nowUs, i);
  }

  lemma TimeoutOwner(s: State, e: Timed, i: nat)
    requires Inv(s) && ClockOk(s, e.at) && i < SLOTS && e.ev.Timeout?
    ensures OwnerMoves(s, e, Step(s, e.at, e.ev), i)
  {
    ServeFrame(s, e.at);
    if s.latched { ServedOwner(s, e.at, i); }
  }

  /** Serving a slot keeps its handover, only ever resumes it, and calls it only while it owns it. */
  lemma ServedOwner(s: State, now: int, i: nat)
    requires s.latched && i < SLOTS
    ensures var x, y := s.slots.At(i), Serve(s, now).slots.At(i);
            && y.handover == x.handover && y.registered == x.registered && (x.resumed ==> y.resumed) && x.calls <= y.calls
            && (y.resumed && !x.resumed ==> x.handover) && (y.calls > x.calls ==> Owns(y))
  {
    ServiceCalls(s, now);
    SlotsInService(s, now);
  }

  lemma StepOwner(s: State, e: Timed, i: nat)
    requires Inv(s) && ClockOk(s, e.at) && Admissible(e) && i < SLOTS
    ensures OwnerMoves(s, e, Step(s, e.at, e.ev), i)
  {
    match e.ev
    case Wake(_, _) => WakeOwner(s, e, i);
    case Timeout => TimeoutOwner(s, e, i);
    case _ => StepForward(s, e); QuietForward(s, e); QuietCalls(s, e, i);
  }

  lemma WakeMovesOne(s: State, now: int, left: nat, nowUs: int, i: nat)
    requires Inv(s) && ClockOk(s, now) && nowUs >= 1000 * now && i < SLOTS
    ensures WakeStep(s, now, left, nowUs).slots.At(i).handover == s.slots.At(i).handover
  {
    var v := s.(thread := s.thread.(wake := false));
    Reacted(v, now, left, nowUs);
    SlotsInService(React(v, now, left, nowUs), now);
  }

  /**
   * In every run a slot's owner only moves direct, executor, direct, one phase at a step; a step in which
   * the executor path publishes leaves the slot the executor's, a step in which the direct path publishes
   * leaves it the direct path's, both under the latch; so no step has both.
   */
  lemma {:induction false} OneOwner(ss: seq<State>, es: seq<Timed>, j: nat, k: nat, i: nat)
    requires Behaviour(ss, es) && j <= k < |es| && i < SLOTS
    ensures OwnerOf(ss[j].slots.At(i)).Rank() <= OwnerOf(ss[k].slots.At(i)).Rank()
    ensures OwnerOf(ss[k + 1].slots.At(i)).Rank() <= OwnerOf(ss[k].slots.At(i)).Rank() + 1
    ensures ExecutorPublishes(ss[k], es[k], i) ==>
              OwnerOf(ss[k + 1].slots.At(i)).Executor? && ss[k + 1].latched && !DirectPublishes(ss[k], ss[k + 1], i)
    ensures DirectPublishes(ss[k], ss[k + 1], i) ==> !OwnerOf(ss[k + 1].slots.At(i)).Executor? && ss[k + 1].latched
    decreases k - j
  {
    OwnerAt(ss, es, k, i);
    if j < k {
      OneOwner(ss, es, j, k - 1, i);
      OwnerAt(ss, es, k - 1, i);
    }
  }

  lemma OwnerAt(ss: seq<State>, es: seq<Timed>, k: nat, i: nat)
    requires Behaviour(ss, es) && k < |es| && i < SLOTS
    ensures OwnerMoves(ss[k], es[k], ss[k + 1], i)
  {
    ClockAlways(ss, es, k);
    assert StepAt(ss, es, k);
    StepOwner(ss[k], es[k], i);
  }

  lemma QuietCalls(s: State, e: Timed, i: nat)
    requires !e.ev.Wake? && !e.ev.Timeout? && i < SLOTS
    ensures !DirectPublishes(s, Step(s, e.at, e.ev), i)
  {
  }

  // ------------------------------------------------------------------ no silence

  /** The silence the operator's tick is allowed, with its period `p`. */
  function TickLimit(cfg: Config, p: nat): nat { Trunc32((if p != 0 then p else cfg.directPeriodMs) * cfg.resumePeriods) }

  function Gap(cfg: Config, p: nat): nat
  {
    if cfg.directPeriodMs < TickLimit(cfg, p) then TickLimit(cfg, p) else cfg.directPeriodMs
  }

  /** A braking command goes out in this step, from either path. */
  predicate Commands(s: State, t: State, e: Timed)
  {
    DirectPublishes(s, t, OPERATOR) || ExecutorPublishes(s, e, OPERATOR)
  }

  /** When the last braking command before the `k`-th state went out. */
  ghost function LastCommand(ss: seq<State>, es: seq<Timed>, k: nat): Option<nat>
    requires |ss| == |es| + 1 && k <= |es|
  {
    if k == 0 then None
    else if Commands(ss[k - 1], ss[k], es[k - 1]) then Some(es[k - 1].at)
    else LastCommand(ss, es, k - 1)
  }

  predicate Until(s: State, d: int) { s.thread.wake || (s.thread.waitUntil.Some? && s.thread.waitUntil.value <= d) }

  /** After the latch, with the last command at `c`: the thread is up in time for the next one. */
  predicate Spoken(s: State, c: int, p: nat)
  {
    var x := s.slots.operator;
    if Owns(x) then s.directNext <= c + s.cfg.directPeriodMs && Until(s, s.directNext)
    else x.alive == Trunc32(c) && x.period == p && Until(s, c + TickLimit(s.cfg, p))
  }

  lemma WaitBounds(s: State, now: int)
    requires s.latched
    ensures Pending(s) ==> LatchedWait(s, now).Some? && LatchedWait(s, now).value <= s.directNext
    ensures Watched(s.slots.operator) ==> LatchedWait(s, now).Some? && LatchedWait(s, now).value <= ResumeDue(s, s.slots.operator, now)
  {
  }

  /** A pass that serves the direct path: a command now, or the next wake early enough for it. */
  lemma ServeSpeaks(s: State, now: int, c: int, p: nat)
    requires s.latched && s.slots.operator.registered && s.cfg.Valid() && c <= now <= c + Gap(s.cfg, p)
    requires Owns(s.slots.operator) ==> s.directNext <= c + s.cfg.directPeriodMs
    requires !Owns(s.slots.operator) ==>
               s.slots.operator.alive == Trunc32(c) && s.slots.operator.period == p && now <= c + TickLimit(s.cfg, p)
    ensures var w := Serve(s, now);
            Spoken(w, if w.slots.operator.calls > s.slots.operator.calls then now else c, p)
  {
    if Owns(s.slots.operator) { OwnedSpeaks(s, now, c, p); } else { WatchedSpeaks(s, now, c, p); }
  }

  lemma OwnedSpeaks(s: State, now: int, c: int, p: nat)
    requires s.latched && s.slots.operator.registered && s.cfg.Valid() && c <= now
    requires Owns(s.slots.operator) && s.directNext <= c + s.cfg.directPeriodMs
    ensures var w := Serve(s, now);
            Spoken(w, if w.slots.operator.calls > s.slots.operator.calls then now else c, p)
  {
    SlotsInWatch(s, now);
    ServeFrame(s, now);
    var d := DirectService(s, now);
    assert d.latched && d.cfg == s.cfg && Owns(d.slots.operator);
    WaitBounds(d, now);
  }

  lemma WatchedSpeaks(s: State, now: int, c: int, p: nat)
    requires s.latched && s.slots.operator.registered && s.cfg.Valid() && !Owns(s.slots.operator)
    requires s.slots.operator.alive == Trunc32(c) && s.slots.operator.period == p && c <= now <= c + TickLimit(s.cfg, p)
    ensures var w := Serve(s, now);
            Spoken(w, if w.slots.operator.calls > s.slots.operator.calls then now else c, p)
  {
    TruncDiff(now, c);
    TruncBelow(now - c);
    SlotsInWatch(s, now);
    ServeFrame(s, now);
    var d := DirectService(s, now);
    assert d.latched && d.cfg == s.cfg;
    WaitBounds(d, now);
  }

  lemma ServeSpeaksAtLatch(s: State, now: int, p: nat)
    requires s.latched && s.slots.operator.registered && s.cfg.Valid()
    requires !s.slots.operator.handover && !s.slots.operator.resumed && !s.slots.handler.handover && s.directNext == now
    ensures Serve(s, now).slots.operator.calls > s.slots.operator.calls
    ensures Spoken(Serve(s, now), now, p)
  {
    assert DirectWatch(s, now) == s;
    var d := DirectService(s, now);
    WaitBounds(d, now);
  }

  lemma WakeSpeaks(s: State, now: int, left: nat, nowUs: int, c: int, p: nat)
    requires Inv(s) && ClockOk(s, now) && nowUs >= 1000 * now && s.slots.operator.registered
    requires s.latched ==> c <= now <= c + Gap(s.cfg, p) && Spoken(s, c, p)
    requires s.latched && !Owns(s.slots.operator) ==> now <= c + TickLimit(s.cfg, p)
    ensures var w := WakeStep(s, now, left, nowUs);
            w.latched ==>
              Spoken(w, if w.slots.operator.calls > s.slots.operator.calls then now else c, p)
              && (!s.latched ==> w.slots.operator.calls > s.slots.operator.calls)
  {
    var v := s.(thread := s.thread.(wake := false));
    Reacted(v, now, left, nowUs);
    var r := React(v, now, left, nowUs);
    ServeFrame(r, now);
    if r.latched {
      if s.latched { ServeSpeaks(r, now, c, p); } else { ServeSpeaksAtLatch(r, now, p); }
    }
  }

  lemma QuietSpeaks(s: State, e: Timed, c: int, p: nat)
    requires !e.ev.Wake? && !e.ev.Timeout? && s.slots.operator.registered && s.latched
    requires c <= e.at && Spoken(s, c, p)
    requires e.ev.Report? && e.ev.slot == OPERATOR ==> e.ev.period == p
    ensures var t := Step(s, e.at, e.ev);
            Spoken(t, if ExecutorPublishes(s, e, OPERATOR) then e.at else c, p)
  {
    QuietForward(s, e);
    var t := Step(s, e.at, e.ev);
    assert t.thread.waitUntil == s.thread.waitUntil && (s.thread.wake ==> t.thread.wake);
  }

  /** No later than this with the last command at `c`, whoever owns the slot. */
  predicate Timely(s: State, at: int, c: int, p: nat)
  {
    at <= c + (if Owns(s.slots.operator) then s.cfg.directPeriodMs else TickLimit(s.cfg, p))
  }

  lemma PromptIsTimely(s: State, prev: int, at: int, c: int, p: nat)
    requires prev <= at && Prompt(s, prev, at) && Spoken(s, c, p) && Timely(s, prev, c, p)
    ensures Timely(s, at, c, p)
  {
  }

  /** One step of a prompt run, with the operator's reports at period `p` and the last command at `c`. */
  lemma StepSpeaks(s: State, e: Timed, c: int, p: nat)
    requires Inv(s) && ClockOk(s, e.at) && Admissible(e) && s.slots.operator.registered
    requires e.ev.Report? && e.ev.slot == OPERATOR ==> e.ev.period == p
    requires s.latched ==> c <= e.at && Spoken(s, c, p) && Timely(s, e.at, c, p)
    ensures var t := Step(s, e.at, e.ev);
            var d := if Commands(s, t, e) then e.at else c;
            t.latched ==> Spoken(t, d, p) && (!s.latched ==> Commands(s, t, e))
  {
    match e.ev
    case Wake(left, nowUs) => WakeSpeaks(s, e.at, left, nowUs, c, p);
    case Timeout => if s.latched { ServeSpeaks(s, e.at, c, p); } else { ServeFrame(s, e.at); }
    case _ =>
      QuietForward(s, e);
      QuietCalls(s, e, OPERATOR);
      if s.latched { QuietSpeaks(s, e, c, p); }
  }

  /** The step's own command, or the owner it did not change, keeps the step timely. */
  lemma StepTimely(s: State, e: Timed, c: int, p: nat)
    requires Inv(s) && ClockOk(s, e.at) && Admissible(e) && s.slots.operator.registered && s.latched
    requires c <= e.at && Timely(s, e.at, c, p) && Spoken(s, c, p)
    ensures var t := Step(s, e.at, e.ev);
            Timely(t, e.at, if Commands(s, t, e) then e.at else c, p)
  {
    StepOwner(s, e, OPERATOR);
    StepForward(s, e);
    var t := Step(s, e.at, e.ev);
    if !Commands(s, t, e) { OwnerKept(s, e); }
  }

  /** The operator slot changes owner only in a step that sends a braking command. */
  lemma OwnerKept(s: State, e: Timed)
    requires Inv(s) && ClockOk(s, e.at) && Admissible(e) && s.slots.operator.registered && s.latched
    requires !Commands(s, Step(s, e.at, e.ev), e)
    ensures Owns(Step(s, e.at, e.ev).slots.operator) == Owns(s.slots.operator)
  {
    match e.ev
    case Wake(left, nowUs) =>
      var v := s.(thread := s.thread.(wake := false));
      Reacted(v, e.at, left, nowUs);
      ResumeCommands(React(v, e.at, left, nowUs), e.at);
    case Timeout => ResumeCommands(s, e.at);
    case _ => QuietForward(s, e);
  }

  lemma ResumeCommands(s: State, now: int)
    requires s.latched && s.slots.operator.registered
    ensures var w := Serve(s, now).slots.operator;
            w.calls > s.slots.operator.calls || Owns(w) == Owns(s.slots.operator)
  {
    SlotsInWatch(s, now);
  }

  lemma {:induction false} SpokenAlways(ss: seq<State>, es: seq<Timed>, k: nat, p: nat)
    requires Behaviour(ss, es) && PromptFrom(ss, es, 0) && k <= |es|
    requires ss[0].slots.operator.registered
    requires forall i | 0 <= i < |es| && es[i].ev.Report? && es[i].ev.slot == OPERATOR :: es[i].ev.period == p
    ensures ss[k].slots.operator.registered && ss[k].cfg == ss[0].cfg
    ensures ss[k].latched ==>
              && 0 < k && LastCommand(ss, es, k).Some?
              && var c := LastCommand(ss, es, k).value;
                 c <= es[k - 1].at && Spoken(ss[k], c, p) && Timely(ss[k], es[k - 1].at, c, p)
  {
    if k > 0 {
      SpokenAlways(ss, es, k - 1, p);
      ClockAlways(ss, es, k - 1);
      var s, e := ss[k - 1], es[k - 1];
      assert StepAt(ss, es, k - 1);
      var c := if s.latched then LastCommand(ss, es, k - 1).value else 0;
      if s.latched { PromptIsTimely(s, es[k - 2].at, e.at, c, p); StepTimely(s, e, c, p); }
      StepSpeaks(s, e, c, p);
      StepForward(s, e);
    }
  }

  /**
   * Bounded silence. In every prompt run, from the latch on, a registered operator slot has a last braking
   * command, and no step finds it older than the larger of the direct period and the silence its tick is
   * allowed (RESUME_PERIODS of its period), through handover and resume.
   */
  lemma BoundedSilence(ss: seq<State>, es: seq<Timed>, k: nat, p: nat)
    requires Behaviour(ss, es) && PromptFrom(ss, es, 0) && k < |es|
    requires ss[0].slots.operator.registered && ss[k].latched
    requires forall i | 0 <= i < |es| && es[i].ev.Report? && es[i].ev.slot == OPERATOR :: es[i].ev.period == p
    ensures LastCommand(ss, es, k).Some?
    ensures es[k].at - LastCommand(ss, es, k).value <= Gap(ss[0].cfg, p)
  {
    SpokenAlways(ss, es, k, p);
    assert StepAt(ss, es, k);
    PromptIsTimely(ss[k], es[k - 1].at, es[k].at, LastCommand(ss, es, k).value, p);
  }

  lemma ServeSleeps(s: State, now: int)
    requires s.latched && s.cfg.Valid() && s.cfg.swtMs >= 4
    ensures Serve(s, now).thread.waitUntil.Some? ==> Serve(s, now).thread.waitUntil.value > now
  {
    SlotsInWatch(s, now);
    var d := DirectService(s, now);
    assert d.latched == s.latched && d.cfg == s.cfg by { ServeFrame(s, now); }
    assert Pending(d) ==> d.directNext > now;
  }

  /**
   * Promptness never blocks: after a pass at `now` no wake is pending and every deadline is later, so the
   * clock may move on (while the braking command is younger than 2^32 ms).
   */
  lemma PassLetsTimePass(s: State, now: int, left: nat, nowUs: int)
    requires Inv(s) && ClockOk(s, now) && nowUs >= 1000 * now && s.cfg.swtMs >= 4
    requires s.latched ==> now - s.brake.since < U32
    ensures Prompt(WakeStep(s, now, left, nowUs), now, now + 1)
  {
    var v := s.(thread := s.thread.(wake := false));
    var w := WakeStep(s, now, left, nowUs);
    PassMakesProgress(s, now, left, nowUs);
    WakeKeeps(s, now, left, nowUs);
    var l := w.routes.List();
    EarliestIsLeast(l);
    if w.timer.Some? {
      var i :| 0 <= i < |l| && l[i].valid && l[i].due == w.timer.value;
      assert l[i] in l && !Late(l[i], now);
    }
    Reacted(v, now, left, nowUs);
    var r := React(v, now, left, nowUs);
    ServeFrame(r, now);
    if r.latched { ServeSleeps(r, now); }
  }
}
