/** A braking command older than 2^32 ms: its age reads as young, and the floor waits at every pass without bound. */
module AgeWrap {
  import opened Words
  import opened SupervisorSpec
  import opened RouteTable
  import opened ReactionPass
  import opened FloorRuns
  import Judge

  predicate NoneBut(t: Table) { !t.callMrm.valid && !t.executor.valid && !t.comfortable.valid && !t.response.valid }

  predicate Kept(x: Slot) { !x.handover && !x.resumed }

  /** Latched 2^32 ms ago or more, the floor late, the vehicle seen moving, and the age wrapped to less than the span. */
  predicate Stuck(s: State, now: int)
  {
    && s.latched && now - s.brake.since >= U32 && Braked(s, now) < s.cfg.FloorSpan()
    && NoneBut(s.routes) && Late(s.routes.floor, now) && s.routes.floor.due >= s.brake.since + s.cfg.FloorSpan()
    && !Judge.Unseen(s.sample.at) && !Stopped(s, now)
    && Kept(s.slots.handler) && Kept(s.slots.operator) && !s.thread.hook && !s.thread.swt
  }

  lemma StuckJudged(s: State, now: int, left: nat, nowUs: int)
    requires Stuck(s, now)
    ensures var q := JudgeRoutes(s, ROUTES, now, left, nowUs);
            && !q.fired
            && q.s == s.(floor := s.floor.(stage := Judge.DirectStage, waits := s.floor.waits + 1),
                         routes := s.routes.(floor := Armed(s.brake.since + s.cfg.FloorSpan())))
  {
    assert JudgeRoutes(s, 1, now, left, nowUs) == Pass(s, false);
    assert JudgeRoutes(s, 2, now, left, nowUs) == Pass(s, false);
    assert JudgeRoutes(s, FLOOR, now, left, nowUs) == Pass(s, false);
    assert FloorVerdict(s, now).Wait?;
    assert JudgeRoutes(s, RESPONSE, now, left, nowUs) == ApplyFloor(Pass(s, false), now, Judge.Wait);
  }

  /** Without a handed-over slot, serving touches the slots' calls, the next publish and the wait alone. */
  lemma KeptServe(s: State, now: int)
    requires Kept(s.slots.handler) && Kept(s.slots.operator)
    ensures var w := Serve(s, now);
            && w == s.(slots := w.slots, directNext := w.directNext, thread := w.thread)
            && w.thread == s.thread.(waitUntil := w.thread.waitUntil)
            && Kept(w.slots.handler) && Kept(w.slots.operator)
  {
    assert DirectWatch(s, now) == s;
  }

  /** Every pass waits, counts the wait, leaves the floor in the past, and the next pass at that time does the same. */
  lemma StuckPass(s: State, now: int, left: nat, nowUs: int)
    requires Stuck(s, now)
    ensures WaitsInPast(s, now) && FloorWaits(s, now) && !FloorEarly(s)
    ensures var w := WakeStep(s, now, left, nowUs);
            Stuck(w, now) && w.floor.waits == s.floor.waits + 1 && Late(w.routes.floor, now)
  {
    var v := s.(thread := s.thread.(wake := false));
    StuckJudged(v, now, left, nowUs);
    var r := React(v, now, left, nowUs);
    assert r.routes.floor == Armed(s.brake.since + s.cfg.FloorSpan());
    KeptServe(r, now);
  }

  // ------------------------------------------------------------------ a run that gets there

  const AT: nat := 0x1_0000_0000 + 5000

  /** The hook latches at 1000; the floor is armed a whole span before `AT`, and the vehicle reads 5 m/s then. */
  const BASE: seq<Timed> := [
    Timed(1000, Hook), Timed(1000, Wake(1, 1_000_000)), Timed(AT - 4300, Arm(FLOOR, AT)), Timed(AT, NoteSpeed(5000))]

  function AtBoot(): State
  {
    State(Config(4000, 1000, 300, 500, 33, 3, 100), Table(OFF, OFF, OFF, OFF, OFF), None,
          Slots(Slot(true, 0, false, false, 0, 0), Slot(true, 0, false, false, 0, 0)),
          false, 0, NoCause, Brake(0, 0, false), 0, Sample(0, 0), Floor(Judge.Idle, 0, 0, 0, 0, 0), NoFault,
          Thread(false, false, false, false, None))
  }

  /** What the hook's pass leaves. */
  lemma HookLatches(s: State)
    requires s == Step(AtBoot(), 1000, Hook)
    ensures var w := Step(s, 1000, Wake(1, 1_000_000));
            && w.latched && w.brake.since == 1000 && w.routes == s.routes && w.floor == s.floor && w.cfg == s.cfg
            && w.sample == s.sample && Kept(w.slots.handler) && Kept(w.slots.operator) && !w.thread.hook && !w.thread.swt
  {
    var v := s.(thread := s.thread.(wake := false));
    assert JudgeRoutes(v, 1, 1000, 1, 1_000_000) == Pass(v, false);
    assert JudgeRoutes(v, 2, 1000, 1, 1_000_000) == Pass(v, false);
    assert JudgeRoutes(v, 3, 1000, 1, 1_000_000) == Pass(v, false);
    assert JudgeRoutes(v, 4, 1000, 1, 1_000_000) == Pass(v, false);
    assert JudgeRoutes(v, ROUTES, 1000, 1, 1_000_000) == Pass(v, false);
    KeptServe(React(v, 1000, 1, 1_000_000), 1000);
  }

  lemma ArmedAndSeen(s: State)
    requires s.latched && s.brake.since == 1000 && s.routes == AtBoot().routes && s.cfg == AtBoot().cfg && s.sample == Sample(0, 0)
    requires s.floor == AtBoot().floor && Kept(s.slots.handler) && Kept(s.slots.operator) && !s.thread.hook && !s.thread.swt
    ensures var a := Step(s, AT - 4300, Arm(FLOOR, AT));
            var w := Step(a, AT, NoteSpeed(5000));
            Stuck(w, AT) && w.floor.waits == 0
  {
    assert Trunc32(AT - 1000) == 4000 && Trunc32(AT) == 5000;
  }

  lemma BaseRun() returns (ss: seq<State>)
    ensures Behaviour(ss, BASE) && Stuck(ss[|BASE|], AT) && ss[|BASE|].floor.waits == 0
  {
    var s0 := AtBoot();
    var s1 := Step(s0, 1000, Hook);
    var s2 := Step(s1, 1000, Wake(1, 1_000_000));
    var s3 := Step(s2, AT - 4300, Arm(FLOOR, AT));
    var s4 := Step(s3, AT, NoteSpeed(5000));
    HookLatches(s1);
    ArmedAndSeen(s2);
    ss := [s0, s1, s2, s3, s4];
    forall k | 0 <= k < |BASE| ensures StepAt(ss, BASE, k) { Four(k); }
  }

  lemma Four(k: nat)
    requires k < 4
    ensures k == 0 || k == 1 || k == 2 || k == 3
  {
  }

  lemma {:induction false} TallyPrefix(ss: seq<State>, es: seq<Timed>, ts: seq<State>, fs: seq<Timed>, k: nat)
    requires |ss| == |es| + 1 <= |ts| == |fs| + 1 && ts[..|ss|] == ss && fs[..|es|] == es && k <= |es|
    ensures TallyOf(ts, fs, k) == TallyOf(ss, es, k)
  {
    if k > 0 {
      TallyPrefix(ss, es, ts, fs, k - 1);
      assert ts[k - 1] == ts[..|ss|][k - 1] && fs[k - 1] == fs[..|es|][k - 1];
    }
  }

  lemma OneMoreWake(ss: seq<State>, es: seq<Timed>) returns (ts: seq<State>, fs: seq<Timed>)
    requires Behaviour(ss, es) && es != [] && es[|es| - 1].at == AT && Stuck(ss[|es|], AT)
    ensures Behaviour(ts, fs) && fs == es + [Timed(AT, Wake(1, 1000 * AT))] && Stuck(ts[|fs|], AT)
    ensures ts[|fs|].floor.waits == ss[|es|].floor.waits + 1 && ts[..|ss|] == ss
    ensures TallyOf(ts, fs, |fs|).floor == TallyOf(ss, es, |es|).floor + 1
  {
    var n := |es|;
    StuckPass(ss[n], AT, 1, 1000 * AT);
    ts, fs := ss + [WakeStep(ss[n], AT, 1, 1000 * AT)], es + [Timed(AT, Wake(1, 1000 * AT))];
    forall k | 0 <= k < |fs| ensures StepAt(ts, fs, k) { if k < n { assert StepAt(ss, es, k); } }
    TallyPrefix(ss, es, ts, fs, n);
  }

  /** For every `n` a run from boot with `n` floor waits, all of them unpaid: each of its last `n` passes waits in the past. */
  lemma {:induction false} WaitsWithoutBound(n: nat) returns (ss: seq<State>, es: seq<Timed>)
    ensures Behaviour(ss, es) && |es| == |BASE| + n && es[|es| - 1].at == AT && Stuck(ss[|es|], AT)
    ensures ss[|es|].floor.waits == n && TallyOf(ss, es, |es|).floor == n
  {
    if n == 0 {
      ss := BaseRun();
      es := BASE;
      WaitsAccounted(ss, es, |es|);
    } else {
      ss, es := WaitsWithoutBound(n - 1);
      ss, es := OneMoreWake(ss, es);
    }
  }

  /** The exception to progress is reached: a run from boot whose last pass waits in the past and leaves the floor there. */
  lemma AgeWraps() returns (ss: seq<State>, es: seq<Timed>)
    ensures Behaviour(ss, es) && |es| > 0 && es[|es| - 1].ev.Wake?
    ensures WaitsInPast(ss[|es| - 1], es[|es| - 1].at) && LeavesLate(ss[|es|], es[|es| - 1].at)
  {
    var rs := BaseRun();
    var n := |BASE|;
    StuckPass(rs[n], AT, 1, 1000 * AT);
    ss, es := OneMoreWake(rs, BASE);
    assert ss[n] == rs[n] && StepAt(ss, es, n);
    assert ss[n + 1].routes.List()[FLOOR] == ss[n + 1].routes.floor;
  }
}
