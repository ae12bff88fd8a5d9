/** What monotone braking needs: runs in which the commanded acceleration rises under the latch. */
module BrakingLimits {
  import opened Words
  import opened SupervisorSpec
  import opened BrakeLaw
  import opened OperatorSpec
  import opened BrakingRuns
  import opened AgeWrap

  // ------------------------------------------------------------------ the wrap, for every state

  /** A direct publish `at` sends the ramp at the truncated time since the latch, whatever the true time. */
  lemma DirectSendsTruncated(y: System, at: int, ev: Event)
    requires y.o.law.Valid() && y.s.slots.operator.calls > 0
    requires DirectCalled(y.s, SysStep(y, at, Sup(ev)).s) && SysStep(y, at, Sup(ev)).s.latchMs == y.s.latchMs
    ensures var r := Ramp(y.o.law, Start(y), Seconds(Trunc32(at - y.s.latchMs)));
            Sent(y, at, Sup(ev)).Some? && Sent(y, at, Sup(ev)).value.a == r
  {
    AccelerationIsRamp(y.o.law, y.d.a0, Seconds(Trunc32(at - y.s.latchMs)));
  }

  /** A whole number of turns after the latch the ramp starts over. */
  lemma RampRestarts(y: System, turns: nat, at: int, ev: Event)
    requires y.o.law.Valid() && y.s.slots.operator.calls > 0 && at == y.s.latchMs + turns * U32
    requires DirectCalled(y.s, SysStep(y, at, Sup(ev)).s) && SysStep(y, at, Sup(ev)).s.latchMs == y.s.latchMs
    ensures Sent(y, at, Sup(ev)).Some? && Sent(y, at, Sup(ev)).value.a == Start(y)
  {
    ModShift(0, turns);
    DirectSendsTruncated(y, at, ev);
    NoRamp(y);
  }

  lemma NoRamp(y: System)
    requires y.o.law.Valid()
    ensures Ramp(y.o.law, Start(y), Seconds(0)) == Start(y)
  {
    assert Seconds(0) == 0.0;
  }

  // ------------------------------------------------------------------ runs, one event at a time

  /** A run with its transcript, and the last state and command. */
  datatype History = History(ys: seq<System>, es: seq<SysTimed>, cs: seq<Option<Cmd>>)
  {
    ghost predicate Valid() { Transcript(ys, es, cs) }
    function Last(): System
      requires ys != []
    {
      ys[|ys| - 1]
    }
    function Sent(): Option<Cmd>
      requires cs != []
    {
      cs[|cs| - 1]
    }
    function Time(): nat { if es == [] then 0 else es[|es| - 1].at }
  }

  ghost predicate Extends(g: History, f: History)
  {
    |f.cs| <= |g.cs| && g.cs[..|f.cs|] == f.cs && |f.ys| <= |g.ys| && g.ys[..|f.ys|] == f.ys
  }

  lemma Extend(f: History, e: SysTimed) returns (g: History)
    requires f.Valid() && f.Last().o.law.Valid() && SysAdmissible(e) && f.Time() <= e.at
    ensures g.Valid() && Extends(g, f) && |g.cs| == |f.cs| + 1 && g.Time() == e.at
    ensures g.Last() == SysStep(f.Last(), e.at, e.ev)
    ensures g.Sent() == Latest(OperatorSpec.Sent(f.Last(), e.at, e.ev), f.Sent())
  {
    var n := |f.es|;
    g := History(f.ys + [SysStep(f.Last(), e.at, e.ev)], f.es + [e], f.cs + [Latest(OperatorSpec.Sent(f.Last(), e.at, e.ev), f.Sent())]);
    forall k | 0 <= k < |g.es| ensures SysStepAt(g.ys, g.es, k) && SentAt(g.ys, g.es, g.cs, k) {
      if k < n { assert SysStepAt(f.ys, f.es, k) && SentAt(f.ys, f.es, f.cs, k); }
    }
  }

  function Idle(l: Law): System
  {
    System(AtBoot(), Operator(l, 33, false, Cmd(0, 0.0, 0.0, 0.0, 0.0), false, false), Direct(None, 0.0, 0.0, 0.0, None))
  }

  /** Latched at 1000 by the hook, the first direct command out, nothing handed over. */
  predicate JustLatched(y: System, c: Option<Cmd>, l: Law)
  {
    && y.o == Idle(l).o && y.s.latched && y.s.latchMs == 1000 && y.s.cfg == AtBoot().cfg
    && Kept(y.s.slots.handler) && Kept(y.s.slots.operator) && y.s.slots.operator.registered
    && y.s.slots.operator.calls == 1 && y.s.directNext == 1033
    && y.d == Direct(None, 0.0, 0.0, 0.0, c) && c.Some? && c.value.a == 0.0 && c.value.stamp == 1000
  }

  lemma HookCalls(s: State)
    requires s == SupervisorSpec.Step(AtBoot(), 1000, Hook)
    ensures var w := SupervisorSpec.Step(s, 1000, Wake(1, 1_000_000));
            w.latchMs == 1000 && w.slots.operator.registered && w.slots.operator.calls == 1 && w.directNext == 1033
  {
    var v := s.(thread := s.thread.(wake := false));
    assert JudgeRoutes(v, 1, 1000, 1, 1_000_000) == Pass(v, false);
    assert JudgeRoutes(v, 2, 1000, 1, 1_000_000) == Pass(v, false);
    assert JudgeRoutes(v, 3, 1000, 1, 1_000_000) == Pass(v, false);
    assert JudgeRoutes(v, 4, 1000, 1, 1_000_000) == Pass(v, false);
    assert JudgeRoutes(v, ROUTES, 1000, 1, 1_000_000) == Pass(v, false);
    var r := React(v, 1000, 1, 1_000_000);
    assert r.latched && r.directNext == 1000 && DirectWatch(r, 1000) == r;
  }

  lemma FirstCommand(l: Law, stamp: int)
    requires l.Valid()
    ensures DirectCmd(l, Direct(None, 0.0, 0.0, 0.0, None), 0, stamp).a == 0.0
  {
    AccelerationIsRamp(l, 0.0, 0.0);
  }

  lemma LatchedRun(l: Law) returns (g: History)
    requires l.Valid()
    ensures g.Valid() && JustLatched(g.Last(), g.Sent(), l) && g.Time() == 1000
  {
    var f := History([Idle(l)], [], [None]);
    f := Extend(f, SysTimed(1000, Sup(Hook)));
    HookLatches(f.Last().s);
    HookCalls(f.Last().s);
    FirstCommand(l, 1000);
    g := Extend(f, SysTimed(1000, Sup(Wake(1, 1_000_000))));
  }

  // ------------------------------------------------------------------ released by the wrap

  lemma KeptTimeout(s: State, now: int)
    requires s.latched && Kept(s.slots.handler) && Kept(s.slots.operator) && s.slots.operator.registered && now >= s.directNext
    ensures var w := TimeoutStep(s, now);
            && w.slots.operator.calls == s.slots.operator.calls + 1 && w.latched && w.latchMs == s.latchMs
            && Kept(w.slots.handler) && Kept(w.slots.operator) && w.slots.operator.registered
            && w.directNext == now + s.cfg.directPeriodMs && w.cfg == s.cfg
  {
    KeptServe(s, now);
    assert DirectWatch(s, now) == s;
  }

  /** The direct path still owns the slot, from a start of zero. */
  predicate Directed(y: System, l: Law)
  {
    && y.o.law == l && y.s.latched && y.s.latchMs == 1000 && y.d.a0 == 0.0 && y.s.directNext <= 2000
    && Kept(y.s.slots.handler) && Kept(y.s.slots.operator) && y.s.slots.operator.registered && y.s.slots.operator.calls > 0
  }

  lemma SecondPublish(l: Law) returns (m: History)
    requires l.Valid()
    ensures m.Valid() && m.Time() == 1033 && Directed(m.Last(), l) && m.Sent().Some? && m.Sent().value.a < 0.0
  {
    var f := LatchedRun(l);
    KeptTimeout(f.Last().s, 1033);
    m := Extend(f, SysTimed(1033, Sup(Timeout)));
    DirectSendsTruncated(f.Last(), 1033, Timeout);
    RampBelowZero(l);
  }

  lemma RampBelowZero(l: Law)
    requires l.Valid()
    ensures Ramp(l, Entry(l, 0.0), Seconds(Trunc32(33))) < 0.0
  {
    Strict(0.033, -l.jerk);
  }

  /** For every law, a run whose direct publish 2^32 ms after the latch commands less braking than the one before it. */
  lemma WrapReleases(l: Law) returns (g: History, i: nat)
    requires l.Valid()
    ensures g.Valid() && i < |g.cs| - 1 && g.ys[i].s.latched
    ensures g.cs[i].Some? && g.Sent().Some? && g.Sent().value.a > g.cs[i].value.a
  {
    var m := SecondPublish(l);
    i := |m.cs| - 1;
    KeptTimeout(m.Last().s, 1000 + U32);
    RampRestarts(m.Last(), 1, 1000 + U32, Timeout);
    g := Extend(m, SysTimed(1000 + U32, Sup(Timeout)));
    assert g.cs[i] == m.Sent() && g.ys[i] == m.Last();
  }

  // ------------------------------------------------------------------ released by an operator taken off OPERATING

  /** A coasting command of the time it is taken. */
  const COAST: Cmd := Cmd(1033, 10.0, 0.0, 0.0, 0.0)

  lemma TakeOverTick(y: System, c: Cmd, l: Law)
    requires l.Valid() && y == y.(o := Idle(l).o.(operating := true)) && JustLatched(y.(o := Idle(l).o), Some(c), l)
    ensures var z := SysStep(y, 1033, OpTick);
            && OperatorSpec.Sent(y, 1033, OpTick).Some? && OperatorSpec.Sent(y, 1033, OpTick).value.a < 0.0
            && z.s.latched && !z.s.slots.operator.resumed && z.o.takenOver && z.o.law == l && z.o.operating
  {
    Strict(0.033, -l.jerk);
    assert Seconds(33) == 0.033;
  }

  lemma CoastTick(y: System, l: Law)
    requires l.Valid() && y.s.latched && !y.s.slots.operator.resumed
    requires y.o.takenOver && y.o.law == l && y.o.operating && y.o.prev == COAST && y.o.subscribed
    ensures OperatorSpec.Sent(y, 1033, OpTick).Some? && OperatorSpec.Sent(y, 1033, OpTick).value.a == 0.0
  {
    assert Seconds(0) == 0.0 && l.jerk * 0.0 == 0.0;
  }

  /**
   * For every law, a run in which the operator, taken off OPERATING after its takeover, takes a coasting command
   * and sends it when it is OPERATING again: the acceleration commanded rises under the latch.
   */
  lemma UnsteadyReleases(l: Law) returns (g: History, i: nat)
    requires l.Valid()
    ensures g.Valid() && i < |g.cs| - 1 && g.ys[i].s.latched
    ensures g.cs[i].Some? && g.Sent().Some? && g.Sent().value.a > g.cs[i].value.a
  {
    var f := LatchedRun(l);
    var on := Extend(f, SysTimed(1000, Operate(true)));
    TakeOverTick(on.Last(), on.Sent().value, l);
    var m := Extend(on, SysTimed(1033, OpTick));
    i := |m.cs| - 1;
    var off := Extend(m, SysTimed(1033, Operate(false)));
    var coast := Extend(off, SysTimed(1033, Control(COAST)));
    var back := Extend(coast, SysTimed(1033, Operate(true)));
    assert back.Last().o.prev == COAST && back.Last().s == m.Last().s;
    CoastTick(back.Last(), l);
    g := Extend(back, SysTimed(1033, OpTick));
    Carried(g, back, coast, off, m);
  }

  lemma Carried(g: History, d: History, c: History, b: History, m: History)
    requires Extends(g, d) && Extends(d, c) && Extends(c, b) && Extends(b, m) && m.cs != [] && |m.cs| == |m.ys|
    ensures |g.cs| >= |m.cs| && |g.ys| >= |m.ys| && g.cs[|m.cs| - 1] == m.Sent() && g.ys[|m.cs| - 1] == m.Last()
  {
    var i := |m.cs| - 1;
    assert m.cs[i] == b.cs[..|m.cs|][i] == b.cs[i] == c.cs[..|b.cs|][i] == c.cs[i] == d.cs[..|c.cs|][i] == d.cs[i];
    assert d.cs[i] == g.cs[..|d.cs|][i];
    assert m.ys[i] == b.ys[..|m.ys|][i] == b.ys[i] == c.ys[..|b.ys|][i] == c.ys[i] == d.ys[..|c.ys|][i] == d.ys[i];
    assert d.ys[i] == g.ys[..|d.ys|][i];
  }
}
