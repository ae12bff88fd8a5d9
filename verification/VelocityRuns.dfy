/** The commanded velocity over whole runs: never below the closed form's, and above it by a fixed bound. */
module VelocityRuns {
  import opened Words
  import opened SupervisorSpec
  import opened RouteTable
  import opened BrakeLaw
  import opened OperatorSpec
  import opened BrakingRuns
  import opened SeedRuns
  import DirectPath

  // ------------------------------------------------------------------ one step, over the reals

  lemma Clamped(v: real, i: real, w: real, i2: real, d: real)
    requires MaxReal(i, 0.0) <= v && i + w - i2 == d >= 0.0 && (i < 0.0 ==> w <= 0.0)
    ensures MaxReal(i2, 0.0) <= MaxReal(v + w, 0.0)
    ensures MaxReal(v + w, 0.0) - MaxReal(i2, 0.0) <= (v - MaxReal(i, 0.0)) + d
  {
  }

  lemma Difference(c: real, x: real, y: real, p: real, q: real)
    requires c * x == p && c * y == q
    ensures c * (x - y) == p - q
  {
    Distributes(c, x, -y);
  }

  /** `i` satisfies the area law from `v0` at the ramp's start to time `t`. */
  predicate Area(l: Law, j: real, v0: real, a0: real, t: real, i: real)
  {
    2.0 * j * (i - v0 - l.target * t) == Sq(Above(l, a0)) - Sq(Above(l, Ramp(l, a0, t)))
  }

  lemma AreaLeft(c: real, v0: real, at: real, ad: real, i: real, i2: real, s0: real, sx: real, sy: real)
    requires c * (i - v0 - at) == s0 - sx && c * (i2 - v0 - (at + ad)) == s0 - sy
    ensures c * (i2 - i - ad) == sx - sy
  {
    Difference(c, i2 - v0 - (at + ad), i - v0 - at, s0 - sy, s0 - sx);
    assert (i2 - v0 - (at + ad)) - (i - v0 - at) == i2 - i - ad;
  }

  /** One step against the closed form, in its bare numbers: `e` is what the step adds, times 2|J|. */
  lemma BareStep(j: real, h: real, x0: real, x: real, y: real, v0: real, at: real, ad: real, v: real, i: real, w: real, i2: real,
                 s0: real, sx: real, sy: real, e: real)
    requires j > 0.0 && x0 >= x >= y >= 0.0 && (i < 0.0 ==> w <= 0.0)
    requires 2.0 * j * (i - v0 - at) == s0 - sx && 2.0 * j * (i2 - v0 - (at + ad)) == s0 - sy
    requires e == 2.0 * j * (w - ad) - (sx - sy) && 0.0 <= e <= ExcessBound(j, x, y, h)
    requires MaxReal(i, 0.0) <= v && 2.0 * j * (v - MaxReal(i, 0.0)) <= ExcessBound(j, x0, x, h)
    ensures MaxReal(i2, 0.0) <= MaxReal(v + w, 0.0)
    ensures 2.0 * j * (MaxReal(v + w, 0.0) - MaxReal(i2, 0.0)) <= ExcessBound(j, x0, y, h)
  {
    AreaLeft(2.0 * j, v0, at, ad, i, i2, s0, sx, sy);
    Difference(2.0 * j, w - ad, i2 - i - ad, e + (sx - sy), sx - sy);
    assert (w - ad) - (i2 - i - ad) == i + w - i2;
    OverAdds(j, h, x0, x, y, v, i, w, i2);
  }

  /** What the step adds. */
  lemma StepShare(l: Law, j: real, a: real, dt: real, h: real, w: real, ad: real, y: real) returns (e: real)
    requires Magnitude(l, j) && l.target <= a && 0.0 <= dt <= h && w == a * dt && ad == l.target * dt
    requires y == Above(l, Ramp(l, a, dt))
    ensures e == 2.0 * j * (w - ad) - (Sq(Above(l, a)) - Sq(y)) && 0.0 <= e <= ExcessBound(j, Above(l, a), y, h)
  {
    var q := Point(0.0, a);
    StepBounds(l, j, q, dt, h);
    e := Excess(l, j, q, RawStep(l, q, dt), dt);
    assert q.v + w - q.v - ad == w - ad;
  }

  /** `v` is at least the velocity `i` clamped, and over it by at most what steps of `h` may have added down to `a`. */
  predicate OverBy(l: Law, j: real, a0: real, a: real, i: real, v: real, h: real)
  {
    MaxReal(i, 0.0) <= v && 2.0 * j * (v - MaxReal(i, 0.0)) <= ExcessBound(j, Above(l, a0), Above(l, a), h)
  }

  /** The same of the closed form's velocity at `t`. */
  predicate Over(l: Law, j: real, v0: real, a0: real, t: real, v: real, h: real)
    requires l.Valid()
  {
    OverBy(l, j, a0, Ramp(l, a0, t), Integral(l, v0, a0, t), v, h)
  }

  lemma NegativeFalls(l: Law, j: real, v0: real, a0: real, t: real, dt: real)
    requires Magnitude(l, j) && a0 >= l.target && t >= 0.0 && v0 >= 0.0 && dt >= 0.0 && Integral(l, v0, a0, t) < 0.0
    ensures Ramp(l, a0, t) * dt <= 0.0
  {
    var a := Ramp(l, a0, t);
    if a > 0.0 { AreaAboveStart(l, j, v0, a0, t); }
    MulPos(-a, dt);
  }

  /** The bounds add along a step. */
  lemma OverAdds(j: real, h: real, x0: real, x: real, y: real, v: real, i: real, w: real, i2: real)
    requires j > 0.0 && x0 >= x >= y >= 0.0 && (i < 0.0 ==> w <= 0.0)
    requires MaxReal(i, 0.0) <= v && 2.0 * j * (v - MaxReal(i, 0.0)) <= ExcessBound(j, x0, x, h)
    requires 0.0 <= 2.0 * j * (i + w - i2) <= ExcessBound(j, x, y, h)
    ensures MaxReal(i2, 0.0) <= MaxReal(v + w, 0.0)
    ensures 2.0 * j * (MaxReal(v + w, 0.0) - MaxReal(i2, 0.0)) <= ExcessBound(j, x0, y, h)
  {
    NonNegative(j, i + w - i2);
    Clamped(v, i, w, i2, i + w - i2);
    BoundAdds(j, x0, x, y, h);
    ScaledSum(j, MaxReal(v + w, 0.0) - MaxReal(i2, 0.0), v - MaxReal(i, 0.0), i + w - i2);
  }

  lemma ScaledSum(j: real, x: real, y: real, z: real)
    requires j > 0.0 && x <= y + z
    ensures 2.0 * j * x <= 2.0 * j * y + 2.0 * j * z
  {
    Distributes(2.0 * j, y, z);
    MulPos(2.0 * j, y + z - x);
    Distributes(2.0 * j, y + z, -x);
  }

  lemma RampBetween(l: Law, a0: real, t: real, dt: real)
    requires l.Valid() && a0 >= l.target && t >= 0.0 && dt >= 0.0
    ensures l.target <= Ramp(l, a0, t + dt) <= Ramp(l, a0, t) <= a0
  {
    RampFalls(l, a0, t, t + dt);
    Falling(l, t);
  }

  /** The bound, whatever the time. */
  lemma OverBounds(l: Law, j: real, a0: real, a: real, i: real, v: real, h: real)
    requires Magnitude(l, j) && l.target <= a <= a0 && h >= 0.0 && OverBy(l, j, a0, a, i, v, h)
    ensures v <= MaxReal(i, 0.0) + Above(l, a0) * h / 2.0 + j * h * h / 8.0
  {
    var g := v - MaxReal(i, 0.0);
    MulPos(2.0 * j, g);
    GapBounds(j, h, Above(l, a0), Above(l, a), g);
  }

  lemma ExactIsOver(l: Law, j: real, v0: real, a0: real, t: real, h: real)
    requires Magnitude(l, j) && a0 >= l.target && t >= 0.0 && h >= 0.0
    ensures Over(l, j, v0, a0, t, MaxReal(Integral(l, v0, a0, t), 0.0), h)
  {
    RampBetween(l, a0, t, 0.0);
    MulPos(j, h);
    MulPos(j * h, Above(l, a0) - Above(l, Ramp(l, a0, t)));
    SquareNonNegative(j * h);
  }

  // ------------------------------------------------------------------ a tick's step against the closed form

  const STEP: real := 0.1

  lemma AreaIs(l: Law, j: real, v0: real, a0: real, t: real, i: real)
    requires Magnitude(l, j) && a0 >= l.target && t >= 0.0 && i == Integral(l, v0, a0, t)
    ensures Area(l, j, v0, a0, t, i)
  {
    IntegralIsArea(l, j, v0, a0, t);
  }

  lemma NegativeArea(l: Law, j: real, v0: real, a0: real, t: real, dt: real, i: real, a: real)
    requires Magnitude(l, j) && a0 >= l.target && t >= 0.0 && v0 >= 0.0 && dt >= 0.0
    requires i == Integral(l, v0, a0, t) && a == Ramp(l, a0, t)
    ensures i < 0.0 ==> a * dt <= 0.0
  {
    if i < 0.0 { NegativeFalls(l, j, v0, a0, t, dt); }
  }

  lemma AreaStep(l: Law, j: real, v0: real, a0: real, t: real, dt: real, v: real, a: real, w: real, i: real, i2: real, r: real)
    requires Magnitude(l, j) && a0 >= l.target && t >= 0.0 && 0.0 <= dt <= STEP && a == Ramp(l, a0, t) && r == Ramp(l, a0, t + dt)
    requires w == a * dt && (i < 0.0 ==> w <= 0.0) && Area(l, j, v0, a0, t, i) && Area(l, j, v0, a0, t + dt, i2)
    requires OverBy(l, j, a0, a, i, v, STEP)
    ensures OverBy(l, j, a0, r, i2, MaxReal(v + w, 0.0), STEP)
  {
    var at, ad := l.target * t, l.target * dt;
    RampMore(l, a0, t, dt, a, r);
    var e := StepShare(l, j, a, dt, STEP, w, ad, Above(l, r));
    AreaParts(l, j, v0, a0, t, dt, i, i2, at, ad, a, r);
    BareOver(l, j, v0, a0, at, ad, v, a, w, i, i2, r, e);
  }

  lemma BareOver(l: Law, j: real, v0: real, a0: real, at: real, ad: real, v: real, a: real, w: real, i: real, i2: real, r: real, e: real)
    requires j > 0.0 && l.target <= r <= a <= a0 && (i < 0.0 ==> w <= 0.0)
    requires 2.0 * j * (i - v0 - at) == Sq(Above(l, a0)) - Sq(Above(l, a))
    requires 2.0 * j * (i2 - v0 - (at + ad)) == Sq(Above(l, a0)) - Sq(Above(l, r))
    requires e == 2.0 * j * (w - ad) - (Sq(Above(l, a)) - Sq(Above(l, r))) && 0.0 <= e <= ExcessBound(j, Above(l, a), Above(l, r), STEP)
    requires OverBy(l, j, a0, a, i, v, STEP)
    ensures OverBy(l, j, a0, r, i2, MaxReal(v + w, 0.0), STEP)
  {
    BareStep(j, STEP, Above(l, a0), Above(l, a), Above(l, r), v0, at, ad, v, i, w, i2, Sq(Above(l, a0)), Sq(Above(l, a)), Sq(Above(l, r)), e);
  }

  lemma AreaParts(l: Law, j: real, v0: real, a0: real, t: real, dt: real, i: real, i2: real, at: real, ad: real, a: real, r: real)
    requires Area(l, j, v0, a0, t, i) && Area(l, j, v0, a0, t + dt, i2) && at == l.target * t && ad == l.target * dt
    requires a == Ramp(l, a0, t) && r == Ramp(l, a0, t + dt)
    ensures 2.0 * j * (i - v0 - at) == Sq(Above(l, a0)) - Sq(Above(l, a))
    ensures 2.0 * j * (i2 - v0 - (at + ad)) == Sq(Above(l, a0)) - Sq(Above(l, r))
  {
    Distributes(l.target, t, dt);
  }

  lemma RampMore(l: Law, a0: real, t: real, dt: real, a: real, r: real)
    requires l.Valid() && a0 >= l.target && t >= 0.0 && dt >= 0.0 && a == Ramp(l, a0, t) && r == Ramp(l, a0, t + dt)
    ensures l.target <= r <= a <= a0 && r == Ramp(l, a, dt)
  {
    RampAdds(l, a0, t, dt);
    RampBetween(l, a0, t, dt);
  }

  lemma StepTo(l: Law, j: real, v0: real, a0: real, t: real, dt: real, v: real, a: real, w: real, i: real, u: real, r: real)
    requires Magnitude(l, j) && a0 >= l.target && t >= 0.0 && 0.0 <= dt <= STEP && a == Ramp(l, a0, t) && u == t + dt && r == Ramp(l, a0, u)
    requires w == a * dt && (i < 0.0 ==> w <= 0.0) && Area(l, j, v0, a0, t, i) && OverBy(l, j, a0, a, i, v, STEP)
    ensures OverBy(l, j, a0, r, Integral(l, v0, a0, u), MaxReal(v + w, 0.0), STEP)
  {
    var i2 := Integral(l, v0, a0, u);
    AreaIs(l, j, v0, a0, u, i2);
    AreaStep(l, j, v0, a0, t, dt, v, a, w, i, i2, r);
  }

  /** And at its start. */
  lemma StepSped(l: Law, j: real, v0: real, a0: real, t: real, dt: real, v: real, a: real, w: real, i: real, u: real, r: real)
    requires Magnitude(l, j) && a0 >= l.target && t >= 0.0 && v0 >= 0.0 && 0.0 <= dt <= STEP && u == t + dt
    requires a == Ramp(l, a0, t) && r == Ramp(l, a0, u) && w == a * dt && i == Integral(l, v0, a0, t) && OverBy(l, j, a0, a, i, v, STEP)
    ensures OverBy(l, j, a0, r, Integral(l, v0, a0, u), MaxReal(v + w, 0.0), STEP)
  {
    AreaIs(l, j, v0, a0, t, i);
    NegativeArea(l, j, v0, a0, t, dt, i, a);
    StepTo(l, j, v0, a0, t, dt, v, a, w, i, u, r);
  }

  // ------------------------------------------------------------------ every run

  /** What the closed form starts from: the law, the direct path's start and the latch. */
  datatype Origin = Origin(law: Law, v0: real, a0: real, latchMs: int)

  function OriginOf(y: System): Origin { Origin(y.o.law, y.d.v0, Start(y), y.s.latchMs) }

  /** A command's velocity against the closed form at its stamp. */
  predicate Sped(g: Origin, c: Cmd)
    requires g.law.Valid()
  {
    Over(g.law, -g.law.jerk, g.v0, g.a0, Seconds(c.stamp - g.latchMs), c.v, STEP)
  }

  lemma SameArea(l: Law, v0: real, a0: real, t: real)
    requires l.Valid()
    ensures Integral(l, v0, a0, t) == Integral(l, v0, Entry(l, a0), t)
  {
  }

  lemma DirectSped(ys: seq<System>, es: seq<SysTimed>, cs: seq<Option<Cmd>>, k: nat)
    requires Transcript(ys, es, cs) && k < |es| && ys[k + 1].s.latched && es[k].ev.Sup? && DirectCalled(ys[k].s, ys[k + 1].s)
    requires 0 <= es[k].at - ys[k + 1].s.latchMs < U32
    ensures ys[k + 1].o.law.Valid() && cs[k + 1].Some? && Sped(OriginOf(ys[k + 1]), cs[k + 1].value)
  {
    TranscriptStep(ys, es, cs, k);
    var d := ys[k + 1].d;
    DirectSends(ys[k], es[k].at, es[k].ev.ev, Cmd(0, d.v0, d.a0, 0.0, d.steer));
    TruncBelow(es[k].at - ys[k + 1].s.latchMs);
    ClosedSped(OriginOf(ys[k + 1]), d.a0, cs[k + 1].value);
  }

  lemma ClosedSped(g: Origin, a0: real, c: Cmd)
    requires g.law.Valid() && g.a0 == Entry(g.law, a0) && g.latchMs <= c.stamp
    requires c.v == MaxReal(Integral(g.law, g.v0, a0, Seconds(c.stamp - g.latchMs)), 0.0)
    ensures Sped(g, c)
  {
    var t := Seconds(c.stamp - g.latchMs);
    SameArea(g.law, g.v0, a0, t);
    ExactIsOver(g.law, -g.law.jerk, g.v0, g.a0, t, STEP);
  }

  lemma TickSped(g: Origin, p: Cmd, sent: Cmd, t: real, dt: real, u: real)
    requires g.law.Valid() && g.a0 >= g.law.target && g.v0 >= 0.0 && Sped(g, p) && p.a == Ramp(g.law, g.a0, t)
    requires t == Seconds(p.stamp - g.latchMs) && u == Seconds(sent.stamp - g.latchMs) && u == t + dt && t >= 0.0 && 0.0 <= dt <= STEP
    requires sent.v == MaxReal(p.v + p.a * dt, 0.0)
    ensures Sped(g, sent)
  {
    TickBare(g.law, g.v0, g.a0, t, dt, u, p.v, p.a, sent.v);
  }

  lemma TickBare(l: Law, v0: real, a0: real, t: real, dt: real, u: real, v: real, a: real, nv: real)
    requires l.Valid() && a0 >= l.target && t >= 0.0 && v0 >= 0.0 && 0.0 <= dt <= STEP && u == t + dt
    requires a == Ramp(l, a0, t) && nv == MaxReal(v + a * dt, 0.0) && Over(l, -l.jerk, v0, a0, t, v, STEP)
    ensures Over(l, -l.jerk, v0, a0, u, nv, STEP)
  {
    StepSped(l, -l.jerk, v0, a0, t, dt, v, a, a * dt, Integral(l, v0, a0, t), u, Ramp(l, a0, u));
  }

  lemma SinceAdds(a: int, b: int, latchMs: int)
    requires latchMs <= a <= b <= a + 100
    ensures Seconds(b - latchMs) == Seconds(a - latchMs) + Seconds(b - a) && 0.0 <= Seconds(a - latchMs) && 0.0 <= Seconds(b - a) <= STEP
  {
  }

  lemma WithinStep(l: Law, p: Cmd, sent: Cmd, dt: real)
    requires Continues(l, p, sent.stamp - p.stamp, sent) && dt == Seconds(sent.stamp - p.stamp) && 0.0 <= dt <= STEP
    ensures sent.v == MaxReal(p.v + p.a * dt, 0.0)
  {
  }

  /** The operator's tick under the latch keeps it. */
  lemma TickStaysSped(ys: seq<System>, es: seq<SysTimed>, cs: seq<Option<Cmd>>, k: nat)
    requires Transcript(ys, es, cs) && k < |es| && Undisturbed(ys, es, k + 1) && ShortGaps(ys, es, cs, k + 1) && ys[k].s.latched
    requires es[k].ev.OpTick? && TickSends(ys[k]) && ys[k].o.law.Valid() && ys[k].d.v0 >= 0.0
    requires cs[k].Some? && Sped(OriginOf(ys[k]), cs[k].value)
    ensures cs[k + 1].Some? && Sped(OriginOf(ys[k]), cs[k + 1].value)
  {
    var g, p := OriginOf(ys[k]), cs[k].value;
    TickCarries(ys, es, cs, k);
    ExactAlways(ys, es, cs, k);
    TickTimes(ys, es, cs, k);
    SinceAdds(p.stamp, es[k].at, g.latchMs);
    var dt := Seconds(es[k].at - p.stamp);
    WithinStep(g.law, p, cs[k + 1].value, dt);
    TickSped(g, p, cs[k + 1].value, Seconds(p.stamp - g.latchMs), dt, Seconds(es[k].at - g.latchMs));
  }

  lemma TickTimes(ys: seq<System>, es: seq<SysTimed>, cs: seq<Option<Cmd>>, k: nat)
    requires Transcript(ys, es, cs) && k < |es| && Undisturbed(ys, es, k + 1) && ShortGaps(ys, es, cs, k + 1) && ys[k].s.latched
    requires es[k].ev.OpTick? && TickSends(ys[k])
    ensures cs[k].Some? && ys[k].s.latchMs <= cs[k].value.stamp <= es[k].at <= cs[k].value.stamp + 100
  {
    CourseAlways(ys, es, cs, k);
    TranscriptStep(ys, es, cs, k);
    CourseLater(ys[k], cs[k], if k == 0 then 0 else es[k - 1].at, es[k].at);
    assert ShortGap(ys[k], es[k], cs[k]);
  }

  lemma OriginStays(ys: seq<System>, es: seq<SysTimed>, k: nat)
    requires SysRun(ys, es) && k < |es| && ys[k].s.latched
    ensures OriginOf(ys[k + 1]) == OriginOf(ys[k])
  {
    StartIsOne(ys, es, k);
  }

  lemma {:induction false} SpedAlways(ys: seq<System>, es: seq<SysTimed>, cs: seq<Option<Cmd>>, k: nat)
    requires Transcript(ys, es, cs) && k <= |es| && Undisturbed(ys, es, k) && ShortGaps(ys, es, cs, k)
    requires ys[k].s.latched && ys[k].d.v0 >= 0.0
    ensures ys[k].o.law.Valid() && cs[k].Some? && Sped(OriginOf(ys[k]), cs[k].value)
  {
    SysBootLaw(ys, es, k);
    LatchAt(ys, es, k);
    if es[k - 1].ev.Sup? && DirectCalled(ys[k - 1].s, ys[k].s) {
      YoungAt(ys, es, k - 1);
      DirectSped(ys, es, cs, k - 1);
    } else {
      if !ys[k - 1].s.latched { FirstIsDirect(ys, es, k - 1); }
      OriginStays(ys, es, k - 1);
      SpedAlways(ys, es, cs, k - 1);
      if es[k - 1].ev.OpTick? && TickSends(ys[k - 1]) { TickStaysSped(ys, es, cs, k - 1); } else { OthersSilent(ys, es, cs, k - 1); }
    }
  }

  lemma SysBootLaw(ys: seq<System>, es: seq<SysTimed>, k: nat)
    requires SysRun(ys, es) && k <= |es|
    ensures ys[k].o.law.Valid()
  {
    PeriodKept(ys, es, k);
  }

  lemma LatchAt(ys: seq<System>, es: seq<SysTimed>, k: nat)
    requires SysRun(ys, es) && k <= |es| && ys[k].s.latched
    ensures k > 0
  {
  }

  /** The latch is no later than a step that finds or leaves it, and younger than 2^32 ms. */
  lemma YoungAt(ys: seq<System>, es: seq<SysTimed>, k: nat)
    requires SysRun(ys, es) && k < |es| && Undisturbed(ys, es, k + 1) && ys[k + 1].s.latched
    ensures 0 <= es[k].at - ys[k + 1].s.latchMs < U32
  {
    SysTaken(ys, es, k);
    assert Calm(ys[k], es[k]);
    if ys[k].s.latched {
      StartIsOne(ys, es, k);
    } else {
      QuietBefore(ys, es, k);
      LatchTakesSeed(ys[k], es[k]);
    }
  }

  /**
   * The commanded velocity. While no tick gap exceeds the clamp and braking starts from a velocity that is not negative,
   * every command since the latch has at least the closed form's velocity for its time, and at most
   * (a0 - A) * 0.05 + |J| / 800 more, whichever path sent it.
   */
  lemma VelocityHeld(ys: seq<System>, es: seq<SysTimed>, cs: seq<Option<Cmd>>, k: nat)
    requires Transcript(ys, es, cs) && k <= |es| && Undisturbed(ys, es, k) && ShortGaps(ys, es, cs, k)
    requires ys[k].s.latched && ys[k].d.v0 >= 0.0
    ensures ys[k].o.law.Valid() && cs[k].Some?
    ensures var l, m := ys[k].o.law, Velocity(ys[k].o.law, ys[k].d.v0, ys[k].d.a0, Since(ys[k], cs[k].value.stamp));
            m <= cs[k].value.v <= m + Above(l, Start(ys[k])) * 0.1 / 2.0 + -l.jerk * 0.1 * 0.1 / 8.0
  {
    SpedAlways(ys, es, cs, k);
    CourseAlways(ys, es, cs, k);
    var g, c, t := OriginOf(ys[k]), cs[k].value, Since(ys[k], cs[k].value.stamp);
    SameArea(g.law, g.v0, ys[k].d.a0, t);
    RampBetween(g.law, g.a0, t, 0.0);
    OverBounds(g.law, -g.law.jerk, g.a0, Ramp(g.law, g.a0, t), Integral(g.law, g.v0, g.a0, t), c.v, STEP);
  }

  /**
   * The same in every prompt run whose allowed silence is within the clamp, from the last control command taken before
   * the latch: its velocity and its acceleration.
   */
  lemma PromptVelocity(ys: seq<System>, es: seq<SysTimed>, cs: seq<Option<Cmd>>, k: nat) returns (j: nat)
    requires Transcript(ys, es, cs) && k <= |es| && Undisturbed(ys, es, k) && ys[k].s.latched
    requires PromptFrom(States(ys), Events(ys, es), 0) && DirectPath.Gap(ys[0].s.cfg, ys[0].o.period) <= 100
    ensures j < k && !ys[j].s.latched && ys[j + 1].s.latched && ys[k].o.law.Valid() && cs[k].Some?
    ensures var l, c := ys[k].o.law, StartOf(LastControl(ys, es, j));
            var m := Velocity(l, c.v, c.a, Seconds(cs[k].value.stamp - es[j].at));
            c.v >= 0.0 ==>
              m <= cs[k].value.v <= m + Above(l, MaxReal(c.a, l.target)) * 0.1 / 2.0 + -l.jerk * 0.1 * 0.1 / 8.0
  {
    forall i | 0 <= i < k ensures ShortGap(ys[i], es[i], cs[i]) {
      if ys[i].s.latched { CommandIsYoung(ys, es, cs, i); }
    }
    SysBootLaw(ys, es, k);
    j := StartIsLastControl(ys, es, k);
    ExactAlways(ys, es, cs, k);
    if ys[k].d.v0 >= 0.0 { VelocityHeld(ys, es, cs, k); }
  }
}
