/**
 * The jerk-limited ramp, over the reals: the direct path's closed form, the operator's stepwise form, and the
 * budget arithmetic for the same law.
 */
module BrakeLaw {

  /** The operator's target acceleration and jerk, both negative. */
  datatype Law = Law(target: real, jerk: real)
  {
    predicate Valid() { target < 0.0 && jerk < 0.0 }
  }

  function MaxReal(x: real, y: real): real { if x > y then x else y }

  // ------------------------------------------------------------------ the closed form, as the direct path writes it

  function Entry(l: Law, a0: real): real { if a0 < l.target then l.target else a0 }

  function RampTime(l: Law, a0: real): real
    requires l.Valid()
  {
    (l.target - Entry(l, a0)) / l.jerk
  }

  function Acceleration(l: Law, a0: real, t: real): real
    requires l.Valid()
  {
    if t < RampTime(l, a0) then Entry(l, a0) + l.jerk * t else l.target
  }

  /** The velocity before the clamp at zero. */
  function Integral(l: Law, v0: real, a0: real, t: real): real
    requires l.Valid()
  {
    var a, r := Entry(l, a0), RampTime(l, a0);
    if t < r then v0 + a * t + 0.5 * l.jerk * t * t
    else v0 + a * r + 0.5 * l.jerk * r * r + l.target * (t - r)
  }

  function Velocity(l: Law, v0: real, a0: real, t: real): real
    requires l.Valid()
  {
    MaxReal(Integral(l, v0, a0, t), 0.0)
  }

  // ------------------------------------------------------------------ arithmetic

  lemma MulPos(x: real, y: real)
    requires x >= 0.0 && y >= 0.0
    ensures x * y >= 0.0
  {
  }

  lemma RampTimeIs(l: Law, a0: real)
    requires l.Valid()
    ensures l.jerk * RampTime(l, a0) == l.target - Entry(l, a0) && RampTime(l, a0) >= 0.0
  {
    var r := RampTime(l, a0);
    if r < 0.0 { MulPos(-r, -l.jerk); }
  }

  /** The ramp from `a`, held at the target. */
  function Ramp(l: Law, a: real, t: real): real { MaxReal(a + l.jerk * t, l.target) }

  /** The ramp never leaves the target: a(t) = max(a0 + J t, A). */
  lemma AccelerationIsRamp(l: Law, a0: real, t: real)
    requires l.Valid()
    ensures Acceleration(l, a0, t) == Ramp(l, Entry(l, a0), t)
  {
    var r := RampTime(l, a0);
    RampTimeIs(l, a0);
    if t < r { Strict(r - t, -l.jerk); } else { MulPos(t - r, -l.jerk); }
    assert l.jerk * t == l.jerk * r - l.jerk * (r - t);
  }

  lemma Strict(x: real, y: real)
    requires x > 0.0 && y > 0.0
    ensures x * y > 0.0
  {
  }

  // ------------------------------------------------------------------ the stepwise form, as the operator integrates

  datatype Point = Point(v: real, a: real)

  function Step(l: Law, p: Point, dt: real): Point
  {
    Point(MaxReal(p.v + p.a * dt, 0.0), Ramp(l, p.a, dt))
  }

  /** The same step without the clamp at zero. */
  function RawStep(l: Law, p: Point, dt: real): Point
  {
    Point(p.v + p.a * dt, Ramp(l, p.a, dt))
  }

  /** Tick times, each at most `h` after the last. */
  ghost predicate Times(ts: seq<real>, h: real)
  {
    ts != [] && forall i | 0 < i < |ts| :: GapAt(ts, h, i)
  }

  predicate GapAt(ts: seq<real>, h: real, i: nat)
    requires 0 < i < |ts|
  {
    0.0 <= ts[i] - ts[i - 1] <= h
  }

  /** `ps` are the commands of the ticks at `ts`, from `ps[0]`. */
  ghost predicate Ticks(l: Law, ps: seq<Point>, ts: seq<real>, h: real)
  {
    Times(ts, h) && |ps| == |ts| && forall i | 0 < i < |ts| :: TickAt(l, ps, ts, i)
  }

  predicate TickAt(l: Law, ps: seq<Point>, ts: seq<real>, i: nat)
    requires 0 < i < |ts| == |ps|
  {
    ps[i] == Step(l, ps[i - 1], ts[i] - ts[i - 1])
  }

  ghost predicate RawTicks(l: Law, rs: seq<Point>, ts: seq<real>, h: real)
  {
    Times(ts, h) && |rs| == |ts| && forall i | 0 < i < |ts| :: RawAt(l, rs, ts, i)
  }

  predicate RawAt(l: Law, rs: seq<Point>, ts: seq<real>, i: nat)
    requires 0 < i < |ts| == |rs|
  {
    rs[i] == RawStep(l, rs[i - 1], ts[i] - ts[i - 1])
  }

  /** The raw ticks from `p`. */
  function Raw(l: Law, p: Point, ts: seq<real>): (rs: seq<Point>)
    requires ts != []
    ensures |rs| == |ts| && rs[0] == p
  {
    if |ts| == 1 then [p]
    else
      var rs := Raw(l, p, ts[..|ts| - 1]);
      rs + [RawStep(l, rs[|rs| - 1], ts[|ts| - 1] - ts[|ts| - 2])]
  }

  lemma {:induction false} RawIsTicked(l: Law, p: Point, ts: seq<real>, h: real)
    requires Times(ts, h)
    ensures RawTicks(l, Raw(l, p, ts), ts, h)
    decreases |ts|
  {
    var n, rs := |ts| - 1, Raw(l, p, ts);
    if n > 0 {
      var less := ts[..n];
      assert Times(less, h) by { forall i | 0 < i < n ensures GapAt(less, h, i) { assert GapAt(ts, h, i); } }
      RawIsTicked(l, p, less, h);
      forall i | 0 < i < |ts| ensures RawAt(l, rs, ts, i) { if i < n { assert RawAt(l, Raw(l, p, less), less, i); } }
    }
  }

  /** Two stretches of ramp are one. */
  lemma RampAdds(l: Law, a: real, s: real, t: real)
    requires l.Valid() && a >= l.target && s >= 0.0 && t >= 0.0
    ensures Ramp(l, Ramp(l, a, s), t) == Ramp(l, a, s + t) >= l.target
  {
    MulPos(t, -l.jerk);
    assert l.jerk * (s + t) == l.jerk * s + l.jerk * t;
  }

  /** The ticked acceleration is the ramp's, exactly, whatever the steps; raw and clamped alike. */
  lemma {:induction false} TicksRamp(l: Law, ps: seq<Point>, rs: seq<Point>, ts: seq<real>, h: real, k: nat)
    requires l.Valid() && Ticks(l, ps, ts, h) && RawTicks(l, rs, ts, h) && k < |ts|
    requires ps[0].a == rs[0].a >= l.target
    ensures ts[0] <= ts[k] && ps[k].a == rs[k].a == Ramp(l, ps[0].a, ts[k] - ts[0])
    ensures l.target <= rs[k].a
  {
    if k > 0 {
      TicksRamp(l, ps, rs, ts, h, k - 1);
      assert TickAt(l, ps, ts, k) && RawAt(l, rs, ts, k) && GapAt(ts, h, k);
      RampAdds(l, ps[0].a, ts[k - 1] - ts[0], ts[k] - ts[k - 1]);
    }
  }

  /** Clamping at zero at every tick is clamping once at the end. */
  lemma {:induction false} ClampOnce(l: Law, ps: seq<Point>, rs: seq<Point>, ts: seq<real>, h: real, k: nat)
    requires l.Valid() && Ticks(l, ps, ts, h) && RawTicks(l, rs, ts, h) && k < |ts|
    requires ps[0] == rs[0] && ps[0].v >= 0.0 && ps[0].a >= l.target
    ensures ps[k].v == MaxReal(rs[k].v, 0.0) && ps[k].a == rs[k].a
    ensures rs[k].v < 0.0 ==> rs[k].a <= 0.0
  {
    if k > 0 {
      ClampOnce(l, ps, rs, ts, h, k - 1);
      assert TickAt(l, ps, ts, k) && RawAt(l, rs, ts, k) && GapAt(ts, h, k);
      var dt, r := ts[k] - ts[k - 1], rs[k - 1];
      MulPos(-l.jerk, dt);
      if r.a >= 0.0 { MulPos(r.a, dt); } else { MulPos(-r.a, dt); }
    }
  }

  // ------------------------------------------------------------------ the two forms compared

  /** How far the acceleration is above the target. */
  function Above(l: Law, a: real): real { a - l.target }

  function Sq(x: real): real { x * x }

  /** `j` is the jerk's magnitude. */
  predicate Magnitude(l: Law, j: real) { l.Valid() && l.jerk == -j }

  lemma Distributes(c: real, x: real, y: real)
    ensures c * (x + y) == c * x + c * y
  {
  }

  lemma DivideOut(j: real, x: real, y: real)
    requires j > 0.0 && 2.0 * j * x <= 2.0 * j * y
    ensures x <= y
  {
    if x > y { Strict(j, x - y); Distributes(j, x, -y); }
  }

  lemma SquareNonNegative(x: real)
    ensures Sq(x) >= 0.0
  {
  }

  /** The closed form's area, without a case split: 2|J| (v - v0 - A t) is what the squares lose. */
  lemma IntegralIsArea(l: Law, j: real, v0: real, a0: real, t: real)
    requires Magnitude(l, j) && a0 >= l.target && t >= 0.0
    ensures 2.0 * j * (Integral(l, v0, a0, t) - v0 - l.target * t) == Sq(Above(l, a0)) - Sq(Above(l, Ramp(l, a0, t)))
  {
    var r, x := RampTime(l, a0), Above(l, a0);
    RampTimeIs(l, a0);
    AccelerationIsRamp(l, a0, t);
    if t < r {
      assert Above(l, Ramp(l, a0, t)) == x - j * t;
      assert Integral(l, v0, a0, t) - v0 - l.target * t == x * t - 0.5 * j * t * t;
      assert 2.0 * j * (x * t - 0.5 * j * t * t) == Sq(x) - Sq(x - j * t);
    } else {
      assert Ramp(l, a0, t) == l.target;
      assert Integral(l, v0, a0, t) - v0 - l.target * t == x * r - 0.5 * j * r * r by {
        assert l.target * (t - r) == l.target * t - l.target * r;
        assert a0 * r - l.target * r == x * r;
      }
      assert j * r == x;
      assert 2.0 * j * (x * r - 0.5 * j * r * r) == 2.0 * (j * r) * x - (j * r) * (j * r);
    }
  }

  /** The excess over the area on the way from `p` to `q` in `t`, times 2|J|. */
  function Excess(l: Law, j: real, p: Point, q: Point, t: real): real
  {
    2.0 * j * (q.v - p.v - l.target * t) - (Sq(Above(l, p.a)) - Sq(Above(l, q.a)))
  }

  /** The most steps of at most `h` can add on the way from `x` down to `y` above the target, times 2|J|. */
  function ExcessBound(j: real, x: real, y: real, h: real): real
  {
    j * h * (x - y) + (if x > 0.0 && y == 0.0 then Sq(j * h) / 4.0 else 0.0)
  }

  /** What one step from `x` above the target adds: `d` is |J| dt. */
  function StepArea(x: real, d: real): real { if x > d then Sq(d) else 2.0 * d * x - Sq(x) }

  lemma StepExcess(l: Law, j: real, p: Point, dt: real)
    requires Magnitude(l, j) && p.a >= l.target && dt >= 0.0
    ensures Excess(l, j, p, RawStep(l, p, dt), dt) == StepArea(Above(l, p.a), j * dt)
  {
    var x, d := Above(l, p.a), j * dt;
    Distributes(dt, p.a, -l.target);
    assert p.v + p.a * dt - p.v - l.target * dt == x * dt;
    assert 2.0 * j * (x * dt) == 2.0 * d * x;
    if x > d { assert Sq(x - d) == Sq(x) - 2.0 * d * x + Sq(d); }
  }

  lemma StepAreaBounds(j: real, x: real, dt: real, h: real)
    requires j > 0.0 && x >= 0.0 && 0.0 <= dt <= h
    ensures 0.0 <= StepArea(x, j * dt) <= ExcessBound(j, x, if x > j * dt then x - j * dt else 0.0, h)
  {
    var d, m := j * dt, j * h;
    MulPos(j, dt);
    MulPos(j, h - dt);
    Distributes(j, h, -dt);
    StepAreaWithin(x, d, m);
  }

  lemma StepAreaWithin(x: real, d: real, m: real)
    requires 0.0 <= d <= m && x >= 0.0
    ensures 0.0 <= StepArea(x, d)
    ensures x > d ==> StepArea(x, d) <= m * d
    ensures x <= d ==> StepArea(x, d) <= m * x + Sq(m) / 4.0 && (x == 0.0 ==> StepArea(x, d) == 0.0)
  {
    if x > d {
      MulPos(d, m - d);
      MulPos(d, d);
    } else {
      MulPos(x, d - x);
      MulPos(x, m - d);
      MulPos(x, x);
      SquareNonNegative(x - m / 2.0);
      assert Sq(x - m / 2.0) == Sq(x) - m * x + Sq(m) / 4.0;
    }
  }

  lemma ExcessAdds(l: Law, j: real, p: Point, q: Point, r: Point, s: real, t: real)
    ensures Excess(l, j, p, r, s + t) == Excess(l, j, p, q, s) + Excess(l, j, q, r, t)
  {
    Distributes(l.target, s, t);
    Distributes(2.0 * j, q.v - p.v - l.target * s, r.v - q.v - l.target * t);
  }

  lemma BoundAdds(j: real, x: real, y: real, z: real, h: real)
    requires x >= y >= z >= 0.0
    ensures ExcessBound(j, x, y, h) + ExcessBound(j, y, z, h) == ExcessBound(j, x, z, h)
  {
    Distributes(j * h, x - y, y - z);
  }

  lemma {:induction false} ExcessBounds(l: Law, j: real, rs: seq<Point>, ts: seq<real>, h: real, k: nat)
    requires Magnitude(l, j) && RawTicks(l, rs, ts, h) && rs[0].a >= l.target && h >= 0.0 && k < |ts|
    ensures l.target <= rs[k].a <= rs[0].a
    ensures 0.0 <= Excess(l, j, rs[0], rs[k], ts[k] - ts[0]) <= ExcessBound(j, Above(l, rs[0].a), Above(l, rs[k].a), h)
  {
    if k > 0 {
      ExcessBounds(l, j, rs, ts, h, k - 1);
      assert RawAt(l, rs, ts, k) && GapAt(ts, h, k);
      StepBounds(l, j, rs[k - 1], ts[k] - ts[k - 1], h);
      Compose(l, j, rs[0], rs[k - 1], rs[k], ts[k - 1] - ts[0], ts[k] - ts[k - 1], h);
    }
  }

  lemma StepBounds(l: Law, j: real, q: Point, dt: real, h: real)
    requires Magnitude(l, j) && l.target <= q.a && 0.0 <= dt <= h
    ensures var r := RawStep(l, q, dt);
            l.target <= r.a <= q.a && 0.0 <= Excess(l, j, q, r, dt) <= ExcessBound(j, Above(l, q.a), Above(l, r.a), h)
  {
    MulPos(j, dt);
    StepExcess(l, j, q, dt);
    StepAreaBounds(j, Above(l, q.a), dt, h);
  }

  lemma Compose(l: Law, j: real, p: Point, q: Point, r: Point, s: real, t: real, h: real)
    requires l.target <= r.a <= q.a <= p.a
    requires 0.0 <= Excess(l, j, p, q, s) <= ExcessBound(j, Above(l, p.a), Above(l, q.a), h)
    requires 0.0 <= Excess(l, j, q, r, t) <= ExcessBound(j, Above(l, q.a), Above(l, r.a), h)
    ensures 0.0 <= Excess(l, j, p, r, s + t) <= ExcessBound(j, Above(l, p.a), Above(l, r.a), h)
  {
    ExcessAdds(l, j, p, q, r, s, t);
    BoundAdds(j, Above(l, p.a), Above(l, q.a), Above(l, r.a), h);
  }

  /** Excess is the gap to any velocity that satisfies the area law. */
  lemma ExcessIsGap(l: Law, j: real, p: Point, q: Point, t: real, i: real)
    requires 2.0 * j * (i - p.v - l.target * t) == Sq(Above(l, p.a)) - Sq(Above(l, q.a))
    ensures Excess(l, j, p, q, t) == 2.0 * j * (q.v - i)
  {
    Distributes(2.0 * j, q.v - p.v - l.target * t, -(i - p.v - l.target * t));
  }

  lemma GapBounds(j: real, h: real, x: real, y: real, gap: real)
    requires j > 0.0 && h >= 0.0 && x >= y >= 0.0
    requires 0.0 <= 2.0 * j * gap <= ExcessBound(j, x, y, h)
    ensures 0.0 <= gap <= x * h / 2.0 + j * h * h / 8.0
  {
    DivideOut(j, 0.0, gap);
    MulPos(j, h);
    MulPos(j * h, y);
    Distributes(j * h, x, -y);
    SquareNonNegative(j * h);
    assert 2.0 * j * (x * h / 2.0 + j * h * h / 8.0) == j * h * x + (j * h) * (j * h) / 4.0;
    DivideOut(j, gap, x * h / 2.0 + j * h * h / 8.0);
  }

  /** The raw velocity against any velocity `i` that satisfies the area law. */
  lemma RawGap(l: Law, rs: seq<Point>, ts: seq<real>, h: real, k: nat, i: real)
    requires l.Valid() && RawTicks(l, rs, ts, h) && rs[0].a >= l.target && h >= 0.0 && k < |ts|
    requires 2.0 * -l.jerk * (i - rs[0].v - l.target * (ts[k] - ts[0])) == Sq(Above(l, rs[0].a)) - Sq(Above(l, rs[k].a))
    ensures 0.0 <= rs[k].v - i <= Above(l, rs[0].a) * h / 2.0 + -l.jerk * h * h / 8.0
  {
    var j := -l.jerk;
    ExcessBounds(l, j, rs, ts, h, k);
    ExcessIsGap(l, j, rs[0], rs[k], ts[k] - ts[0], i);
    GapBounds(j, h, Above(l, rs[0].a), Above(l, rs[k].a), rs[k].v - i);
  }

  /** The clamped velocity against any velocity `i` that satisfies the area law, clamped. */
  lemma ClampedGap(l: Law, ps: seq<Point>, ts: seq<real>, h: real, k: nat, i: real)
    requires l.Valid() && Ticks(l, ps, ts, h) && ps[0].v >= 0.0 && ps[0].a >= l.target && h >= 0.0 && k < |ts|
    requires 2.0 * -l.jerk * (i - ps[0].v - l.target * (ts[k] - ts[0]))
             == Sq(Above(l, ps[0].a)) - Sq(Above(l, Ramp(l, ps[0].a, ts[k] - ts[0])))
    ensures MaxReal(i, 0.0) <= ps[k].v <= MaxReal(i, 0.0) + Above(l, ps[0].a) * h / 2.0 + -l.jerk * h * h / 8.0
  {
    var rs := Raw(l, ps[0], ts);
    RawIsTicked(l, ps[0], ts, h);
    TicksRamp(l, ps, rs, ts, h, k);
    ClampOnce(l, ps, rs, ts, h, k);
    RawGap(l, rs, ts, h, k, i);
  }

  lemma TickedAcceleration(l: Law, ps: seq<Point>, ts: seq<real>, h: real, k: nat)
    requires l.Valid() && Ticks(l, ps, ts, h) && ps[0].a >= l.target && k < |ts|
    ensures ts[0] <= ts[k] && ps[k].a == Acceleration(l, ps[0].a, ts[k] - ts[0])
  {
    var rs := Raw(l, ps[0], ts);
    RawIsTicked(l, ps[0], ts, h);
    TicksRamp(l, ps, rs, ts, h, k);
    AccelerationIsRamp(l, ps[0].a, ts[k] - ts[0]);
  }

  /**
   * The stepwise ramp refines the closed form: from a common start, at every tick and for any ticks at most
   * `h` apart, the acceleration is the closed form's exactly, and the velocity is never below it and above it
   * by at most (a0 - A) h / 2 + |J| h^2 / 8.
   */
  lemma StepwiseRefinesClosedForm(l: Law, ps: seq<Point>, ts: seq<real>, h: real, k: nat)
    requires l.Valid() && Ticks(l, ps, ts, h) && ps[0].v >= 0.0 && ps[0].a >= l.target && h >= 0.0 && k < |ts|
    ensures ps[k].a == Acceleration(l, ps[0].a, ts[k] - ts[0])
    ensures Velocity(l, ps[0].v, ps[0].a, ts[k] - ts[0]) <= ps[k].v
    ensures ps[k].v <= Velocity(l, ps[0].v, ps[0].a, ts[k] - ts[0]) + Above(l, ps[0].a) * h / 2.0 + -l.jerk * h * h / 8.0
  {
    var t := ts[k] - ts[0];
    TickedAcceleration(l, ps, ts, h, k);
    IntegralIsArea(l, -l.jerk, ps[0].v, ps[0].a, t);
    ClampedGap(l, ps, ts, h, k, Integral(l, ps[0].v, ps[0].a, t));
  }

  // ------------------------------------------------------------------ the half-step bound, exactly when it holds

  /** Ticks `h` apart. */
  ghost predicate Uniform(ts: seq<real>, h: real) { Times(ts, h) && forall i | 0 < i < |ts| :: SpacedAt(ts, h, i) }

  predicate SpacedAt(ts: seq<real>, h: real, i: nat)
    requires 0 < i < |ts|
  {
    ts[i] - ts[i - 1] == h
  }

  /** One more step of uniform ticks. */
  lemma UniformStep(l: Law, j: real, rs: seq<Point>, ts: seq<real>, h: real, k: nat)
    requires RawTicks(l, rs, ts, h) && Uniform(ts, h) && 0 < k < |ts|
    ensures rs[k] == RawStep(l, rs[k - 1], h)
    ensures Excess(l, j, rs[0], rs[k], ts[k] - ts[0])
         == Excess(l, j, rs[0], rs[k - 1], ts[k - 1] - ts[0]) + Excess(l, j, rs[k - 1], rs[k], h)
  {
    assert RawAt(l, rs, ts, k) && SpacedAt(ts, h, k);
    ExcessAdds(l, j, rs[0], rs[k - 1], rs[k], ts[k - 1] - ts[0], h);
  }

  /** A step wholly on the ramp: `m` is |J| h. */
  lemma RampStep(l: Law, j: real, q: Point, h: real)
    requires Magnitude(l, j) && h > 0.0 && Above(l, q.a) >= j * h
    ensures Above(l, RawStep(l, q, h).a) == Above(l, q.a) - j * h
    ensures Excess(l, j, q, RawStep(l, q, h), h) == Sq(j * h)
  {
    Strict(j, h);
    StepExcess(l, j, q, h);
  }

  /** The step that reaches the target, and any step on it. */
  lemma LastStep(l: Law, j: real, q: Point, h: real)
    requires Magnitude(l, j) && h > 0.0 && 0.0 <= Above(l, q.a) < j * h
    ensures RawStep(l, q, h).a == l.target
    ensures Excess(l, j, q, RawStep(l, q, h), h) == 2.0 * (j * h) * Above(l, q.a) - Sq(Above(l, q.a))
  {
    StepExcess(l, j, q, h);
  }

  /** `n` times `m`, added up. */
  function Sum(n: nat, m: real): real { if n == 0 then 0.0 else Sum(n - 1, m) + m }

  lemma {:induction false} SumIs(n: nat, m: real)
    ensures Sum(n, m) == n as real * m
  {
    if n > 0 {
      SumIs(n - 1, m);
      OneMore(n - 1, m);
    }
  }

  lemma OneMore(n: nat, m: real)
    ensures (n + 1) as real * m == n as real * m + m
  {
  }

  /** `n` whole steps use up `n` times |J| h of the drop. */
  lemma {:induction false} WholeDrop(l: Law, j: real, rs: seq<Point>, ts: seq<real>, h: real, n: nat, m: real)
    requires Magnitude(l, j) && RawTicks(l, rs, ts, h) && Uniform(ts, h) && h > 0.0 && n < |ts| && m == j * h && m > 0.0
    requires Sum(n, m) <= Above(l, rs[0].a)
    ensures Above(l, rs[n].a) == Above(l, rs[0].a) - Sum(n, m)
  {
    if n > 0 {
      WholeDrop(l, j, rs, ts, h, n - 1, m);
      RampStep(l, j, rs[n - 1], h);
      UniformStep(l, j, rs, ts, h, n);
    }
  }

  lemma WholeStep(l: Law, j: real, rs: seq<Point>, ts: seq<real>, h: real, n: nat, m: real)
    requires Magnitude(l, j) && RawTicks(l, rs, ts, h) && Uniform(ts, h) && h > 0.0 && 0 < n < |ts| && m == j * h && m > 0.0
    requires Sum(n, m) <= Above(l, rs[0].a)
    ensures Excess(l, j, rs[0], rs[n], ts[n] - ts[0]) == Excess(l, j, rs[0], rs[n - 1], ts[n - 1] - ts[0]) + Sq(m)
  {
    WholeDrop(l, j, rs, ts, h, n - 1, m);
    RampStep(l, j, rs[n - 1], h);
    UniformStep(l, j, rs, ts, h, n);
  }

  /** And add its square each. */
  lemma {:induction false} WholeSteps(l: Law, j: real, rs: seq<Point>, ts: seq<real>, h: real, n: nat, m: real)
    requires Magnitude(l, j) && RawTicks(l, rs, ts, h) && Uniform(ts, h) && h > 0.0 && n < |ts| && m == j * h && m > 0.0
    requires Sum(n, m) <= Above(l, rs[0].a)
    ensures Excess(l, j, rs[0], rs[n], ts[n] - ts[0]) == Sum(n, Sq(m))
  {
    if n > 0 {
      WholeSteps(l, j, rs, ts, h, n - 1, m);
      WholeStep(l, j, rs, ts, h, n, m);
    }
  }

  lemma {:induction false} FlatSteps(l: Law, j: real, rs: seq<Point>, ts: seq<real>, h: real, i: nat, k: nat)
    requires Magnitude(l, j) && RawTicks(l, rs, ts, h) && Uniform(ts, h) && h > 0.0 && i <= k < |ts|
    requires rs[i].a == l.target
    ensures rs[k].a == l.target && Excess(l, j, rs[0], rs[k], ts[k] - ts[0]) == Excess(l, j, rs[0], rs[i], ts[i] - ts[0])
    decreases k - i
  {
    if i < k {
      FlatSteps(l, j, rs, ts, h, i, k - 1);
      Strict(j, h);
      LastStep(l, j, rs[k - 1], h);
      UniformStep(l, j, rs, ts, h, k);
    }
  }

  /** The last step from `rest` above the target. */
  lemma LastStepRest(l: Law, j: real, q: Point, h: real, m: real, rest: real)
    requires Magnitude(l, j) && h > 0.0 && m == j * h && Above(l, q.a) == rest && 0.0 <= rest < m
    ensures RawStep(l, q, h).a == l.target
    ensures Excess(l, j, q, RawStep(l, q, h), h) == 2.0 * m * rest - Sq(rest)
  {
    LastStep(l, j, q, h);
  }

  /** `n` whole steps, and one with `rest` of the drop to go. */
  lemma ReachTarget(l: Law, j: real, rs: seq<Point>, ts: seq<real>, h: real, n: nat, m: real, rest: real)
    requires Magnitude(l, j) && RawTicks(l, rs, ts, h) && Uniform(ts, h) && h > 0.0 && n + 1 < |ts| && m == j * h && m > 0.0
    requires Above(l, rs[0].a) == Sum(n, m) + rest && 0.0 <= rest < m
    ensures rs[n + 1].a == l.target
    ensures Excess(l, j, rs[0], rs[n + 1], ts[n + 1] - ts[0]) == Sum(n, Sq(m)) + (2.0 * m * rest - Sq(rest))
  {
    WholeDrop(l, j, rs, ts, h, n, m);
    LastStepRest(l, j, rs[n], h, m, rest);
    UniformStep(l, j, rs, ts, h, n + 1);
    WholeSteps(l, j, rs, ts, h, n, m);
  }

  lemma PastRamp(l: Law, j: real, rs: seq<Point>, ts: seq<real>, h: real, n: nat, k: nat, m: real, rest: real)
    requires Magnitude(l, j) && RawTicks(l, rs, ts, h) && Uniform(ts, h) && h > 0.0 && n < k < |ts| && m == j * h && m > 0.0
    requires Above(l, rs[0].a) == Sum(n, m) + rest && 0.0 <= rest < m
    ensures Excess(l, j, rs[0], rs[k], ts[k] - ts[0]) == Sum(n, Sq(m)) + (2.0 * m * rest - Sq(rest))
  {
    ReachTarget(l, j, rs, ts, h, n, m, rest);
    FlatSteps(l, j, rs, ts, h, n + 1, k);
  }

  /** The excess of uniform ticks that ran past the ramp. */
  lemma UniformExcess(l: Law, j: real, rs: seq<Point>, ts: seq<real>, h: real, n: nat, k: nat, m: real, rest: real)
    requires Magnitude(l, j) && RawTicks(l, rs, ts, h) && Uniform(ts, h) && h > 0.0 && n < k < |ts| && m == j * h && m > 0.0
    requires Above(l, rs[0].a) == n as real * m + rest && 0.0 <= rest < m
    ensures Excess(l, j, rs[0], rs[k], ts[k] - ts[0]) == m * Above(l, rs[0].a) + rest * (m - rest)
  {
    SumIs(n, m);
    PastRamp(l, j, rs, ts, h, n, k, m, rest);
    TotalIs(n, m, rest, Above(l, rs[0].a));
  }

  lemma TotalIs(n: nat, m: real, rest: real, x: real)
    requires x == n as real * m + rest
    ensures Sum(n, Sq(m)) + (2.0 * m * rest - Sq(rest)) == m * x + rest * (m - rest)
  {
    SumIs(n, Sq(m));
    TotalExcess(n as real, m, rest);
  }

  lemma TotalExcess(n: real, m: real, r: real)
    ensures n * Sq(m) + (2.0 * m * r - Sq(r)) == m * (n * m + r) + r * (m - r)
  {
  }

  // ------------------------------------------------------------------ the half-step bound, on what the operator sends

  /** How far below zero. */
  function Below(x: real): real { MaxReal(-x, 0.0) }

  /** The clamped velocity is within half a step of the acceleration's drop of the closed form's. */
  predicate WithinHalfStep(l: Law, p: Point, q: Point, t: real, h: real)
    requires l.Valid()
  {
    q.v <= Velocity(l, p.v, p.a, t) + Above(l, p.a) * h / 2.0
  }

  lemma WithinOf(l: Law, p: Point, q: Point, t: real, h: real, i: real)
    requires l.Valid() && i == Integral(l, p.v, p.a, t)
    ensures WithinHalfStep(l, p, q, t, h) <==> q.v <= MaxReal(i, 0.0) + Above(l, p.a) * h / 2.0
  {
  }

  /** `xs[k]` is what the steps up to tick `k` add, from the tick times alone, times 2|J|. */
  ghost predicate AddsUp(l: Law, j: real, a0: real, ts: seq<real>, xs: seq<real>)
  {
    |xs| == |ts| && ts != [] && xs[0] == 0.0 && forall k | 0 < k < |ts| :: AddsAt(l, j, a0, ts, xs, k)
  }

  predicate AddsAt(l: Law, j: real, a0: real, ts: seq<real>, xs: seq<real>, k: nat)
    requires 0 < k < |ts| == |xs|
  {
    xs[k] == xs[k - 1] + StepArea(Above(l, Ramp(l, a0, ts[k - 1] - ts[0])), j * (ts[k] - ts[k - 1]))
  }

  lemma {:induction false} ExcessIsAdded(l: Law, j: real, rs: seq<Point>, ts: seq<real>, xs: seq<real>, h: real, k: nat)
    requires Magnitude(l, j) && RawTicks(l, rs, ts, h) && rs[0].a >= l.target && AddsUp(l, j, rs[0].a, ts, xs) && k < |ts|
    ensures Excess(l, j, rs[0], rs[k], ts[k] - ts[0]) == xs[k]
  {
    if k > 0 {
      ExcessIsAdded(l, j, rs, ts, xs, h, k - 1);
      RawRamp(l, rs, ts, h, k - 1);
      StepAdds(l, j, rs, ts, h, k);
      assert AddsAt(l, j, rs[0].a, ts, xs, k);
    } else {
      NoTime(l, j, rs[0]);
    }
  }

  lemma NoTime(l: Law, j: real, p: Point)
    ensures Excess(l, j, p, p, 0.0) == 0.0
  {
  }

  lemma StepAdds(l: Law, j: real, rs: seq<Point>, ts: seq<real>, h: real, k: nat)
    requires Magnitude(l, j) && RawTicks(l, rs, ts, h) && 0 < k < |ts| && rs[k - 1].a >= l.target
    ensures Excess(l, j, rs[0], rs[k], ts[k] - ts[0])
         == Excess(l, j, rs[0], rs[k - 1], ts[k - 1] - ts[0]) + StepArea(Above(l, rs[k - 1].a), j * (ts[k] - ts[k - 1]))
  {
    assert RawAt(l, rs, ts, k) && GapAt(ts, h, k);
    OneStepAdds(l, j, rs[0], rs[k - 1], rs[k], ts[k - 1] - ts[0], ts[k] - ts[k - 1], ts[k] - ts[0]);
  }

  lemma OneStepAdds(l: Law, j: real, p: Point, q: Point, r: Point, s: real, t: real, u: real)
    requires Magnitude(l, j) && q.a >= l.target && t >= 0.0 && r == RawStep(l, q, t) && u == s + t
    ensures Excess(l, j, p, r, u) == Excess(l, j, p, q, s) + StepArea(Above(l, q.a), j * t)
  {
    StepExcess(l, j, q, t);
    ExcessAdds(l, j, p, q, r, s, t);
  }

  /** Clamping both at zero: the excess may also be what the closed form lies below zero. */
  lemma ClampedWithin(r: real, i: real, b: real)
    requires r >= i && b >= 0.0
    ensures MaxReal(r, 0.0) <= MaxReal(i, 0.0) + b <==> r - i <= b + Below(i)
  {
  }

  lemma Scaled(j: real, x: real, y: real)
    requires j > 0.0
    ensures x <= y <==> 2.0 * j * x <= 2.0 * j * y
  {
    if x <= y { MulPos(2.0 * j, y - x); Distributes(2.0 * j, y, -x); } else { Strict(2.0 * j, x - y); Distributes(2.0 * j, x, -y); }
  }

  lemma WithinScaled(j: real, h: real, x: real, r: real, i: real)
    requires j > 0.0 && h >= 0.0 && x >= 0.0 && r >= i
    ensures MaxReal(r, 0.0) <= MaxReal(i, 0.0) + x * h / 2.0 <==> 2.0 * j * (r - i) <= j * h * x + 2.0 * j * Below(i)
  {
    MulPos(x, h);
    ClampedWithin(r, i, x * h / 2.0);
    Scaled(j, r - i, x * h / 2.0 + Below(i));
    Distributes(2.0 * j, x * h / 2.0, Below(i));
    assert 2.0 * j * (x * h / 2.0) == j * h * x;
  }

  /** A velocity that satisfies the area law from `p` down to the acceleration of `q`. */
  predicate OnArea(l: Law, j: real, p: Point, q: Point, t: real, i: real)
  {
    2.0 * j * (i - p.v - l.target * t) == Sq(Above(l, p.a)) - Sq(Above(l, q.a))
  }

  /** The raw ticks' excess is their gap to any such velocity, and never negative. */
  lemma RawGapIs(l: Law, j: real, rs: seq<Point>, ts: seq<real>, h: real, k: nat, i: real, e: real)
    requires Magnitude(l, j) && RawTicks(l, rs, ts, h) && rs[0].a >= l.target && h >= 0.0 && k < |ts|
    requires OnArea(l, j, rs[0], rs[k], ts[k] - ts[0], i) && e == Excess(l, j, rs[0], rs[k], ts[k] - ts[0])
    ensures e == 2.0 * j * (rs[k].v - i) && rs[k].v >= i
  {
    ExcessBounds(l, j, rs, ts, h, k);
    ExcessIsGap(l, j, rs[0], rs[k], ts[k] - ts[0], i);
    NonNegative(j, rs[k].v - i);
  }

  lemma NonNegative(j: real, x: real)
    requires j > 0.0 && 2.0 * j * x >= 0.0
    ensures x >= 0.0
  {
    if x < 0.0 { Strict(2.0 * j, -x); }
  }

  /** The bound at tick `k`, on the raw ticks' excess `e`. */
  lemma WithinIff(l: Law, j: real, ps: seq<Point>, rs: seq<Point>, ts: seq<real>, h: real, k: nat, i: real, e: real)
    requires Magnitude(l, j) && Ticks(l, ps, ts, h) && RawTicks(l, rs, ts, h) && ps[0] == rs[0] && k < |ts|
    requires ps[0].v >= 0.0 && ps[0].a >= l.target && h >= 0.0
    requires OnArea(l, j, rs[0], rs[k], ts[k] - ts[0], i) && e == Excess(l, j, rs[0], rs[k], ts[k] - ts[0])
    ensures ps[k].v <= MaxReal(i, 0.0) + Above(l, ps[0].a) * h / 2.0 <==> e <= j * h * Above(l, ps[0].a) + 2.0 * j * Below(i)
  {
    ClampOnce(l, ps, rs, ts, h, k);
    RawGapIs(l, j, rs, ts, h, k, i, e);
    WithinScaled(j, h, Above(l, ps[0].a), rs[k].v, i);
  }

  /** The closed form is such a velocity. */
  lemma ClosedFormArea(l: Law, j: real, rs: seq<Point>, ts: seq<real>, h: real, k: nat, i: real)
    requires Magnitude(l, j) && RawTicks(l, rs, ts, h) && k < |ts| && rs[0].a >= l.target
    requires i == Integral(l, rs[0].v, rs[0].a, ts[k] - ts[0])
    ensures OnArea(l, j, rs[0], rs[k], ts[k] - ts[0], i)
  {
    RawRamp(l, rs, ts, h, k);
    IntegralIsArea(l, j, rs[0].v, rs[0].a, ts[k] - ts[0]);
  }

  /**
   * Exactly when the velocity sent stays within half a step of the drop, for any ticks: iff what the steps
   * add is at most the half step's share and what the closed form lies below zero. `j` is |J|.
   */
  lemma HalfStepBoundExactly(l: Law, j: real, ps: seq<Point>, ts: seq<real>, xs: seq<real>, h: real, k: nat)
    requires Magnitude(l, j) && Ticks(l, ps, ts, h) && ps[0].v >= 0.0 && ps[0].a >= l.target && h >= 0.0 && k < |ts|
    requires AddsUp(l, j, ps[0].a, ts, xs)
    ensures var t := ts[k] - ts[0];
            WithinHalfStep(l, ps[0], ps[k], t, h) <==>
              xs[k] <= j * h * Above(l, ps[0].a) + 2.0 * j * Below(Integral(l, ps[0].v, ps[0].a, t))
  {
    var rs, i := Raw(l, ps[0], ts), Integral(l, ps[0].v, ps[0].a, ts[k] - ts[0]);
    RawIsTicked(l, ps[0], ts, h);
    ClosedFormArea(l, j, rs, ts, h, k, i);
    WithinOf(l, ps[0], ps[k], ts[k] - ts[0], h, i);
    AddedIff(l, j, ps, rs, ts, xs, h, k, i);
  }

  /** The same against any velocity that satisfies the area law. */
  lemma AddedIff(l: Law, j: real, ps: seq<Point>, rs: seq<Point>, ts: seq<real>, xs: seq<real>, h: real, k: nat, i: real)
    requires Magnitude(l, j) && Ticks(l, ps, ts, h) && RawTicks(l, rs, ts, h) && ps[0] == rs[0] && k < |ts|
    requires ps[0].v >= 0.0 && ps[0].a >= l.target && h >= 0.0 && AddsUp(l, j, ps[0].a, ts, xs)
    requires OnArea(l, j, rs[0], rs[k], ts[k] - ts[0], i)
    ensures ps[k].v <= MaxReal(i, 0.0) + Above(l, ps[0].a) * h / 2.0 <==> xs[k] <= j * h * Above(l, ps[0].a) + 2.0 * j * Below(i)
  {
    ExcessIsAdded(l, j, rs, ts, xs, h, k);
    WithinIff(l, j, ps, rs, ts, h, k, i, xs[k]);
  }

  lemma SumRises(i: nat, n: nat, m: real)
    requires i <= n && m >= 0.0
    ensures 0.0 <= Sum(i, m) <= Sum(n, m)
    decreases n
  {
    if i < n { SumRises(i, n - 1, m); } else if n > 0 { SumRises(n - 1, n - 1, m); }
  }

  lemma SumScales(n: nat, m: real)
    ensures Sum(n, Sq(m)) == m * Sum(n, m)
  {
    SumIs(n, m);
    SumIs(n, Sq(m));
    assert n as real * (m * m) == m * (n as real * m);
  }

  /** On the ramp the excess is within the half step's share. */
  lemma OnRamp(l: Law, j: real, rs: seq<Point>, ts: seq<real>, h: real, n: nat, k: nat, m: real)
    requires Magnitude(l, j) && RawTicks(l, rs, ts, h) && Uniform(ts, h) && h > 0.0 && k <= n && k < |ts| && m == j * h && m > 0.0
    requires Sum(n, m) <= Above(l, rs[0].a)
    ensures Excess(l, j, rs[0], rs[k], ts[k] - ts[0]) <= m * Above(l, rs[0].a)
  {
    SumRises(k, n, m);
    WholeSteps(l, j, rs, ts, h, k, m);
    SumScales(k, m);
    MulPos(m, Above(l, rs[0].a) - Sum(k, m));
    Distributes(m, Above(l, rs[0].a), -Sum(k, m));
  }

  /** The remainder of the drop after `n` whole steps. */
  function Rest(l: Law, j: real, a0: real, h: real, n: nat): real { Above(l, a0) - n as real * (j * h) }

  /**
   * Ticks `h` apart, with a drop of `n` whole steps and a rest: the bound holds up to the `n`-th tick, and
   * after it iff the rest times what it lacks to a step is at most 2|J| times what the closed form lies
   * below zero. `j` is |J|.
   */
  lemma HalfStepBoundIff(l: Law, j: real, ps: seq<Point>, ts: seq<real>, h: real, n: nat, k: nat)
    requires Magnitude(l, j) && Ticks(l, ps, ts, h) && Uniform(ts, h) && h > 0.0
    requires ps[0].v >= 0.0 && ps[0].a >= l.target && k < |ts| && 0.0 <= Rest(l, j, ps[0].a, h, n) < j * h
    ensures var rest, t := Rest(l, j, ps[0].a, h, n), ts[k] - ts[0];
            WithinHalfStep(l, ps[0], ps[k], t, h) <==>
              k <= n || rest * (j * h - rest) <= 2.0 * j * Below(Integral(l, ps[0].v, ps[0].a, t))
  {
    var rs, i := Raw(l, ps[0], ts), Integral(l, ps[0].v, ps[0].a, ts[k] - ts[0]);
    RawIsTicked(l, ps[0], ts, h);
    ClosedFormArea(l, j, rs, ts, h, k, i);
    WithinOf(l, ps[0], ps[k], ts[k] - ts[0], h, i);
    UniformIff(l, j, ps, rs, ts, h, n, k, i);
  }

  /** The same against any velocity that satisfies the area law. */
  lemma UniformIff(l: Law, j: real, ps: seq<Point>, rs: seq<Point>, ts: seq<real>, h: real, n: nat, k: nat, i: real)
    requires Magnitude(l, j) && Ticks(l, ps, ts, h) && RawTicks(l, rs, ts, h) && Uniform(ts, h) && ps[0] == rs[0] && k < |ts|
    requires ps[0].v >= 0.0 && ps[0].a >= l.target && h > 0.0 && 0.0 <= Rest(l, j, ps[0].a, h, n) < j * h
    requires OnArea(l, j, rs[0], rs[k], ts[k] - ts[0], i)
    ensures var rest := Rest(l, j, ps[0].a, h, n);
            ps[k].v <= MaxReal(i, 0.0) + Above(l, ps[0].a) * h / 2.0 <==> k <= n || rest * (j * h - rest) <= 2.0 * j * Below(i)
  {
    var e := Excess(l, j, rs[0], rs[k], ts[k] - ts[0]);
    WithinIff(l, j, ps, rs, ts, h, k, i, e);
    UniformShare(l, j, rs, ts, h, n, k, j * h, Rest(l, j, rs[0].a, h, n), e);
    MulPos(2.0 * j, Below(i));
  }

  /** Up to the `n`-th tick the excess is within the half step's share; after it, above it by the rest's product. */
  lemma UniformShare(l: Law, j: real, rs: seq<Point>, ts: seq<real>, h: real, n: nat, k: nat, m: real, rest: real, e: real)
    requires Magnitude(l, j) && RawTicks(l, rs, ts, h) && Uniform(ts, h) && h > 0.0 && k < |ts| && m == j * h
    requires Above(l, rs[0].a) == n as real * m + rest && 0.0 <= rest < m
    requires e == Excess(l, j, rs[0], rs[k], ts[k] - ts[0])
    ensures if k <= n then e <= m * Above(l, rs[0].a) else e == m * Above(l, rs[0].a) + rest * (m - rest)
  {
    SumIs(n, m);
    if k <= n { OnRamp(l, j, rs, ts, h, n, k, m); } else { UniformExcess(l, j, rs, ts, h, n, k, m, rest); }
  }

  /** While the closed form has not reached zero, iff the drop takes a whole number of steps. */
  lemma HalfStepBoundMoving(l: Law, j: real, ps: seq<Point>, ts: seq<real>, h: real, n: nat, k: nat)
    requires Magnitude(l, j) && Ticks(l, ps, ts, h) && Uniform(ts, h) && h > 0.0
    requires ps[0].v >= 0.0 && ps[0].a >= l.target && k < |ts| && 0.0 <= Rest(l, j, ps[0].a, h, n) < j * h
    requires Integral(l, ps[0].v, ps[0].a, ts[k] - ts[0]) >= 0.0
    ensures WithinHalfStep(l, ps[0], ps[k], ts[k] - ts[0], h) <==> k <= n || Rest(l, j, ps[0].a, h, n) == 0.0
  {
    HalfStepBoundIff(l, j, ps, ts, h, n, k);
    OnlyNothing(Rest(l, j, ps[0].a, h, n), j * h);
  }

  lemma OnlyNothing(rest: real, m: real)
    requires 0.0 <= rest < m
    ensures rest * (m - rest) <= 0.0 <==> rest == 0.0
  {
    if rest > 0.0 { Strict(rest, m - rest); }
  }

  lemma {:induction false} RawRamp(l: Law, rs: seq<Point>, ts: seq<real>, h: real, k: nat)
    requires l.Valid() && RawTicks(l, rs, ts, h) && k < |ts| && rs[0].a >= l.target
    ensures ts[0] <= ts[k] && rs[k].a == Ramp(l, rs[0].a, ts[k] - ts[0])
  {
    if k > 0 {
      RawRamp(l, rs, ts, h, k - 1);
      assert RawAt(l, rs, ts, k) && GapAt(ts, h, k);
      var s, t := ts[k - 1] - ts[0], ts[k] - ts[k - 1];
      RampAdds(l, rs[0].a, s, t);
      assert rs[k].a == Ramp(l, Ramp(l, rs[0].a, s), t) && s + t == ts[k] - ts[0];
    }
  }

  /** The half-step bound fails on the operator's own numbers: one 0.1 s step from 0.1 m/s^2 above the target. */
  lemma HalfStepBoundFails()
    ensures var l := Law(-2.5, -1.5);
            Step(l, Point(10.0, -2.4), 0.1).v > Velocity(l, 10.0, -2.4, 0.1) + (-2.4 - l.target) * 0.1 / 2.0
  {
    assert RampTime(Law(-2.5, -1.5), -2.4) * 15.0 == 1.0;
  }
}
