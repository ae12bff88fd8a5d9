/** The budget arithmetic for the braking law: how long the stop takes, and the curve drawn of it. */
module SettleBudget {
  import opened BrakeLaw

  function Magnitude(x: real): real { if x < 0.0 then -x else x }

  /** The law the direct path runs for these two arguments. */
  function LawOf(decel: real, jerk: real): Law { Law(-Magnitude(decel), -Magnitude(jerk)) }

  /** The speed the jerk ramp alone sheds. */
  function RampSpeed(a: real, j: real): real
    requires j > 0.0
  {
    a * a / (2.0 * j)
  }

  /**
   * `settle_s`, with the square root it takes as the argument `root`: only the entry speeds the ramp alone
   * sheds use it.
   */
  function Settle(v0: real, decel: real, jerk: real, root: real): real
    requires decel != 0.0 && jerk != 0.0
  {
    var a, j := Magnitude(decel), Magnitude(jerk);
    if v0 <= RampSpeed(a, j) then root else a / j + (v0 - RampSpeed(a, j)) / a
  }

  predicate IsRoot(x: real, root: real) { root >= 0.0 && root * root == x }

  /** The direct path's velocity from a zero seed acceleration, before and after the ramp. */
  lemma FromRest(v0: real, a: real, j: real, t: real)
    requires a > 0.0 && j > 0.0 && t >= 0.0
    ensures RampTime(Law(-a, -j), 0.0) == a / j
    ensures t < a / j ==> Integral(Law(-a, -j), v0, 0.0, t) == v0 - 0.5 * j * t * t
    ensures t >= a / j ==> Integral(Law(-a, -j), v0, 0.0, t) == v0 - RampSpeed(a, j) - a * (t - a / j)
  {
    var l, r := Law(-a, -j), a / j;
    RampTimeIs(l, 0.0);
    assert -j * RampTime(l, 0.0) == -a;
    assert j * r == a;
    Cancel(j, RampTime(l, 0.0), r);
    assert 0.5 * j * r * r == 0.5 * a * r;
    assert RampSpeed(a, j) == 0.5 * a * r;
  }

  lemma Cancel(j: real, x: real, y: real)
    requires j > 0.0 && j * x == j * y
    ensures x == y
  {
    if x < y { Strict(j, y - x); Distributes(j, y, -x); }
    if y < x { Strict(j, x - y); Distributes(j, x, -y); }
  }

  lemma SquaresOrder(x: real, y: real)
    requires x >= 0.0 && y >= 0.0
    ensures x < y <==> x * x < y * y
  {
    if x < y { Strict(y - x, y + x); assert (y - x) * (y + x) == y * y - x * x; }
    else { MulPos(x - y, x + y); assert (x - y) * (x + y) == x * x - y * y; }
  }

  /** Entry speeds the ramp alone sheds. */
  lemma ShortStop(v0: real, a: real, j: real, root: real, t: real)
    requires a > 0.0 && j > 0.0 && t >= 0.0 && v0 <= RampSpeed(a, j) && IsRoot(2.0 * v0 / j, root)
    ensures Integral(Law(-a, -j), v0, 0.0, t) > 0.0 <==> t < root
    ensures root <= a / j
  {
    FromRest(v0, a, j, t);
    var r := a / j;
    assert j * r == a;
    assert j * (root * root) == 2.0 * v0;
    assert RampSpeed(a, j) == 0.5 * j * (r * r) by { assert 0.5 * j * (r * r) == 0.5 * (j * r) * r; }
    assert root <= r by {
      if r < root { SquaresOrder(r, root); Strict(j, root * root - r * r); Distributes(j, root * root, -(r * r)); }
    }
    SquaresOrder(t, root);
    if t < r {
      Distributes(j, root * root, -(t * t));
      if t < root { Strict(j, root * root - t * t); } else { MulPos(j, t * t - root * root); }
      assert v0 - 0.5 * j * t * t == 0.5 * (j * (root * root - t * t));
    } else {
      MulPos(a, t - r);
    }
  }

  /** Entry speeds that outlast the ramp. */
  lemma LongStop(v0: real, a: real, j: real, t: real)
    requires a > 0.0 && j > 0.0 && t >= 0.0 && v0 > RampSpeed(a, j)
    ensures Integral(Law(-a, -j), v0, 0.0, t) > 0.0 <==> t < a / j + (v0 - RampSpeed(a, j)) / a
  {
    FromRest(v0, a, j, t);
    var r, over := a / j, (v0 - RampSpeed(a, j)) / a;
    assert a * over == v0 - RampSpeed(a, j);
    assert over > 0.0 by { if over <= 0.0 { MulPos(a, -over); } }
    assert j * r == a;
    if t < r {
      SquaresOrder(t, r);
      assert RampSpeed(a, j) == 0.5 * (j * (r * r)) by { assert j * (r * r) == (j * r) * r; }
      Strict(j, r * r - t * t);
      Distributes(j, r * r, -(t * t));
    } else {
      assert v0 - RampSpeed(a, j) - a * (t - r) == a * (over - (t - r)) by { Distributes(a, over, -(t - r)); }
      if t < r + over { Strict(a, over - (t - r)); } else { MulPos(a, (t - r) - over); }
    }
  }

  /** The budget equals the law: from a zero seed acceleration the direct path's velocity is positive exactly before `settle_s`. */
  lemma BudgetEqualsLaw(v0: real, decel: real, jerk: real, root: real, t: real)
    requires decel != 0.0 && jerk != 0.0 && v0 >= 0.0 && t >= 0.0
    requires IsRoot(2.0 * v0 / Magnitude(jerk), root)
    ensures Velocity(LawOf(decel, jerk), v0, 0.0, t) > 0.0 <==> t < Settle(v0, decel, jerk, root)
    ensures Velocity(LawOf(decel, jerk), v0, 0.0, t) >= 0.0
  {
    var a, j := Magnitude(decel), Magnitude(jerk);
    if v0 <= RampSpeed(a, j) { ShortStop(v0, a, j, root, t); } else { LongStop(v0, a, j, t); }
  }

  // ------------------------------------------------------------------ the curve

  function SampleTime(settle: real, i: nat, n: nat): real
    requires n > 0
  {
    settle * i as real / n as real
  }

  lemma SampleTimeWithin(settle: real, i: nat, n: nat)
    requires settle >= 0.0 && i <= n && n > 0
    ensures 0.0 <= SampleTime(settle, i, n) <= settle
  {
    MulPos(settle, i as real);
    MulPos(settle, (n - i) as real);
    Distributes(settle, n as real, -(i as real));
    var m, q := n as real, SampleTime(settle, i, n);
    assert m * q == settle * i as real;
    if q < 0.0 { Strict(m, -q); }
    if q > settle { Strict(m, q - settle); Distributes(m, q, -settle); }
  }

  lemma SettleNonNegative(v0: real, decel: real, jerk: real, root: real)
    requires decel != 0.0 && jerk != 0.0 && root >= 0.0
    ensures Settle(v0, decel, jerk, root) >= 0.0
  {
    var a, j := Magnitude(decel), Magnitude(jerk);
    var r, over := a / j, (v0 - RampSpeed(a, j)) / a;
    assert j * r == a && a * over == v0 - RampSpeed(a, j);
    if r < 0.0 { Strict(j, -r); }
    if over < 0.0 { Strict(a, -over); }
  }

  /** One point of the curve, as it branches. */
  function CurveAt(v0: real, a: real, j: real, t: real): real
    requires j > 0.0
  {
    var v := if t <= a / j && v0 > RampSpeed(a, j) then v0 - 0.5 * j * t * t
             else if v0 <= RampSpeed(a, j) then MaxReal(v0 - 0.5 * j * t * t, 0.0)
             else v0 - RampSpeed(a, j) - a * (t - a / j);
    MaxReal(v, 0.0)
  }

  /** At the end of the ramp its two forms meet. */
  lemma RampEnd(a: real, j: real)
    requires a > 0.0 && j > 0.0
    ensures 0.5 * j * (a / j) * (a / j) == RampSpeed(a, j)
  {
    var r := a / j;
    assert j * r == a;
    assert 0.5 * j * r * r == 0.5 * (j * r) * r;
  }

  /** The curve's three branches are the law's two, `i` being the velocity before its clamp. */
  lemma CurveIs(v0: real, a: real, j: real, t: real, i: real)
    requires a > 0.0 && j > 0.0 && (v0 <= RampSpeed(a, j) ==> t <= a / j)
    requires t < a / j ==> i == v0 - 0.5 * j * t * t
    requires t >= a / j ==> i == v0 - RampSpeed(a, j) - a * (t - a / j)
    ensures CurveAt(v0, a, j, t) == MaxReal(i, 0.0)
  {
    if t == a / j { RampEnd(a, j); assert a * (t - a / j) == 0.0; }
  }

  lemma CurveIsVelocity(v0: real, decel: real, jerk: real, root: real, t: real)
    requires decel != 0.0 && jerk != 0.0 && v0 >= 0.0 && IsRoot(2.0 * v0 / Magnitude(jerk), root)
    requires 0.0 <= t <= Settle(v0, decel, jerk, root)
    ensures CurveAt(v0, Magnitude(decel), Magnitude(jerk), t) == Velocity(LawOf(decel, jerk), v0, 0.0, t)
  {
    var a, j := Magnitude(decel), Magnitude(jerk);
    FromRest(v0, a, j, t);
    if v0 <= RampSpeed(a, j) { ShortStop(v0, a, j, root, t); }
    CurveIs(v0, a, j, t, Integral(LawOf(decel, jerk), v0, 0.0, t));
  }

  /** `stop_curve` samples the direct path's velocity at `n` even steps from the entry to the settle time. */
  method StopCurve(v0: real, decel: real, jerk: real, n: nat, root: real) returns (curve: seq<(real, real)>)
    requires decel != 0.0 && jerk != 0.0 && v0 >= 0.0 && n > 0
    requires IsRoot(2.0 * v0 / Magnitude(jerk), root)
    ensures |curve| == n + 1
    ensures forall i | 0 <= i <= n ::
              var t := SampleTime(Settle(v0, decel, jerk, root), i, n);
              curve[i] == (t, Velocity(LawOf(decel, jerk), v0, 0.0, t))
  {
    var a, j := Magnitude(decel), Magnitude(jerk);
    var settle := Settle(v0, decel, jerk, root);
    SettleNonNegative(v0, decel, jerk, root);
    curve := [];
    for i := 0 to n + 1
      invariant |curve| == i
      invariant forall k | 0 <= k < i ::
                  var t := SampleTime(settle, k, n);
                  curve[k] == (t, Velocity(LawOf(decel, jerk), v0, 0.0, t))
    {
      var t := SampleTime(settle, i, n);
      SampleTimeWithin(settle, i, n);
      CurveIsVelocity(v0, decel, jerk, root, t);
      var v := CurveAt(v0, a, j, t);
      curve := curve + [(t, v)];
    }
  }
}
