/** When the trace window opens and what its TRIGGER record tells, said of the events of a run. */
module WindowOpening {
  import opened Words
  import opened TraceFormat
  import opened WindowSpec
  import WR = WindowRuns
  import P = RecordPolicy
  import Q = PreTriggerSpec

  // ------------------------------------------------------------------ what the events say

  /** A re-arm has been asked for since the last heartbeat. */
  ghost predicate AskedBy(es: seq<Timed>, k: nat)
    requires k <= |es|
  {
    k > 0 && (es[k - 1].ev.Ask? || (es[k - 1].ev.Mark? && AskedBy(es, k - 1)))
  }

  /** The heartbeat `i` re-arms the window. */
  ghost predicate RearmsAt(es: seq<Timed>, i: nat)
    requires i < |es|
  {
    es[i].ev.Beat? && AskedBy(es, i)
  }

  predicate MarkOf(e: Event, m: nat) { e.Mark? && e.marker == m }

  /** The arm marker was marked with an argument other than 0 since boot or the last re-arm. */
  ghost predicate ArmedBy(es: seq<Timed>, arm: nat, k: nat)
    requires k <= |es|
  {
    exists i | 0 <= i < k :: MarkOf(es[i].ev, arm) && es[i].ev.arg != 0 && NoRearm(es, i, k)
  }

  ghost predicate NoRearm(es: seq<Timed>, i: nat, k: nat)
    requires i <= k <= |es|
  {
    forall j | i <= j < k :: !RearmsAt(es, j)
  }

  ghost predicate RearmedBy(es: seq<Timed>, k: nat)
    requires k <= |es|
  {
    exists i | 0 <= i < k :: RearmsAt(es, i)
  }

  /** The event opens an untriggered window: a violation, the trigger once armed, or a guarded take after a re-arm. */
  ghost predicate OpensBy(es: seq<Timed>, ids: Ids, k: nat)
    requires k < |es|
  {
    var e := es[k].ev;
    || MarkOf(e, ids.violation)
    || (MarkOf(e, ids.trigger) && (ArmedBy(es, ids.arm, k) || (ids.trigger == ids.arm && e.arg != 0)))
    || (MarkOf(e, ids.arm) && RearmedBy(es, k))
  }

  // ------------------------------------------------------------------ one event

  /** What one event does of the flags, with `asked` and so `rearms` read off the state. */
  predicate Flags(s: Setup, w: Window, e: Event, n: Window)
  {
    var rearms := e.Beat? && w.asked;
    && n.asked == (e.Ask? || (w.asked && !e.Beat?))
    && n.reopen == (w.reopen || rearms)
    && (rearms ==> !n.triggered && !n.armed)
    && (!rearms && w.triggered ==> n.triggered)
    && (!rearms && !w.triggered ==> n.armed == (w.armed || (MarkOf(e, s.ids.arm) && e.arg != 0)))
    && (!w.triggered ==>
          (n.triggered <==>
             || MarkOf(e, s.ids.violation)
             || (MarkOf(e, s.ids.trigger) && (w.armed || (s.ids.trigger == s.ids.arm && e.arg != 0)))
             || (MarkOf(e, s.ids.arm) && w.reopen)))
  }

  lemma MarkFlags(s: Setup, w: Window, t: nat, m: nat, arg: nat)
    ensures Flags(s, w, Mark(m, arg), Next(s, w, t, Mark(m, arg)))
  {
    var v := Watch(s, w, t, m, arg);
    assert v.asked == w.asked && v.reopen == w.reopen;
    var n := Judge(s, v, t, m, arg);
    assert n.asked == v.asked && n.reopen == v.reopen && n.triggered == v.triggered && n.armed == v.armed;
  }

  lemma NextFlags(s: Setup, w: Window, t: nat, e: Event)
    ensures Flags(s, w, e, Next(s, w, t, e))
  {
    match e
    case Mark(m, arg) => MarkFlags(s, w, t, m, arg);
    case _ =>
  }

  // ------------------------------------------------------------------ every run

  lemma FlagsAt(s: Setup, ws: seq<Window>, es: seq<Timed>, k: nat)
    requires Run(s, ws, es) && k < |es|
    ensures Flags(s, ws[k], es[k].ev, ws[k + 1])
  {
    assert StepAt(s, ws, es, k);
    NextFlags(s, ws[k], es[k].at, es[k].ev);
  }

  lemma {:induction false} AskedIs(s: Setup, ws: seq<Window>, es: seq<Timed>, k: nat)
    requires Run(s, ws, es) && k <= |es|
    ensures ws[k].asked <==> AskedBy(es, k)
    ensures ws[k].reopen <==> RearmedBy(es, k)
  {
    if k > 0 {
      AskedIs(s, ws, es, k - 1);
      FlagsAt(s, ws, es, k - 1);
      assert RearmedBy(es, k) <==> RearmedBy(es, k - 1) || RearmsAt(es, k - 1);
    }
  }

  lemma ArmedLater(es: seq<Timed>, arm: nat, k: nat)
    requires 0 < k <= |es|
    ensures ArmedBy(es, arm, k) <==> !RearmsAt(es, k - 1) && (ArmedBy(es, arm, k - 1) || (MarkOf(es[k - 1].ev, arm) && es[k - 1].ev.arg != 0))
  {
    if ArmedBy(es, arm, k) {
      var i :| 0 <= i < k && MarkOf(es[i].ev, arm) && es[i].ev.arg != 0 && NoRearm(es, i, k);
      assert !RearmsAt(es, k - 1);
      assert i < k - 1 ==> NoRearm(es, i, k - 1);
    }
    if !RearmsAt(es, k - 1) && ArmedBy(es, arm, k - 1) {
      var i :| 0 <= i < k - 1 && MarkOf(es[i].ev, arm) && es[i].ev.arg != 0 && NoRearm(es, i, k - 1);
      assert NoRearm(es, i, k);
    }
    if !RearmsAt(es, k - 1) && MarkOf(es[k - 1].ev, arm) && es[k - 1].ev.arg != 0 { assert NoRearm(es, k - 1, k); }
  }

  /** While the window is shut its armed flag is the arm marker's. */
  lemma {:induction false} ArmedIs(s: Setup, ws: seq<Window>, es: seq<Timed>, k: nat)
    requires Run(s, ws, es) && k <= |es|
    ensures !ws[k].triggered ==> (ws[k].armed <==> ArmedBy(es, s.ids.arm, k))
  {
    if k > 0 {
      ArmedIs(s, ws, es, k - 1);
      AskedIs(s, ws, es, k - 1);
      FlagsAt(s, ws, es, k - 1);
      ArmedLater(es, s.ids.arm, k);
    }
  }

  /**
   * A shut window is opened exactly by a mark of the violation id, of the trigger id once the arm marker was marked
   * with an argument other than 0 since boot or the last re-arm, or of the arm id once the window was ever re-armed.
   */
  lemma OpensExactly(s: Setup, ws: seq<Window>, es: seq<Timed>, k: nat)
    requires Run(s, ws, es) && k < |es| && !ws[k].triggered
    ensures ws[k + 1].triggered <==> OpensBy(es, s.ids, k)
  {
    FlagsAt(s, ws, es, k);
    AskedIs(s, ws, es, k);
    ArmedIs(s, ws, es, k);
  }

  /** An open window is shut exactly by the heartbeat after a re-arm was asked for. */
  lemma ShutsExactly(s: Setup, ws: seq<Window>, es: seq<Timed>, k: nat)
    requires Run(s, ws, es) && k < |es| && ws[k].triggered
    ensures ws[k + 1].triggered <==> !RearmsAt(es, k)
  {
    FlagsAt(s, ws, es, k);
    AskedIs(s, ws, es, k);
  }

  /** The window is open exactly when some event opened it and no re-arm came since. */
  lemma {:induction false} OpenExactly(s: Setup, ws: seq<Window>, es: seq<Timed>, k: nat)
    requires Run(s, ws, es) && k <= |es|
    ensures ws[k].triggered <==> exists i | 0 <= i < k :: OpensBy(es, s.ids, i) && NoRearm(es, i, k)
  {
    if k > 0 {
      OpenExactly(s, ws, es, k - 1);
      if ws[k - 1].triggered { ShutsExactly(s, ws, es, k - 1); } else { OpensExactly(s, ws, es, k - 1); }
      OpenLater(es, s.ids, k);
    }
  }

  lemma OpenLater(es: seq<Timed>, ids: Ids, k: nat)
    requires 0 < k <= |es|
    ensures (exists i | 0 <= i < k :: OpensBy(es, ids, i) && NoRearm(es, i, k)) <==>
            !RearmsAt(es, k - 1) && ((exists i | 0 <= i < k - 1 :: OpensBy(es, ids, i) && NoRearm(es, i, k - 1)) || OpensBy(es, ids, k - 1))
  {
    if i :| 0 <= i < k && OpensBy(es, ids, i) && NoRearm(es, i, k) {
      assert !RearmsAt(es, k - 1);
      assert i < k - 1 ==> NoRearm(es, i, k - 1);
    }
    if !RearmsAt(es, k - 1) {
      if i :| 0 <= i < k - 1 && OpensBy(es, ids, i) && NoRearm(es, i, k - 1) { assert NoRearm(es, i, k); }
      if OpensBy(es, ids, k - 1) { assert NoRearm(es, k - 1, k); }
    }
  }

  // ------------------------------------------------------------------ what the TRIGGER record tells

  /** How many marks and heartbeats came since boot or the last re-arm; the heartbeat that re-arms is the first of its window. */
  ghost function Offered(es: seq<Timed>, k: nat): nat
    requires k <= |es|
  {
    if k == 0 then 0
    else if RearmsAt(es, k - 1) then 1
    else Offered(es, k - 1) + if es[k - 1].ev.Ask? then 0 else 1
  }

  /** What the ring is given of them: every heartbeat, and every mark the policy keeps, at its own time. */
  ghost function Given(ws: seq<Window>, es: seq<Timed>, k: nat): seq<Entry>
    requires |ws| == |es| + 1 && k <= |es|
  {
    if k == 0 then []
    else
      match es[k - 1].ev
      case Ask => Given(ws, es, k - 1)
      case Beat(n, u) => (if RearmsAt(es, k - 1) then [] else Given(ws, es, k - 1)) + [Entry(es[k - 1].at, Heartbeat(n, u))]
      case Mark(m, arg) =>
        if P.Verdict(ws[k - 1].memory, P.Mark(m, arg)) then Given(ws, es, k - 1) + [Entry(es[k - 1].at, Marker(m, arg))]
        else Given(ws, es, k - 1)
  }

  /** What one event does of the ring's count, while the window stays shut. */
  predicate ShutMoves(w: Window, e: Timed, n: Window)
  {
    match e.ev
    case Ask => n.history == w.history && n.filtered == w.filtered
    case Beat(x, u) =>
      n.history == (if w.asked then [] else w.history) + [Entry(e.at, Heartbeat(x, u))] && n.filtered == if w.asked then 0 else w.filtered
    case Mark(m, arg) =>
      if P.Verdict(w.memory, P.Mark(m, arg)) then n.history == w.history + [Entry(e.at, Marker(m, arg))] && n.filtered == w.filtered
      else n.history == w.history && n.filtered == Trunc32(w.filtered + 1)
  }

  lemma ShutStep(s: Setup, w: Window, t: nat, e: Event)
    requires !w.triggered || (e.Beat? && w.asked)
    requires !Next(s, w, t, e).triggered
    ensures ShutMoves(w, Timed(t, e), Next(s, w, t, e))
  {
    if e.Mark? { ShutMark(s, w, t, e.marker, e.arg); }
  }

  lemma ShutMark(s: Setup, w: Window, t: nat, m: nat, arg: nat)
    requires !w.triggered && !Next(s, w, t, Mark(m, arg)).triggered
    ensures var n := Next(s, w, t, Mark(m, arg));
            if P.Verdict(w.memory, P.Mark(m, arg)) then n.history == w.history + [Entry(t, Marker(m, arg))] && n.filtered == w.filtered
            else n.history == w.history && n.filtered == Trunc32(w.filtered + 1)
  {
    if !Fires(s, w, m, arg) {
      assert Watch(s, w, t, m, arg) == w.(armed := w.armed || Arms(s.ids, m, arg));
    }
  }

  /** While the window is shut, what the ring was given is what came past the policy since boot or the last re-arm, and nothing is uncounted. */
  lemma {:induction false} GivenIs(s: Setup, ws: seq<Window>, es: seq<Timed>, k: nat)
    requires Run(s, ws, es) && k <= |es| && !ws[k].triggered
    ensures ws[k].history == Given(ws, es, k) && Trunc32(|ws[k].history| + ws[k].filtered) == Trunc32(Offered(es, k))
  {
    if k > 0 {
      FlagsAt(s, ws, es, k - 1);
      AskedIs(s, ws, es, k - 1);
      if !RearmsAt(es, k - 1) { GivenIs(s, ws, es, k - 1); }
      ShutAt(s, ws, es, k - 1);
      GivenStep(ws, es, k - 1);
    }
  }

  lemma ShutAt(s: Setup, ws: seq<Window>, es: seq<Timed>, k: nat)
    requires Run(s, ws, es) && k < |es| && !ws[k + 1].triggered && (!ws[k].triggered || (es[k].ev.Beat? && ws[k].asked))
    ensures ShutMoves(ws[k], es[k], ws[k + 1])
  {
    assert StepAt(s, ws, es, k);
    ShutStep(s, ws[k], es[k].at, es[k].ev);
  }

  lemma GivenStep(ws: seq<Window>, es: seq<Timed>, k: nat)
    requires |ws| == |es| + 1 && k < |es| && ShutMoves(ws[k], es[k], ws[k + 1]) && (ws[k].asked <==> AskedBy(es, k))
    requires !RearmsAt(es, k) ==> ws[k].history == Given(ws, es, k) && Trunc32(|ws[k].history| + ws[k].filtered) == Trunc32(Offered(es, k))
    ensures ws[k + 1].history == Given(ws, es, k + 1) && Trunc32(|ws[k + 1].history| + ws[k + 1].filtered) == Trunc32(Offered(es, k + 1))
  {
    if !RearmsAt(es, k) { CountsOn(|ws[k].history|, ws[k].filtered, Offered(es, k)); }
  }

  lemma CountsOn(h: nat, f: nat, n: nat)
    requires Trunc32(h + f) == Trunc32(n)
    ensures Trunc32(h + 1 + f) == Trunc32(n + 1) && Trunc32(h + Trunc32(f + 1)) == Trunc32(n + 1)
  {
    var a, b, c := (h + f) / U32, n / U32, (f + 1) / U32;
    ModShift(n + 1, a - b);
    assert h + 1 + f == (n + 1) + (a - b) * U32;
    ModShift(h + 1 + f, -c);
    assert h + Trunc32(f + 1) == (h + 1 + f) + -c * U32;
  }

  lemma {:induction false} SpinKept(s: Setup, ws: seq<Window>, es: seq<Timed>, k: nat)
    requires Run(s, ws, es) && k <= |es|
    ensures ws[k].memory.spinKeep == ws[0].memory.spinKeep
  {
    if k > 0 {
      SpinKept(s, ws, es, k - 1);
      assert StepAt(s, ws, es, k - 1);
      SpinStays(s, ws[k - 1], es[k - 1].at, es[k - 1].ev);
    }
  }

  lemma SpinStays(s: Setup, w: Window, t: nat, e: Event)
    ensures Next(s, w, t, e).memory.spinKeep == w.memory.spinKeep
  {
    if e.Mark? { assert Watch(s, w, t, e.marker, e.arg).memory.spinKeep == w.memory.spinKeep; }
  }

  /**
   * The record the window opens with, behind the records it saves: the marker that opened it, pre_ms and SPIN_KEEP, how
   * many were saved mod 2^16, how many of what the ring was given were not, and how many marks the policy dropped: with
   * the saved ones they add up to everything offered since boot or the last re-arm, mod 2^32.
   */
  lemma TriggerTells(s: Setup, ws: seq<Window>, es: seq<Timed>, k: nat)
    requires Run(s, ws, es) && k < |es| && WR.AliveTo(ws, es, k + 1) && !ws[k].triggered && ws[k + 1].triggered
    ensures var saved := |Q.Recent(ws[k].ring.All(), es[k].at, s.preMs * 1_000_000)|;
            var p := |ws[k].stream| + saved;
            && es[k].ev.Mark? && p < |ws[k + 1].stream| && ws[k + 1].stream[p].t == es[k].at && ws[k + 1].stream[p].rec.Trigger?
            && var r := ws[k + 1].stream[p].rec;
               && r.cause == es[k].ev.marker && r.preMs == s.preMs && r.spinKeep == ws[0].memory.spinKeep && r.kept == saved % U16
               && Trunc32(saved + r.lost) == Trunc32(|Given(ws, es, k)|)
               && Trunc32(|Given(ws, es, k)| + r.filtered) == Trunc32(Offered(es, k))
    ensures WR.ByAge(ws[k].ring.All(), es[k].at, s.preMs * 1_000_000, |Q.Recent(ws[k].ring.All(), es[k].at, s.preMs * 1_000_000)|)
  {
    WR.TriggerSaves(s, ws, es, k);
    GivenIs(s, ws, es, k);
    SpinKept(s, ws, es, k);
    var saved := |Q.Recent(ws[k].ring.All(), es[k].at, s.Pre())|;
    WR.MissingCounts(|ws[k].history|, saved);
  }
}
