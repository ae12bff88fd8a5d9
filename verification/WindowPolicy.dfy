/** The record policy inside the window's runs: what the decoded stream holds of a CHANGE marker and of a spin after the trigger. */
module WindowPolicy {
  import opened TraceFormat
  import opened TraceDecoder
  import opened WindowSpec
  import opened WindowRuns
  import R = TraceRoundTrip
  import Q = PreTriggerSpec
  import P = RecordPolicy

  // ------------------------------------------------------------------ the policy's own run

  /** What the policy sees of an event. */
  function Seen(s: Setup, w: Window, e: Event): seq<P.Event>
  {
    match e
    case Mark(m, arg) => (if Fires(s, w, m, arg) then [P.Fired] else []) + [P.Mark(m, arg)]
    case Beat(_, _) => if w.asked then [P.Rearmed] else []
    case Ask => []
  }

  /**
   * The policy's run up to the window's `n`-th state: `at[k]` is where it stands at the `k`-th, with the window's
   * memory there, and between two of them it sees what the event between them shows it.
   */
  ghost predicate Projects(s: Setup, ws: seq<Window>, es: seq<Timed>, n: nat, ys: seq<P.Memory>, ps: seq<P.Event>, at: seq<nat>)
  {
    && |ws| == |es| + 1 && n <= |es| && P.Run(ys, ps)
    && |at| == n + 1 && at[0] == 0 && at[n] == |ps| && ys[0] == ws[0].memory
    && forall k | 0 <= k < n :: ProjectsAt(s, ws, es, ys, ps, at, k)
  }

  ghost predicate ProjectsAt(s: Setup, ws: seq<Window>, es: seq<Timed>, ys: seq<P.Memory>, ps: seq<P.Event>, at: seq<nat>, k: nat)
    requires |ws| == |es| + 1 && |ys| == |ps| + 1 && k < |es| && k + 1 < |at|
  {
    && at[k] <= at[k + 1] <= |ps| && ps[at[k]..at[k + 1]] == Seen(s, ws[k], es[k].ev)
    && ys[at[k]] == ws[k].memory && ys[at[k + 1]] == ws[k + 1].memory
  }

  lemma Append(ys: seq<P.Memory>, ps: seq<P.Event>, e: P.Event) returns (zs: seq<P.Memory>, qs: seq<P.Event>)
    requires P.Run(ys, ps)
    ensures P.Run(zs, qs) && qs == ps + [e] && zs == ys + [P.Step(ys[|ps|], e)]
  {
    zs, qs := ys + [P.Step(ys[|ps|], e)], ps + [e];
    forall k | 0 <= k < |qs| ensures P.StepAt(zs, qs, k) { if k < |ps| { assert P.StepAt(ys, ps, k); } }
  }

  lemma AppendMark(s: Setup, w: Window, t: nat, m: nat, arg: nat, ys: seq<P.Memory>, ps: seq<P.Event>)
    returns (zs: seq<P.Memory>, qs: seq<P.Event>)
    requires P.Run(ys, ps) && ys[|ps|] == w.memory
    ensures P.Run(zs, qs) && qs == ps + Seen(s, w, Mark(m, arg)) && |zs| >= |ys| && zs[..|ys|] == ys
    ensures zs[|qs|] == Next(s, w, t, Mark(m, arg)).memory
  {
    var fired: seq<P.Event> := if Fires(s, w, m, arg) then [P.Fired] else [];
    zs, qs := ys, ps;
    if fired != [] { zs, qs := Append(zs, qs, P.Fired); }
    assert qs == ps + fired && zs[|qs|] == Watch(s, w, t, m, arg).memory;
    zs, qs := Append(zs, qs, P.Mark(m, arg));
    Regroup(ps, fired, [P.Mark(m, arg)]);
  }

  /** The memory after the event. */
  lemma AppendSeen(s: Setup, w: Window, t: nat, e: Event, ys: seq<P.Memory>, ps: seq<P.Event>)
    returns (zs: seq<P.Memory>, qs: seq<P.Event>)
    requires P.Run(ys, ps) && ys[|ps|] == w.memory
    ensures P.Run(zs, qs) && qs == ps + Seen(s, w, e) && |zs| >= |ys| && zs[..|ys|] == ys
    ensures zs[|qs|] == Next(s, w, t, e).memory
  {
    zs, qs := ys, ps;
    match e
    case Mark(m, arg) => zs, qs := AppendMark(s, w, t, m, arg, ys, ps);
    case Beat(_, _) => if w.asked { zs, qs := Append(zs, qs, P.Rearmed); }
    case Ask =>
  }

  lemma Regroup(a: seq<P.Event>, b: seq<P.Event>, c: seq<P.Event>)
    ensures (a + b) + c == a + (b + c)
  {
  }

  lemma ProjectsMore(s: Setup, ws: seq<Window>, es: seq<Timed>, n: nat, ys: seq<P.Memory>, ps: seq<P.Event>, at: seq<nat>,
                     zs: seq<P.Memory>, qs: seq<P.Event>)
    requires Projects(s, ws, es, n, ys, ps, at) && n < |es| && P.Run(zs, qs) && ys[|ps|] == ws[n].memory
    requires qs == ps + Seen(s, ws[n], es[n].ev) && |zs| >= |ys| && zs[..|ys|] == ys && zs[|qs|] == ws[n + 1].memory
    ensures Projects(s, ws, es, n + 1, zs, qs, at + [|qs|])
  {
    var bt := at + [|qs|];
    assert zs[0] == zs[..|ys|][0] && zs[|ps|] == zs[..|ys|][|ps|];
    forall k | 0 <= k < n + 1 ensures ProjectsAt(s, ws, es, zs, qs, bt, k) {
      if k < n {
        assert ProjectsAt(s, ws, es, ys, ps, at, k);
        assert zs[at[k]] == zs[..|ys|][at[k]] && zs[at[k + 1]] == zs[..|ys|][at[k + 1]];
        assert qs[at[k]..at[k + 1]] == ps[at[k]..at[k + 1]];
      }
    }
  }

  /** Every run of the window holds a run of the policy. */
  lemma {:induction false} PolicyPart(s: Setup, ws: seq<Window>, es: seq<Timed>, n: nat)
    returns (ys: seq<P.Memory>, ps: seq<P.Event>, at: seq<nat>)
    requires Run(s, ws, es) && n <= |es|
    ensures Projects(s, ws, es, n, ys, ps, at) && ys[|ps|] == ws[n].memory
  {
    if n == 0 {
      BootPolicy(s, ws, es);
      ys, ps, at := [ws[0].memory], [], [0];
    } else {
      ys, ps, at := PolicyPart(s, ws, es, n - 1);
      assert StepAt(s, ws, es, n - 1);
      var zs, qs := AppendSeen(s, ws[n - 1], es[n - 1].at, es[n - 1].ev, ys, ps);
      ProjectsMore(s, ws, es, n - 1, ys, ps, at, zs, qs);
      ys, ps, at := zs, qs, at + [|qs|];
    }
  }

  lemma BootPolicy(s: Setup, ws: seq<Window>, es: seq<Timed>)
    requires Run(s, ws, es)
    ensures P.Initial(ws[0].memory)
  {
  }

  // ------------------------------------------------------------------ records and marks of one marker, of one path

  /** The args of the records of `m`. */
  ghost function Args(rs: seq<Record>, m: nat): seq<nat>
  {
    if rs == [] then []
    else
      var r := rs[|rs| - 1];
      if r.Marker? && r.marker == m then Args(rs[..|rs| - 1], m) + [r.arg] else Args(rs[..|rs| - 1], m)
  }

  /** The records of a path, ENTRY `m` as true and EXIT `m + 1` as false. */
  ghost function Path(rs: seq<Record>, m: nat): seq<bool>
  {
    if rs == [] then []
    else
      var r := rs[|rs| - 1];
      if r.Marker? && (r.marker == m || r.marker == m + 1) then Path(rs[..|rs| - 1], m) + [r.marker == m] else Path(rs[..|rs| - 1], m)
  }

  /** The same of the marks among the events `es[j..k]`. */
  ghost function MarkedArgs(es: seq<Timed>, j: nat, k: nat, m: nat): seq<nat>
    requires j <= k <= |es|
    decreases k
  {
    if j == k then []
    else
      var e := es[k - 1].ev;
      if e.Mark? && e.marker == m then MarkedArgs(es, j, k - 1, m) + [e.arg] else MarkedArgs(es, j, k - 1, m)
  }

  ghost function MarkedPath(es: seq<Timed>, j: nat, k: nat, m: nat): seq<bool>
    requires j <= k <= |es|
    decreases k
  {
    if j == k then []
    else
      var e := es[k - 1].ev;
      if e.Mark? && (e.marker == m || e.marker == m + 1) then MarkedPath(es, j, k - 1, m) + [e.marker == m]
      else MarkedPath(es, j, k - 1, m)
  }

  lemma OneRecord(rs: seq<Record>, r: Record, m: nat)
    ensures Args(rs + [r], m) == if r.Marker? && r.marker == m then Args(rs, m) + [r.arg] else Args(rs, m)
    ensures Path(rs + [r], m) ==
            if r.Marker? && (r.marker == m || r.marker == m + 1) then Path(rs, m) + [r.marker == m] else Path(rs, m)
  {
    assert (rs + [r])[..|rs|] == rs;
  }

  /** The records are what the policy's run `ys` keeps of `ps[i..q]`. */
  ghost predicate Tells(rs: seq<Record>, ys: seq<P.Memory>, ps: seq<P.Event>, i: nat, q: nat, m: nat)
    requires |ys| == |ps| + 1 && i <= q <= |ps|
  {
    Args(rs, m) == P.Recorded(ys, ps, i, q, m) && Path(rs, m) == P.KeptPath(ys, ps, i, q, m)
  }

  lemma TellsMark(rs: seq<Record>, ys: seq<P.Memory>, ps: seq<P.Event>, i: nat, q: nat, m: nat, n: nat, arg: nat)
    requires |ys| == |ps| + 1 && i <= q < |ps| && Tells(rs, ys, ps, i, q, m) && ps[q] == P.Mark(n, arg)
    ensures Tells(if P.Verdict(ys[q], ps[q]) then rs + [Marker(n, arg)] else rs, ys, ps, i, q + 1, m)
  {
    OneRecord(rs, Marker(n, arg), m);
  }

  /** `ps[i..q]` are the marks among `es[j..k]`. */
  ghost predicate Hears(es: seq<Timed>, j: nat, k: nat, ps: seq<P.Event>, i: nat, q: nat, m: nat)
    requires j <= k <= |es| && i <= q <= |ps|
  {
    MarkedArgs(es, j, k, m) == P.Marked(ps, i, q, m) && MarkedPath(es, j, k, m) == P.Path(ps, i, q, m)
  }

  lemma HearsMark(es: seq<Timed>, j: nat, k: nat, ps: seq<P.Event>, i: nat, q: nat, m: nat)
    requires j <= k < |es| && i <= q < |ps| && Hears(es, j, k, ps, i, q, m)
    requires es[k].ev.Mark? && ps[q] == P.Mark(es[k].ev.marker, es[k].ev.arg)
    ensures Hears(es, j, k + 1, ps, i, q + 1, m)
  {
  }

  lemma HearsOther(es: seq<Timed>, j: nat, k: nat, ps: seq<P.Event>, i: nat, q: nat, m: nat)
    requires j <= k < |es| && i <= q <= |ps| && Hears(es, j, k, ps, i, q, m) && !es[k].ev.Mark?
    ensures Hears(es, j, k + 1, ps, i, q, m)
  {
  }

  // ------------------------------------------------------------------ after the trigger

  /** No re-arm among `es[j..k]`. */
  ghost predicate Steadfast(ws: seq<Window>, es: seq<Timed>, j: nat, k: nat)
    requires |ws| == |es| + 1
  {
    j <= k <= |es| && forall i | j <= i < k :: !Rearms(ws[i], es[i].ev)
  }

  predicate Rearms(w: Window, e: Event) { e.Beat? && w.asked }

  /** The event `i` opens the window, and no re-arm comes up to `k`. */
  ghost predicate OpenSince(s: Setup, ws: seq<Window>, es: seq<Timed>, i: nat, k: nat)
  {
    Run(s, ws, es) && i < k <= |es| && !ws[i].triggered && ws[i + 1].triggered && Steadfast(ws, es, i + 1, k)
  }

  ghost function Recs(es: seq<Entry>): seq<Record> { seq(|es|, i requires 0 <= i < |es| => es[i].rec) }

  /** How many records the stream holds up to the TRIGGER record, when the window opens at `t`. */
  ghost function UpToTrigger(s: Setup, w: Window, t: nat): nat { |w.stream| + |Q.Kept(w.ring, Stamp(t), s.Pre())| + 1 }

  /** After the trigger: the policy sees a mark as such and nothing else, and the stream grows by what is kept. */
  lemma StepAfter(s: Setup, w: Window, t: nat, e: Event)
    requires w.triggered && !Rearms(w, e)
    ensures var n := Next(s, w, t, e);
            && n.triggered && Seen(s, w, e) == (if e.Mark? then [P.Mark(e.marker, e.arg)] else [])
            && n.stream == w.stream + Grows(w, t, e)
  {
  }

  function Grows(w: Window, t: nat, e: Event): seq<Entry>
  {
    match e
    case Mark(m, arg) => if P.Verdict(w.memory, P.Mark(m, arg)) then [Entry(t, Marker(m, arg))] else []
    case Beat(seqNo, uptime) => [Entry(t, Heartbeat(seqNo, uptime))]
    case Ask => []
  }

  lemma RecsMore(stream: seq<Entry>, from: nat, more: seq<Entry>)
    requires from <= |stream|
    ensures Recs((stream + more)[from..]) == Recs(stream[from..]) + Recs(more)
  {
    assert (stream + more)[from..] == stream[from..] + more;
  }

  /** The opening event: a trigger to the policy, then its mark. */
  lemma OpeningSeen(s: Setup, w: Window, e: Timed, n: Window)
    requires !w.triggered && n.triggered && n == Next(s, w, e.at, e.ev)
    ensures e.ev.Mark? && Seen(s, w, e.ev) == [P.Fired, P.Mark(e.ev.marker, e.ev.arg)]
  {
    OnlyMarksOpen(s, w, e);
  }

  lemma OpeningStream(s: Setup, w: Window, e: Timed, n: Window, kept: seq<Entry>)
    requires !w.triggered && n.triggered && n == Next(s, w, e.at, e.ev) && kept == Q.Kept(w.ring, Stamp(e.at), s.Pre())
    ensures e.ev.Mark? && n.stream == (w.stream + kept)
              + ([Entry(e.at, TriggerRecord(s, w, e.ev.marker, |kept|))] + FirstMark(w, e.at, e.ev.marker, e.ev.arg))
  {
    OnlyMarksOpen(s, w, e);
    MarkOpens(s, w, e.at, e.ev.marker, e.ev.arg, kept);
  }

  /** The stream behind the TRIGGER record begins with the mark that opened the window, if the policy keeps it. */
  lemma OpeningStep(s: Setup, w: Window, e: Timed, n: Window, kept: seq<Entry>)
    requires e.ev.Mark? && Seen(s, w, e.ev) == [P.Fired, P.Mark(e.ev.marker, e.ev.arg)] && n.triggered
    requires n.stream == (w.stream + kept)
               + ([Entry(e.at, TriggerRecord(s, w, e.ev.marker, |kept|))] + FirstMark(w, e.at, e.ev.marker, e.ev.arg))
    ensures Begins(s, w, e, n, |w.stream| + |kept| + 1)
  {
    BehindHead(w.stream + kept, Entry(e.at, TriggerRecord(s, w, e.ev.marker, |kept|)), FirstMark(w, e.at, e.ev.marker, e.ev.arg));
    FirstRecs(w, e);
  }

  lemma OpeningBegins(s: Setup, w: Window, e: Timed, n: Window)
    requires !w.triggered && n.triggered && n == Next(s, w, e.at, e.ev)
    ensures Begins(s, w, e, n, UpToTrigger(s, w, e.at))
  {
    var kept := Q.Kept(w.ring, Stamp(e.at), s.Pre());
    OpeningSeen(s, w, e, n);
    OpeningStream(s, w, e, n, kept);
    OpeningStep(s, w, e, n, kept);
  }

  lemma BehindHead(head: seq<Entry>, x: Entry, tail: seq<Entry>)
    ensures var all := head + ([x] + tail);
            |head| + 1 <= |all| && all[|head| + 1..] == tail && all[|head|] == x
  {
  }

  lemma FirstRecs(w: Window, e: Timed)
    requires e.ev.Mark?
    ensures Recs(FirstMark(w, e.at, e.ev.marker, e.ev.arg)) ==
            if P.Verdict(P.Step(w.memory, P.Fired), P.Mark(e.ev.marker, e.ev.arg)) then [Marker(e.ev.marker, e.ev.arg)] else []
  {
  }

  // ------------------------------------------------------------------ the stream against the policy's run

  ghost predicate Mirrored(rs: seq<Record>, es: seq<Timed>, j: nat, k: nat, ys: seq<P.Memory>, ps: seq<P.Event>, i: nat, q: nat, m: nat)
    requires |ys| == |ps| + 1 && i <= q <= |ps| && j <= k <= |es|
  {
    Tells(rs, ys, ps, i, q, m) && Hears(es, j, k, ps, i, q, m)
  }

  lemma MirroredMark(rs: seq<Record>, more: seq<Record>, es: seq<Timed>, j: nat, k: nat, ys: seq<P.Memory>, ps: seq<P.Event>, i: nat, q: nat, m: nat)
    requires |ys| == |ps| + 1 && i <= q < |ps| && j <= k < |es| && Mirrored(rs, es, j, k, ys, ps, i, q, m)
    requires es[k].ev.Mark? && ps[q] == P.Mark(es[k].ev.marker, es[k].ev.arg)
    requires more == if P.Verdict(ys[q], ps[q]) then rs + [Marker(es[k].ev.marker, es[k].ev.arg)] else rs
    ensures Mirrored(more, es, j, k + 1, ys, ps, i, q + 1, m)
  {
    TellsMark(rs, ys, ps, i, q, m, es[k].ev.marker, es[k].ev.arg);
    HearsMark(es, j, k, ps, i, q, m);
  }

  lemma NothingYet(es: seq<Timed>, j: nat, ys: seq<P.Memory>, ps: seq<P.Event>, i: nat, m: nat)
    requires |ys| == |ps| + 1 && i <= |ps| && j <= |es|
    ensures Mirrored([], es, j, j, ys, ps, i, i, m)
  {
  }

  lemma MirroredOther(rs: seq<Record>, r: Record, es: seq<Timed>, j: nat, k: nat, ys: seq<P.Memory>, ps: seq<P.Event>, i: nat, q: nat, m: nat)
    requires |ys| == |ps| + 1 && i <= q <= |ps| && j <= k < |es| && Mirrored(rs, es, j, k, ys, ps, i, q, m)
    requires !es[k].ev.Mark? && !r.Marker?
    ensures Mirrored(rs, es, j, k + 1, ys, ps, i, q, m) && Mirrored(rs + [r], es, j, k + 1, ys, ps, i, q, m)
  {
    HearsOther(es, j, k, ps, i, q, m);
    OneRecord(rs, r, m);
  }

  /** At the `k`-th state, what the stream holds from `from` on is what the policy's run keeps from `start` on, and that is marks only. */
  ghost predicate Mirrors(ws: seq<Window>, es: seq<Timed>, from: nat, i: nat, k: nat,
                          ys: seq<P.Memory>, ps: seq<P.Event>, start: nat, q: nat, m: nat)
    requires |ws| == |es| + 1 && |ys| == |ps| + 1 && i <= k <= |es|
  {
    && ws[k].triggered && from <= |ws[k].stream| && start <= q <= |ps|
    && Mirrored(Recs(ws[k].stream[from..]), es, i, k, ys, ps, start, q, m)
    && P.OneWindow(ps, start, q)
  }

  /** A trigger and a mark in the policy's run. */
  lemma FiredThen(ys: seq<P.Memory>, ps: seq<P.Event>, a: nat, b: nat, e: P.Event)
    requires P.Run(ys, ps) && a <= b <= |ps| && ps[a..b] == [P.Fired, e]
    ensures b == a + 2 && ps[a] == P.Fired && ps[a + 1] == e && ys[a + 1] == P.Step(ys[a], P.Fired)
  {
    assert ps[a] == ps[a..b][0] && ps[a + 1] == ps[a..b][1];
    assert P.StepAt(ys, ps, a);
  }

  /** What the opening event `e` leaves: its two policy events, and the first records behind the TRIGGER record. */
  ghost predicate Begins(s: Setup, w: Window, e: Timed, n: Window, from: nat)
  {
    && e.ev.Mark? && Seen(s, w, e.ev) == [P.Fired, P.Mark(e.ev.marker, e.ev.arg)] && n.triggered
    && 0 < from <= |n.stream| && n.stream[from - 1].rec.Trigger?
    && Recs(n.stream[from..]) ==
         if P.Verdict(P.Step(w.memory, P.Fired), P.Mark(e.ev.marker, e.ev.arg)) then [Marker(e.ev.marker, e.ev.arg)] else []
  }

  lemma BeginsAt(s: Setup, ws: seq<Window>, es: seq<Timed>, i: nat, n: nat)
    requires OpenSince(s, ws, es, i, n)
    ensures Begins(s, ws[i], es[i], ws[i + 1], UpToTrigger(s, ws[i], es[i].at))
  {
    assert StepAt(s, ws, es, i);
    OpeningBegins(s, ws[i], es[i], ws[i + 1]);
  }

  lemma MirrorsOpening(s: Setup, ws: seq<Window>, es: seq<Timed>, from: nat, i: nat,
                       ys: seq<P.Memory>, ps: seq<P.Event>, at: seq<nat>, m: nat)
    requires |ws| == |es| + 1 && P.Run(ys, ps) && i < |es| && i + 1 < |at|
    requires Begins(s, ws[i], es[i], ws[i + 1], from) && ProjectsAt(s, ws, es, ys, ps, at, i)
    ensures Mirrors(ws, es, from, i, i + 1, ys, ps, at[i] + 1, at[i + 1], m)
  {
    var q := at[i];
    FiredThen(ys, ps, q, at[i + 1], P.Mark(es[i].ev.marker, es[i].ev.arg));
    NothingYet(es, i, ys, ps, q + 1, m);
    MirroredMark([], Recs(ws[i + 1].stream[from..]), es, i, i, ys, ps, q + 1, q + 1, m);
  }

  /** What an event after it leaves. */
  ghost predicate Continues(s: Setup, w: Window, e: Timed, n: Window)
  {
    && n.triggered && Seen(s, w, e.ev) == (if e.ev.Mark? then [P.Mark(e.ev.marker, e.ev.arg)] else [])
    && n.stream == w.stream + Grows(w, e.at, e.ev)
  }

  lemma ContinuesAt(s: Setup, ws: seq<Window>, es: seq<Timed>, i: nat, k: nat, n: nat)
    requires OpenSince(s, ws, es, i, n) && i < k < n && ws[k].triggered
    ensures Continues(s, ws[k], es[k], ws[k + 1])
  {
    assert StepAt(s, ws, es, k) && !Rearms(ws[k], es[k].ev);
    StepAfter(s, ws[k], es[k].at, es[k].ev);
  }

  function NewRecs(w: Window, e: Event): seq<Record>
  {
    match e
    case Mark(m, arg) => if P.Verdict(w.memory, P.Mark(m, arg)) then [Marker(m, arg)] else []
    case Beat(seqNo, uptime) => [Heartbeat(seqNo, uptime)]
    case Ask => []
  }

  lemma BehindMore(s: Setup, w: Window, e: Timed, n: Window, from: nat)
    requires Continues(s, w, e, n) && from <= |w.stream|
    ensures from <= |n.stream| && Recs(n.stream[from..]) == Recs(w.stream[from..]) + NewRecs(w, e.ev)
  {
    RecsMore(w.stream, from, Grows(w, e.at, e.ev));
    assert Recs(Grows(w, e.at, e.ev)) == NewRecs(w, e.ev);
  }

  lemma SameRecs(rs: seq<Record>)
    ensures rs + [] == rs
  {
  }

  lemma MirroredStep(rs: seq<Record>, w: Window, es: seq<Timed>, j: nat, k: nat, ys: seq<P.Memory>, ps: seq<P.Event>,
                     i: nat, a: nat, b: nat, m: nat)
    requires |ys| == |ps| + 1 && i <= a <= b <= |ps| && j <= k < |es| && Mirrored(rs, es, j, k, ys, ps, i, a, m)
    requires ps[a..b] == (if es[k].ev.Mark? then [P.Mark(es[k].ev.marker, es[k].ev.arg)] else []) && ys[a] == w.memory
    ensures Mirrored(rs + NewRecs(w, es[k].ev), es, j, k + 1, ys, ps, i, b, m)
  {
    SameRecs(rs);
    match es[k].ev
    case Mark(n, arg) =>
      assert b == a + 1 && ps[a] == ps[a..b][0];
      MirroredMark(rs, rs + NewRecs(w, es[k].ev), es, j, k, ys, ps, i, a, m);
    case Beat(seqNo, uptime) => MirroredOther(rs, Heartbeat(seqNo, uptime), es, j, k, ys, ps, i, a, m);
    case Ask => MirroredOther(rs, Heartbeat(0, 0), es, j, k, ys, ps, i, a, m);
  }

  lemma MarksMore(ps: seq<P.Event>, start: nat, a: nat, b: nat, e: Event)
    requires P.OneWindow(ps, start, a) && a <= b <= |ps| && ps[a..b] == (if e.Mark? then [P.Mark(e.marker, e.arg)] else [])
    ensures P.OneWindow(ps, start, b)
  {
    forall q | start <= q < b ensures ps[q].Mark? { if q >= a { assert ps[q] == ps[a..b][q - a]; } }
  }

  lemma MirrorsStep(s: Setup, ws: seq<Window>, es: seq<Timed>, from: nat, i: nat, k: nat,
                    ys: seq<P.Memory>, ps: seq<P.Event>, at: seq<nat>, start: nat, m: nat)
    requires |ws| == |es| + 1 && |ys| == |ps| + 1 && i <= k < |es| && k + 1 < |at|
    requires Continues(s, ws[k], es[k], ws[k + 1]) && ProjectsAt(s, ws, es, ys, ps, at, k)
    requires Mirrors(ws, es, from, i, k, ys, ps, start, at[k], m)
    ensures Mirrors(ws, es, from, i, k + 1, ys, ps, start, at[k + 1], m)
  {
    BehindMore(s, ws[k], es[k], ws[k + 1], from);
    MirroredStep(Recs(ws[k].stream[from..]), ws[k], es, i, k, ys, ps, start, at[k], at[k + 1], m);
    MarksMore(ps, start, at[k], at[k + 1], es[k].ev);
  }

  lemma MirrorsAt(s: Setup, ws: seq<Window>, es: seq<Timed>, from: nat, i: nat, k: nat, n: nat,
                  ys: seq<P.Memory>, ps: seq<P.Event>, at: seq<nat>, m: nat)
    requires OpenSince(s, ws, es, i, n) && Projects(s, ws, es, n, ys, ps, at) && i < k < n
    requires Mirrors(ws, es, from, i, k, ys, ps, at[i] + 1, at[k], m)
    ensures Mirrors(ws, es, from, i, k + 1, ys, ps, at[i] + 1, at[k + 1], m)
  {
    assert ProjectsAt(s, ws, es, ys, ps, at, k);
    ContinuesAt(s, ws, es, i, k, n);
    MirrorsStep(s, ws, es, from, i, k, ys, ps, at, at[i] + 1, m);
  }

  lemma MirrorsFirst(s: Setup, ws: seq<Window>, es: seq<Timed>, from: nat, i: nat, n: nat,
                     ys: seq<P.Memory>, ps: seq<P.Event>, at: seq<nat>, m: nat)
    requires Projects(s, ws, es, n, ys, ps, at) && i < n && Begins(s, ws[i], es[i], ws[i + 1], from)
    ensures Mirrors(ws, es, from, i, i + 1, ys, ps, at[i] + 1, at[i + 1], m)
  {
    assert ProjectsAt(s, ws, es, ys, ps, at, i);
    MirrorsOpening(s, ws, es, from, i, ys, ps, at, m);
  }

  lemma {:induction false} MirrorsAlways(s: Setup, ws: seq<Window>, es: seq<Timed>, from: nat, i: nat, k: nat, n: nat,
                                         ys: seq<P.Memory>, ps: seq<P.Event>, at: seq<nat>, m: nat)
    requires OpenSince(s, ws, es, i, n) && Projects(s, ws, es, n, ys, ps, at) && i < k <= n
    requires Mirrors(ws, es, from, i, i + 1, ys, ps, at[i] + 1, at[i + 1], m)
    ensures Mirrors(ws, es, from, i, k, ys, ps, at[i] + 1, at[k], m)
    decreases k
  {
    if i + 1 < k {
      MirrorsAlways(s, ws, es, from, i, k - 1, n, ys, ps, at, m);
      MirrorsAt(s, ws, es, from, i, k - 1, n, ys, ps, at, m);
    }
  }

  // ------------------------------------------------------------------ what the decoder is told

  ghost function Reads(ds: seq<Decoded>): seq<Record> { seq(|ds|, i requires 0 <= i < |ds| => ds[i].rec) }

  /** The records that the dump at the `k`-th state decodes to, behind the TRIGGER record. */
  ghost function Told(s: Setup, ws: seq<Window>, es: seq<Timed>, i: nat, k: nat, free: nat): seq<Record>
    requires OpenSince(s, ws, es, i, k) && AllValid(ws[k].stream)
  {
    var ds, from := Decode(R.Dump(ws[k].stream, free)).recs, UpToTrigger(s, ws[i], es[i].at);
    if from <= |ds| then Reads(ds[from..]) else []
  }

  /** They are the stream's, and the TRIGGER record stands before them. */
  lemma ToldIs(s: Setup, ws: seq<Window>, es: seq<Timed>, i: nat, k: nat, free: nat)
    requires OpenSince(s, ws, es, i, k) && AliveTo(ws, es, k) && Windowed(s.provenance)
    ensures AllValid(ws[k].stream)
    ensures var d, from := Decode(R.Dump(ws[k].stream, free)), UpToTrigger(s, ws[i], es[i].at);
            && d.status.Clean? && 0 < from <= |d.recs| == |ws[k].stream| && d.recs[from - 1].rec.Trigger?
            && Told(s, ws, es, i, k, free) == Recs(ws[k].stream[from..])
  {
    TriggerStays(s, ws, es, i, k);
    RunDecodes(s, ws, es, k, free, 0);
  }

  lemma TriggerStays(s: Setup, ws: seq<Window>, es: seq<Timed>, i: nat, k: nat)
    requires OpenSince(s, ws, es, i, k)
    ensures var from := UpToTrigger(s, ws[i], es[i].at); 0 < from <= |ws[k].stream| && ws[k].stream[from - 1].rec.Trigger?
  {
    BeginsAt(s, ws, es, i, k);
    StreamGrows(s, ws, es, i + 1, k);
    var from := UpToTrigger(s, ws[i], es[i].at);
    assert ws[k].stream[from - 1] == ws[k].stream[..|ws[i + 1].stream|][from - 1];
  }

  /** Whatever the policy's run keeps since the trigger is what the decoder is told, marker by marker and path by path. */
  lemma ToldIsKept(s: Setup, ws: seq<Window>, es: seq<Timed>, i: nat, k: nat, m: nat, free: nat)
    returns (ys: seq<P.Memory>, ps: seq<P.Event>, start: nat)
    requires OpenSince(s, ws, es, i, k) && AliveTo(ws, es, k) && Windowed(s.provenance)
    ensures P.Run(ys, ps) && ys[0] == ws[0].memory && P.OneWindow(ps, start, |ps|)
    ensures AllValid(ws[k].stream) && Mirrored(Told(s, ws, es, i, k, free), es, i, k, ys, ps, start, |ps|, m)
  {
    var at;
    ys, ps, at := PolicyPart(s, ws, es, k);
    start := at[i] + 1;
    ToldIs(s, ws, es, i, k, free);
    BeginsAt(s, ws, es, i, k);
    MirrorsFirst(s, ws, es, UpToTrigger(s, ws[i], es[i].at), i, k, ys, ps, at, m);
    MirrorsAlways(s, ws, es, UpToTrigger(s, ws[i], es[i].at), i, k, k, ys, ps, at, m);
  }

  /**
   * A CHANGE marker in the decoded trace: from the TRIGGER record on, its values are those marked since the window
   * opened with adjacent duplicates removed.
   */
  lemma ChangesDecoded(s: Setup, ws: seq<Window>, es: seq<Timed>, i: nat, k: nat, m: nat, free: nat)
    requires OpenSince(s, ws, es, i, k) && AliveTo(ws, es, k) && Windowed(s.provenance)
    requires ws[0].memory.Ruled(m) && ws[0].memory.policy[m].Change?
    ensures AllValid(ws[k].stream) && Args(Told(s, ws, es, i, k, free), m) == P.Distinct(MarkedArgs(es, i, k, m))
  {
    var ys, ps, start := ToldIsKept(s, ws, es, i, k, m, free);
    P.ChangesRecorded(ys, ps, start, |ps|, m);
  }

  /**
   * A spin's path in the decoded trace: if its ENTRY and EXIT alternate since the window opened, so do their records,
   * every EXIT behind its own ENTRY; and at least one in SPIN_KEEP of its ENTRYs is there.
   */
  lemma SpinsDecoded(s: Setup, ws: seq<Window>, es: seq<Timed>, i: nat, k: nat, m: nat, free: nat)
    requires OpenSince(s, ws, es, i, k) && AliveTo(ws, es, k) && Windowed(s.provenance)
    requires ws[0].memory.Ruled(m + 1) && ws[0].memory.policy[m + 1].SpinExit?
    ensures AllValid(ws[k].stream)
    ensures P.Alternates(MarkedPath(es, i, k, m)) ==> P.Alternates(Path(Told(s, ws, es, i, k, free), m))
    ensures |MarkedArgs(es, i, k, m)| <= P.Times(|Args(Told(s, ws, es, i, k, free), m)|, ws[0].memory.spinKeep)
  {
    var ys, ps, start := ToldIsKept(s, ws, es, i, k, m, free);
    assert ys[0].policy[m + 1 - 1].SpinEntry?;
    P.SpinsAlternate(ys, ps, start, |ps|, m);
    P.SpinRate(ys, ps, start, |ps|, m);
  }

  /** A marker that is recorded every time, or that the table does not rule, is in the decoded trace with every mark since the window opened. */
  lemma EveryDecoded(s: Setup, ws: seq<Window>, es: seq<Timed>, i: nat, k: nat, m: nat, free: nat)
    requires OpenSince(s, ws, es, i, k) && AliveTo(ws, es, k) && Windowed(s.provenance)
    requires ws[0].memory.Ruled(m) ==> ws[0].memory.policy[m].Every?
    ensures AllValid(ws[k].stream) && Args(Told(s, ws, es, i, k, free), m) == MarkedArgs(es, i, k, m)
  {
    var ys, ps, start := ToldIsKept(s, ws, es, i, k, m, free);
    P.EveryRecorded(ys, ps, start, |ps|, m);
  }
}
