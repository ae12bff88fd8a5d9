/** Whole runs of the trace window, to the decoder: what the trigger saves, and what the dump decodes to. */
module WindowRuns {
  import opened Words
  import opened TraceFormat
  import opened TraceDecoder
  import opened WindowSpec
  import R = TraceRoundTrip
  import Q = PreTriggerSpec
  import P = RecordPolicy

  // ------------------------------------------------------------------ the invariant

  predicate Later(e: Entry) { e.rec.Valid() && !e.rec.Provenance? }

  /** A provenance, then no other; before the trigger nothing else. The ring is the end of its history. */
  ghost predicate Good(s: Setup, w: Window)
  {
    && w.memory.Sized() && w.filtered < U32 && w.lost < U32
    && w.stream != [] && w.stream[0].rec == s.provenance && (!w.triggered ==> |w.stream| == 1)
    && (forall i | 1 <= i < |w.stream| :: Later(w.stream[i]))
    && Q.AllRingable(w.history) && Q.Suffix(w.ring.All(), w.history)
  }

  /** Each record is less than half a turn of the 32-bit clock after the one before it. */
  predicate Close(es: seq<Entry>, i: nat)
    requires 0 < i < |es|
  {
    0 <= es[i].t - es[i - 1].t < 0x8000_0000
  }

  ghost predicate AllClose(es: seq<Entry>) { forall i | 0 < i < |es| :: Close(es, i) }

  ghost predicate Tight(w: Window)
    requires w.stream != []
  {
    AllClose(w.history) && AllClose(w.stream[1..])
  }

  /** The time of the last record of this window, if it has one behind its provenance. */
  function Last(w: Window): Option<nat>
  {
    if w.triggered then if |w.stream| > 1 then Some(w.stream[|w.stream| - 1].t) else None
    else if w.history != [] then Some(w.history[|w.history| - 1].t) else None
  }

  predicate Follows(w: Window, t: nat) { Last(w).Some? ==> 0 <= t - Last(w).value < 0x8000_0000 }

  /** The island is not silent: a heartbeat every 100 ms leaves no event 2^31 ns after the last record. */
  predicate Alive(w: Window, e: Timed) { e.ev.Ask? || (e.ev.Beat? && w.asked) || Follows(w, e.at) }

  // ------------------------------------------------------------------ one record

  lemma CloseMore(es: seq<Entry>, e: Entry)
    requires AllClose(es) && (es != [] ==> 0 <= e.t - es[|es| - 1].t < 0x8000_0000)
    ensures AllClose(es + [e])
  {
    forall i | 0 < i < |es| + 1 ensures Close(es + [e], i) { if i < |es| { assert Close(es, i); } }
  }

  lemma CloseFrom(es: seq<Entry>, from: nat)
    requires AllClose(es) && from <= |es|
    ensures AllClose(es[from..])
  {
    forall i | 0 < i < |es| - from ensures Close(es[from..], i) { assert Close(es, from + i); }
  }

  lemma PutSuffix(r: Q.Ring<Entry>, half: nat, e: Entry, history: seq<Entry>)
    requires Q.Suffix(r.All(), history)
    ensures Q.Suffix(PutEntry(r, half, e).All(), history + [e])
  {
    var p := PutEntry(r, half, e).All();
    assert r.All() + [e] == (history + [e])[|history| - |r.All()|..];
    if Size(r.current) + Length(e) > half {
      assert p == (history + [e])[|history| - |r.current|..];
    } else {
      assert p == r.All() + [e];
    }
  }

  lemma HeldGood(s: Setup, w: Window, e: Entry)
    requires Good(s, w) && Tight(w) && Q.Ringable(e) && Follows(w, e.t) && !w.triggered
    ensures var n := Put(s, w, e); Good(s, n) && Tight(n) && Last(n) == Some(e.t)
  {
    PutSuffix(w.ring, s.half, e, w.history);
    CloseMore(w.history, e);
    RingableMore(w.history, e);
    var n := Put(s, w, e);
    assert n.stream == w.stream && n.history == w.history + [e] && n.memory == w.memory;
  }

  lemma RingableMore(es: seq<Entry>, e: Entry)
    requires Q.AllRingable(es) && Q.Ringable(e)
    ensures Q.AllRingable(es + [e])
  {
  }

  lemma SentGood(s: Setup, w: Window, e: Entry)
    requires Good(s, w) && Tight(w) && Later(e) && Follows(w, e.t) && w.triggered
    ensures var n := Put(s, w, e); Good(s, n) && Tight(n) && Last(n) == Some(e.t)
  {
    var n := Put(s, w, e);
    assert n.stream[1..] == w.stream[1..] + [e];
    CloseMore(w.stream[1..], e);
  }

  lemma PutGood(s: Setup, w: Window, e: Entry)
    requires Good(s, w) && Tight(w) && Q.Ringable(e) && Follows(w, e.t)
    ensures var n := Put(s, w, e); Good(s, n) && Tight(n) && Last(n) == Some(e.t)
  {
    if w.triggered { SentGood(s, w, e); } else { HeldGood(s, w, e); }
  }

  // ------------------------------------------------------------------ the trigger

  /** The last `n` of `all`, and only they, are at most `pre` old at `t`. */
  ghost predicate ByAge(all: seq<Entry>, t: int, pre: nat, n: nat)
  {
    n <= |all| && forall i | 0 <= i < |all| :: t - all[i].t <= pre <==> i >= |all| - n
  }

  lemma RecentByAge(all: seq<Entry>, t: int, pre: nat)
    requires Q.Steady(all)
    ensures Q.Suffix(Q.Recent(all, t, pre), all) && ByAge(all, t, pre, |Q.Recent(all, t, pre)|)
  {
    if all != [] { Q.RecentExact(all, t, pre, 0); }
    forall i | 0 <= i < |all| ensures t - all[i].t <= pre <==> i >= |all| - |Q.Recent(all, t, pre)| { Q.RecentExact(all, t, pre, i); }
  }

  lemma RingSteady(all: seq<Entry>, history: seq<Entry>, t: int)
    requires Q.Suffix(all, history) && AllClose(history) && (history != [] ==> 0 <= t - history[|history| - 1].t < 0x8000_0000)
    ensures Q.SteadyTo(all, t)
  {
    CloseFrom(history, |history| - |all|);
    forall i | 0 < i < |all| ensures Q.Near(all, i) { assert Close(all, i); }
    if all != [] { assert all[|all| - 1] == history[|history| - 1]; }
  }

  /** What is kept is exactly what is recent, and the end of the history. */
  ghost predicate Saved(w: Window, t: nat, pre: nat, es: seq<Entry>)
  {
    es == Q.Recent(w.ring.All(), t, pre) && ByAge(w.ring.All(), t, pre, |es|) && Q.Suffix(es, w.history)
  }

  lemma KeptIsRecent(s: Setup, w: Window, t: nat)
    requires Good(s, w) && Tight(w) && !w.triggered && Follows(w, t)
    ensures Saved(w, t, s.Pre(), Q.Kept(w.ring, Stamp(t), s.Pre()))
  {
    var all := w.ring.All();
    RingSteady(all, w.history, t);
    Q.FlushIsRecent(w.ring, t, s.Pre());
    RecentByAge(all, t, s.Pre());
    SuffixOfSuffix(Q.Recent(all, t, s.Pre()), all, w.history);
  }

  lemma SuffixOfSuffix(a: seq<Entry>, b: seq<Entry>, c: seq<Entry>)
    requires Q.Suffix(a, b) && Q.Suffix(b, c)
    ensures Q.Suffix(a, c)
  {
    assert c[|c| - |b|..][|b| - |a|..] == c[|c| - |a|..];
  }

  /** The window with `es` and the trigger record behind its provenance. */
  function Opened(s: Setup, w: Window, t: nat, m: nat, es: seq<Entry>): Window
  {
    w.(triggered := true, lost := Missing(w, |es|), memory := P.Step(w.memory, P.Fired),
       stream := w.stream + es + [Entry(t, TriggerRecord(s, w, m, |es|))])
  }

  lemma OpenedGood(s: Setup, w: Window, t: nat, m: nat, es: seq<Entry>)
    requires s.Valid() && Good(s, w) && Tight(w) && !w.triggered && Follows(w, t) && m < U16 && Q.Suffix(es, w.history)
    ensures var n := Opened(s, w, t, m, es); Good(s, n) && Tight(n) && n.triggered && Last(n) == Some(t)
  {
    var n, e := Opened(s, w, t, m, es), Entry(t, TriggerRecord(s, w, m, |es|));
    P.StepKeeps(w.memory, P.Fired);
    assert n.stream[1..] == es + [e] && n.stream[0] == w.stream[0];
    TailClose(w.history, es, e);
    forall i | 1 <= i < |n.stream| ensures Later(n.stream[i]) { FiredLater(w, es, e, n.stream, i); }
  }

  lemma TailClose(history: seq<Entry>, es: seq<Entry>, e: Entry)
    requires AllClose(history) && Q.Suffix(es, history) && (history != [] ==> 0 <= e.t - history[|history| - 1].t < 0x8000_0000)
    ensures AllClose(es + [e])
  {
    CloseFrom(history, |history| - |es|);
    if es != [] { assert es[|es| - 1] == history[|history| - 1]; }
    CloseMore(es, e);
  }

  lemma FireGood(s: Setup, w: Window, t: nat, m: nat)
    requires s.Valid() && Good(s, w) && Tight(w) && !w.triggered && Follows(w, t) && m < U16
    ensures var n := Fire(s, w, t, m); Good(s, n) && Tight(n) && n.triggered && Last(n) == Some(t)
  {
    KeptIsRecent(s, w, t);
    OpenedGood(s, w, t, m, Q.Kept(w.ring, Stamp(t), s.Pre()));
  }

  lemma FiredLater(w: Window, es: seq<Entry>, e: Entry, stream: seq<Entry>, i: nat)
    requires Q.AllRingable(w.history) && Q.Suffix(es, w.history) && Later(e)
    requires 1 <= i < |stream| && stream[1..] == es + [e]
    ensures Later(stream[i])
  {
    assert stream[i] == stream[1..][i - 1];
    if i - 1 < |es| { assert es[i - 1] == w.history[|w.history| - |es| + i - 1] && Q.Ringable(es[i - 1]); }
  }

  lemma WatchGood(s: Setup, w: Window, t: nat, m: nat, arg: nat)
    requires s.Valid() && Good(s, w) && Tight(w) && Follows(w, t) && m < U16
    ensures var n := Watch(s, w, t, m, arg); Good(s, n) && Tight(n) && Follows(n, t)
  {
    var v := w.(armed := w.armed || (!w.triggered && Arms(s.ids, m, arg)));
    assert Good(s, v) && Tight(v) && Last(v) == Last(w);
    if Fires(s, w, m, arg) { FireGood(s, v, t, m); }
  }

  lemma JudgeGood(s: Setup, w: Window, t: nat, m: nat, arg: nat)
    requires Good(s, w) && Tight(w) && Follows(w, t) && m < U16 && arg < U32
    ensures var n := Judge(s, w, t, m, arg); Good(s, n) && Tight(n)
  {
    var v := w.(memory := P.Step(w.memory, P.Mark(m, arg)));
    P.StepKeeps(w.memory, P.Mark(m, arg));
    assert Good(s, v) && Tight(v) && Last(v) == Last(w);
    if P.Verdict(w.memory, P.Mark(m, arg)) { PutGood(s, v, Entry(t, Marker(m, arg))); }
  }

  lemma BeatGood(s: Setup, w: Window, t: nat, seqNo: nat, uptime: nat)
    requires s.Valid() && Good(s, w) && Tight(w) && (w.asked || Follows(w, t)) && seqNo < U32 && uptime < U32
    ensures var n := Beaten(s, w, t, seqNo, uptime); Good(s, n) && Tight(n)
  {
    if w.asked {
      RearmedGood(s, w, t);
      PutGood(s, Rearmed(s, w, t), Entry(t, Heartbeat(seqNo, uptime)));
    } else {
      PutGood(s, w, Entry(t, Heartbeat(seqNo, uptime)));
    }
  }

  lemma RearmedGood(s: Setup, w: Window, t: nat)
    requires s.Valid() && w.memory.Sized()
    ensures var v := Rearmed(s, w, t); Good(s, v) && Tight(v) && Last(v).None?
  {
    P.StepKeeps(w.memory, P.Rearmed);
    assert Rearmed(s, w, t).ring.All() == [];
  }

  lemma NextGood(s: Setup, w: Window, e: Timed)
    requires s.Valid() && Good(s, w) && Tight(w) && Alive(w, e) && Fits(e.ev)
    ensures var n := Next(s, w, e.at, e.ev); Good(s, n) && Tight(n)
  {
    match e.ev
    case Mark(m, arg) =>
      WatchGood(s, w, e.at, m, arg);
      JudgeGood(s, Watch(s, w, e.at, m, arg), e.at, m, arg);
    case Beat(seqNo, uptime) => BeatGood(s, w, e.at, seqNo, uptime);
    case Ask => assert Good(s, w.(asked := true));
  }

  // ------------------------------------------------------------------ every run

  ghost predicate AliveTo(ws: seq<Window>, es: seq<Timed>, k: nat)
    requires |ws| == |es| + 1 && k <= |es|
  {
    forall i | 0 <= i < k :: Alive(ws[i], es[i])
  }

  lemma BootGood(s: Setup, memory: P.Memory, t: nat)
    requires s.Valid() && memory.Sized()
    ensures Good(s, Boot(s, memory, t)) && Tight(Boot(s, memory, t))
  {
    assert Boot(s, memory, t).ring.All() == [];
  }

  lemma {:induction false} RunGood(s: Setup, ws: seq<Window>, es: seq<Timed>, k: nat)
    requires Run(s, ws, es) && k <= |es| && AliveTo(ws, es, k)
    ensures Good(s, ws[k]) && Tight(ws[k])
  {
    if k == 0 {
      var memory: P.Memory, t: nat :| P.Initial(memory) && ws[0] == Boot(s, memory, t);
      BootGood(s, memory, t);
    } else {
      RunGood(s, ws, es, k - 1);
      assert StepAt(s, ws, es, k - 1);
      NextGood(s, ws[k - 1], es[k - 1]);
    }
  }

  /**
   * From `w`, whose stream is its provenance alone, the event saves in `n` exactly the ring's records at most
   * pre_ms old, which end the history, then the trigger record and the opening marker if the policy keeps it.
   */
  ghost predicate Saves(s: Setup, w: Window, e: Timed, n: Window)
  {
    var recent := Q.Recent(w.ring.All(), e.at, s.Pre());
    && e.ev.Mark? && |w.stream| == 1
    && ByAge(w.ring.All(), e.at, s.Pre(), |recent|) && Q.Suffix(recent, w.history)
    && n.stream == w.stream + recent + Announced(s, w, e.at, e.ev.marker, e.ev.arg, |recent|)
    && Trunc32(|recent| + n.lost) == Trunc32(|w.history|)
  }

  /** What the trigger saves, in every run. */
  lemma TriggerSaves(s: Setup, ws: seq<Window>, es: seq<Timed>, k: nat)
    requires Run(s, ws, es) && k < |es| && AliveTo(ws, es, k + 1) && !ws[k].triggered && ws[k + 1].triggered
    ensures Saves(s, ws[k], es[k], ws[k + 1])
  {
    RunGood(s, ws, es, k);
    assert StepAt(s, ws, es, k) && Alive(ws[k], es[k]);
    OpeningSaves(s, ws[k], es[k]);
  }

  lemma OpeningSaves(s: Setup, w: Window, e: Timed)
    requires Good(s, w) && Tight(w) && Alive(w, e) && !w.triggered && Next(s, w, e.at, e.ev).triggered
    ensures Saves(s, w, e, Next(s, w, e.at, e.ev))
  {
    OnlyMarksOpen(s, w, e);
    KeptIsRecent(s, w, e.at);
    MarkOpens(s, w, e.at, e.ev.marker, e.ev.arg, Q.Kept(w.ring, Stamp(e.at), s.Pre()));
    SavesKept(s, w, e, Next(s, w, e.at, e.ev), Q.Kept(w.ring, Stamp(e.at), s.Pre()));
  }

  lemma SavesKept(s: Setup, w: Window, e: Timed, n: Window, es: seq<Entry>)
    requires e.ev.Mark? && |w.stream| == 1 && Saved(w, e.at, s.Pre(), es)
    requires n.stream == w.stream + es + Announced(s, w, e.at, e.ev.marker, e.ev.arg, |es|)
    requires n.lost == Missing(w, |es|)
    ensures Saves(s, w, e, n)
  {
    MissingCounts(|w.history|, |es|);
  }

  /** The trigger record, and the opening marker if the fresh policy keeps it. */
  function Announced(s: Setup, w: Window, t: nat, m: nat, arg: nat, kept: nat): seq<Entry>
  {
    [Entry(t, TriggerRecord(s, w, m, kept))] + FirstMark(w, t, m, arg)
  }

  function FirstMark(w: Window, t: nat, m: nat, arg: nat): seq<Entry>
  {
    if P.Verdict(P.Step(w.memory, P.Fired), P.Mark(m, arg)) then [Entry(t, Marker(m, arg))] else []
  }

  lemma OnlyMarksOpen(s: Setup, w: Window, e: Timed)
    requires !w.triggered && Next(s, w, e.at, e.ev).triggered
    ensures e.ev.Mark? && Fires(s, w, e.ev.marker, e.ev.arg)
  {
  }

  lemma MarkOpens(s: Setup, w: Window, t: nat, m: nat, arg: nat, es: seq<Entry>)
    requires Fires(s, w, m, arg) && es == Q.Kept(w.ring, Stamp(t), s.Pre())
    ensures var n := Marked(s, w, t, m, arg);
            n.stream == w.stream + es + Announced(s, w, t, m, arg, |es|) && n.lost == Missing(w, |es|)
  {
    var o := Opened(s, w.(armed := w.armed || Arms(s.ids, m, arg)), t, m, es);
    WatchOpens(s, w, t, m, arg, es);
    OpenedIs(s, w, w.armed || Arms(s.ids, m, arg), t, m, es);
    JudgeOpened(s, o, t, m, arg);
    Regroup(w.stream + es, [Entry(t, TriggerRecord(s, w, m, |es|))], FirstMark(w, t, m, arg));
  }

  lemma OpenedIs(s: Setup, w: Window, armed: bool, t: nat, m: nat, es: seq<Entry>)
    ensures var o := Opened(s, w.(armed := armed), t, m, es);
            && o.stream == w.stream + es + [Entry(t, TriggerRecord(s, w, m, |es|))]
            && o.lost == Missing(w, |es|) && o.memory == P.Step(w.memory, P.Fired) && o.triggered
  {
  }

  lemma WatchOpens(s: Setup, w: Window, t: nat, m: nat, arg: nat, es: seq<Entry>)
    requires Fires(s, w, m, arg) && es == Q.Kept(w.ring, Stamp(t), s.Pre())
    ensures Watch(s, w, t, m, arg) == Opened(s, w.(armed := w.armed || Arms(s.ids, m, arg)), t, m, es)
  {
  }

  lemma Regroup(a: seq<Entry>, b: seq<Entry>, c: seq<Entry>)
    ensures (a + b) + c == a + (b + c)
  {
  }

  lemma JudgeOpened(s: Setup, o: Window, t: nat, m: nat, arg: nat)
    requires o.triggered
    ensures var n := Judge(s, o, t, m, arg);
            n.lost == o.lost && n.stream == o.stream + if P.Verdict(o.memory, P.Mark(m, arg)) then [Entry(t, Marker(m, arg))] else []
  {
  }

  lemma MissingCounts(n: nat, kept: nat)
    ensures Trunc32(kept + Trunc32(Trunc32(n) - kept)) == Trunc32(n)
  {
    var q := (Trunc32(n) - kept) / U32;
    assert kept + Trunc32(Trunc32(n) - kept) == Trunc32(n) + (-q) * U32;
    ModShift(Trunc32(n), -q);
  }

  /** Until a re-arm the stream only grows. */
  lemma {:induction false} StreamGrows(s: Setup, ws: seq<Window>, es: seq<Timed>, j: nat, k: nat)
    requires Run(s, ws, es) && j <= k <= |es| && ws[j].triggered
    requires forall i | j <= i < k :: !(es[i].ev.Beat? && ws[i].asked)
    ensures ws[k].triggered && |ws[j].stream| <= |ws[k].stream| && ws[k].stream[..|ws[j].stream|] == ws[j].stream
    decreases k
  {
    if j < k {
      StreamGrows(s, ws, es, j, k - 1);
      assert StepAt(s, ws, es, k - 1);
      OneGrows(s, ws[k - 1], es[k - 1]);
    }
  }

  lemma OneGrows(s: Setup, w: Window, e: Timed)
    requires w.triggered && !(e.ev.Beat? && w.asked)
    ensures var n := Next(s, w, e.at, e.ev);
            n.triggered && |w.stream| <= |n.stream| && n.stream[..|w.stream|] == w.stream
  {
  }

  // ------------------------------------------------------------------ and the decoder

  /** A stream the decoder inverts. */
  lemma GoodStream(s: Setup, w: Window)
    requires s.Valid() && Windowed(s.provenance) && Good(s, w) && Tight(w)
    ensures AllValid(w.stream) && R.Steady(w.stream) && R.LastSegment(w.stream, 1)
  {
    forall i | 0 <= i < |w.stream| ensures w.stream[i].rec.Valid() { if i > 0 { assert Later(w.stream[i]); } }
    forall i | 0 < i < |w.stream| ensures R.Near(w.stream, i) {
      if i > 1 { assert Close(w.stream[1..], i - 1); }
    }
    forall i | 1 <= i < |w.stream| ensures !Windowed(w.stream[i].rec) { assert Later(w.stream[i]); }
  }

  /** The records come out, every one and nothing else, whatever the clocks. */
  lemma RecordsBack(es: seq<Entry>, free: nat, i: nat)
    requires AllValid(es) && R.Steady(es) && i < |es|
    ensures var d := Decode(R.Dump(es, free));
            d.status.Clean? && d.used == |EncodeAll(es)| && |d.recs| == |es| && d.recs[i].rec == es[i].rec
  {
    R.RoundTrip(es, free);
    R.DifferencesExact(es, free, i, i);
  }

  /**
   * In every state of every run of a window that is never silent for 2^31 ns, the dump of what it wrote
   * decodes, cleanly, to exactly the records written, in order; and from the second one on to their true
   * times iff the first heartbeat `h` among them reads an uptime within half a turn of its true time.
   */
  lemma RunDecodes(s: Setup, ws: seq<Window>, es: seq<Timed>, k: nat, free: nat, h: nat)
    requires Run(s, ws, es) && k <= |es| && AliveTo(ws, es, k) && Windowed(s.provenance)
    ensures AllValid(ws[k].stream)
    ensures var d := Decode(R.Dump(ws[k].stream, free));
            && d.status.Clean? && |d.recs| == |ws[k].stream|
            && (forall i | 0 <= i < |d.recs| :: d.recs[i].rec == ws[k].stream[i].rec)
            && (R.FirstBeat(ws[k].stream, 1, h) ==>
                  (R.TrueFrom(d.recs, ws[k].stream, 1) <==>
                     R.NamesTurn(ws[k].stream[h].rec.uptime * 1_000_000 - ws[k].stream[h].t, ws[k].stream[1].t / U32)))
  {
    var st := ws[k].stream;
    RunGood(s, ws, es, k);
    GoodStream(s, ws[k]);
    RecordsBack(st, free, 0);
    var d := Decode(R.Dump(st, free));
    forall i | 0 <= i < |d.recs| ensures d.recs[i].rec == st[i].rec { RecordsBack(st, free, i); }
    if R.FirstBeat(st, 1, h) { R.AnchorExact(st, free, 1, h); }
  }
}
