/** Decoding inverts encoding: every record, every time difference, and the anchored segment's true times. */
module TraceRoundTrip {
  import opened Words
  import opened TraceFormat
  import opened TraceDecoder

  // ------------------------------------------------------------------ one record

  lemma MarkerBack(buf: seq<Byte>, p: nat, r: Record)
    requires r.Valid() && r.Marker? && Holds(buf, p, r.Payload()) && p + 16 <= |buf|
    ensures BodyAt(buf, EV_MARKER, p) == r
  {
    HoldsBoth(buf, p, Bytes16(r.marker), Bytes32(r.arg));
    ReadBack16(buf, p, r.marker);
    ReadBack32(buf, p + 2, r.arg);
  }

  lemma HeartbeatBack(buf: seq<Byte>, p: nat, r: Record)
    requires r.Valid() && r.Heartbeat? && Holds(buf, p, r.Payload()) && p + 16 <= |buf|
    ensures BodyAt(buf, EV_HEARTBEAT, p) == r
  {
    HoldsBoth(buf, p, Bytes32(r.seqNo), Bytes32(r.uptime));
    ReadBack32(buf, p, r.seqNo);
    ReadBack32(buf, p + 4, r.uptime);
  }

  lemma ProvenanceBack(buf: seq<Byte>, p: nat, r: Record)
    requires r.Valid() && r.Provenance? && Holds(buf, p, r.Payload()) && p + 16 <= |buf|
    ensures BodyAt(buf, EV_PROVENANCE, p) == r && BodyLength(buf, EV_PROVENANCE, p) == r.PayloadLength()
  {
    HoldsBoth(buf, p, Bytes16(|r.text|), r.text);
    ReadBack16(buf, p, |r.text|);
  }

  lemma TriggerBack(buf: seq<Byte>, p: nat, r: Record)
    requires r.Valid() && r.Trigger? && Holds(buf, p, r.Payload()) && p + 16 <= |buf|
    ensures BodyAt(buf, EV_TRIGGER, p) == r
  {
    var a := Bytes16(r.cause) + Bytes16(r.preMs);
    var b := a + Bytes16(r.kept);
    var c := b + Bytes16(r.spinKeep);
    var d := c + Bytes32(r.lost);
    HoldsBoth(buf, p, d, Bytes32(r.filtered));
    HoldsBoth(buf, p, c, Bytes32(r.lost));
    HoldsBoth(buf, p, b, Bytes16(r.spinKeep));
    HoldsBoth(buf, p, a, Bytes16(r.kept));
    HoldsBoth(buf, p, Bytes16(r.cause), Bytes16(r.preMs));
    ReadBack16(buf, p, r.cause);
    ReadBack16(buf, p + 2, r.preMs);
    ReadBack16(buf, p + 4, r.kept);
    ReadBack16(buf, p + 6, r.spinKeep);
    ReadBack32(buf, p + 8, r.lost);
    ReadBack32(buf, p + 12, r.filtered);
  }

  lemma BodyBack(buf: seq<Byte>, p: nat, r: Record)
    requires r.Valid() && Holds(buf, p, r.Payload()) && p + 16 <= |buf|
    ensures BodyAt(buf, r.Id(), p) == r && BodyLength(buf, r.Id(), p) == r.PayloadLength()
  {
    match r
    case Marker(_, _) => MarkerBack(buf, p, r);
    case Heartbeat(_, _) => HeartbeatBack(buf, p, r);
    case Provenance(_) => ProvenanceBack(buf, p, r);
    case Trigger(_, _, _, _, _, _) => TriggerBack(buf, p, r);
  }

  lemma HeaderBack(buf: seq<Byte>, pos: nat, e: Entry)
    requires e.rec.Valid() && Holds(buf, pos, Encode(e))
    ensures MoreAt(buf, pos) && IdAt(buf, pos) == e.rec.Id() && Read32(buf, pos) == Stamp(e.t)
    ensures Holds(buf, pos + HEADER, e.rec.Payload())
  {
    HoldsBoth(buf, pos, Header(e), e.rec.Payload());
    HoldsBoth(buf, pos, Bytes32(Stamp(e.t)), Bytes16(e.rec.Id()));
    ReadBack32(buf, pos, Stamp(e.t));
    ReadBack16(buf, pos + 4, e.rec.Id());
  }

  lemma ReadingBack(buf: seq<Byte>, pos: nat, e: Entry, last: Option<Last>)
    requires Padded(buf) && e.rec.Valid() && Holds(buf, pos, Encode(e))
    ensures var t := Unwrap(last, Stamp(e.t));
            Readable(buf, pos)
            && ReadAt(buf, pos, last) == Reading(Decoded(t, e.rec), pos + |Encode(e)|, NextLast(e.rec, Stamp(e.t), t))
  {
    HeaderBack(buf, pos, e);
    StartsInside(buf, pos);
    BodyBack(buf, pos + HEADER, e.rec);
  }

  // ------------------------------------------------------------------ times

  /** Where the segment of record `i` starts: at 0, or behind the last windowed provenance. */
  function Segment(es: seq<Entry>, i: nat): (s: nat)
    requires i < |es|
    ensures s <= i
  {
    if i == 0 || Windowed(es[i - 1].rec) then i else Segment(es, i - 1)
  }

  /** The whole turns of the 32-bit clock at the start of `i`'s segment. */
  function TurnsBefore(es: seq<Entry>, i: nat): nat
    requires i < |es|
  {
    es[Segment(es, i)].t / U32
  }

  /** The decoder's time axis: true time, less the whole turns before its segment. */
  function Axis(es: seq<Entry>, i: nat): int
    requires i < |es|
  {
    es[i].t - TurnsBefore(es, i) * U32
  }

  /** Record `i` is less than half a turn from the record before it, either way, or starts a segment. */
  predicate Near(es: seq<Entry>, i: nat)
    requires 0 < i < |es|
  {
    Windowed(es[i - 1].rec) || -0x8000_0000 <= es[i].t - es[i - 1].t < 0x8000_0000
  }

  ghost predicate Steady(es: seq<Entry>) { forall i | 0 < i < |es| :: Near(es, i) }

  function LastAt(es: seq<Entry>, k: nat): Option<Last>
    requires k <= |es|
  {
    if k == 0 || Windowed(es[k - 1].rec) then None else Some(Last(Stamp(es[k - 1].t), Axis(es, k - 1)))
  }

  lemma SignedDiffBack(a: int, b: int)
    requires -0x8000_0000 <= a - b < 0x8000_0000
    ensures SignedDiff(Stamp(a), Stamp(b)) == a - b
  {
    TruncDiff(a, b);
    if a < b { ModShift(a - b, 1); }
  }

  lemma UnwrapBack(es: seq<Entry>, k: nat)
    requires Steady(es) && k < |es|
    ensures Unwrap(LastAt(es, k), Stamp(es[k].t)) == Axis(es, k)
  {
    if LastAt(es, k).Some? {
      assert Near(es, k);
      SignedDiffBack(es[k].t, es[k - 1].t);
    }
  }

  // ------------------------------------------------------------------ the stream

  /** Where record `k` starts. */
  function Offset(es: seq<Entry>, k: nat): nat
    requires k <= |es|
  {
    if k == 0 then 0 else Offset(es, k - 1) + HEADER + es[k - 1].rec.PayloadLength()
  }

  lemma {:induction false} OffsetOf(es: seq<Entry>, fs: seq<seq<Byte>>, k: nat)
    requires |fs| == |es| && k <= |es|
    requires forall i | 0 <= i < |es| :: |fs[i]| == HEADER + es[i].rec.PayloadLength()
    ensures Offset(es, k) == StartOf(fs, k)
  {
    if k > 0 {
      OffsetOf(es, fs, k - 1);
      ConcatNext(fs, k - 1);
    }
  }

  lemma OffsetIs(es: seq<Entry>, k: nat)
    requires AllValid(es) && k <= |es|
    ensures Offset(es, k) == StartOf(Frames(es), k)
    ensures k == |es| ==> Offset(es, k) == |EncodeAll(es)|
  {
    FrameLengths(es);
    OffsetOf(es, Frames(es), k);
    if k == |es| { assert Frames(es)[..k] == Frames(es); }
  }

  lemma HoldsRecord(buf: seq<Byte>, es: seq<Entry>, k: nat)
    requires AllValid(es) && k < |es| && Holds(buf, 0, EncodeAll(es))
    ensures Holds(buf, Offset(es, k), Encode(es[k]))
  {
    OffsetIs(es, k);
    ConcatAt(Frames(es), k);
    HoldsWithin(buf, EncodeAll(es), Offset(es, k), Encode(es[k]));
  }

  /** The records from `k` on, on the decoder's axis. */
  function Image(es: seq<Entry>, k: nat): seq<Decoded>
    requires k <= |es|
  {
    seq(|es| - k, i requires 0 <= i < |es| - k => Decoded(Axis(es, k + i), es[k + i].rec))
  }

  lemma ImageStep(es: seq<Entry>, k: nat)
    requires k < |es|
    ensures Image(es, k) == [Decoded(Axis(es, k), es[k].rec)] + Image(es, k + 1)
  {
  }

  lemma LastStep(es: seq<Entry>, k: nat)
    requires k < |es|
    ensures LastAt(es, k + 1) == NextLast(es[k].rec, Stamp(es[k].t), Axis(es, k))
  {
  }

  /** Stopped where the stream ends. */
  lemma ParseEnd(buf: seq<Byte>, pos: nat, last: Option<Last>)
    requires Padded(buf) && !MoreAt(buf, pos)
    ensures ParseFrom(buf, pos, last) == Parsed([], pos, Clean)
  {
  }

  lemma ThenImage(es: seq<Entry>, k: nat, used: nat)
    requires k < |es|
    ensures Then(Decoded(Axis(es, k), es[k].rec), Parsed(Image(es, k + 1), used, Clean)) == Parsed(Image(es, k), used, Clean)
  {
    ImageStep(es, k);
  }

  ghost function FromRecord(buf: seq<Byte>, es: seq<Entry>, k: nat): Parsed
    requires Padded(buf) && k <= |es|
  {
    ParseFrom(buf, Offset(es, k), LastAt(es, k))
  }

  /** What is parsed from record `i` on is record `i` and what is parsed from the next one on. */
  ghost predicate Link(buf: seq<Byte>, es: seq<Entry>, i: nat)
    requires Padded(buf) && i < |es|
  {
    FromRecord(buf, es, i) == Then(Decoded(Axis(es, i), es[i].rec), FromRecord(buf, es, i + 1))
  }

  lemma {:induction false} ParseBack(buf: seq<Byte>, es: seq<Entry>, k: nat, used: nat)
    requires Padded(buf) && k <= |es| && (forall i | 0 <= i < |es| :: Link(buf, es, i))
    requires FromRecord(buf, es, |es|) == Parsed([], used, Clean)
    ensures FromRecord(buf, es, k) == Parsed(Image(es, k), used, Clean)
    decreases |es| - k
  {
    if k < |es| {
      ParseBack(buf, es, k + 1, used);
      assert Link(buf, es, k);
      ThenImage(es, k, used);
    }
  }

  lemma OneBackAt(buf: seq<Byte>, es: seq<Entry>, k: nat)
    requires Padded(buf) && AllValid(es) && Steady(es) && k < |es| && Holds(buf, 0, EncodeAll(es))
    ensures Link(buf, es, k)
  {
    HoldsRecord(buf, es, k);
    OneBack(buf, es, k);
  }

  lemma OneBack(buf: seq<Byte>, es: seq<Entry>, k: nat)
    requires Padded(buf) && AllValid(es) && Steady(es) && k < |es|
    requires Holds(buf, Offset(es, k), Encode(es[k]))
    ensures Link(buf, es, k)
  {
    var pos, last := Offset(es, k), LastAt(es, k);
    UnwrapBack(es, k);
    LastStep(es, k);
    ReadingBack(buf, pos, es[k], last);
    ParseStep(buf, pos, last, Reading(Decoded(Axis(es, k), es[k].rec), Offset(es, k + 1), LastAt(es, k + 1)));
  }

  // ------------------------------------------------------------------ the trimmed dump

  /** What the dump keeps of the buffer: up to the last byte that is not zero. */
  function Trim(b: seq<Byte>): seq<Byte>
  {
    if b == [] || b[|b| - 1] != 0 then b else Trim(b[..|b| - 1])
  }

  lemma {:induction false} Trimmed(b: seq<Byte>)
    ensures |Trim(b)| <= |b| && Trim(b) == b[..|Trim(b)|]
    ensures forall i | |Trim(b)| <= i < |b| :: b[i] == 0
  {
    if b != [] && b[|b| - 1] == 0 {
      Trimmed(b[..|b| - 1]);
      assert b[..|b| - 1][..|Trim(b)|] == b[..|Trim(b)|];
    }
  }

  /** A record ends in at most sixteen zeros. */
  lemma EndsSoon(e: Entry) returns (i: nat)
    requires e.rec.Valid()
    ensures i < |Encode(e)| <= i + 17 && Encode(e)[i] != 0
  {
    if e.rec.Provenance? && e.rec.text != [] {
      i := |Encode(e)| - 1;
      assert Encode(e)[i] == e.rec.text[|e.rec.text| - 1];
    } else {
      i := 5;
      assert Encode(e)[5] == Bytes16(e.rec.Id())[1];
    }
  }

  lemma TrimKeeps(b: seq<Byte>, i: nat)
    requires i < |b| && b[i] != 0
    ensures i < |Trim(b)|
  {
    Trimmed(b);
  }

  /** The trim takes at most sixteen bytes of the last record. */
  lemma TrimTakesLittle(es: seq<Entry>, free: nat)
    requires AllValid(es)
    ensures |Trim(EncodeAll(es) + Zeros(free))| + 16 >= |EncodeAll(es)|
  {
    if es != [] {
      var all, n := EncodeAll(es), |es| - 1;
      var i := EndsSoon(es[n]);
      var at := StartOf(Frames(es), n) + i;
      ConcatNext(Frames(es), n);
      assert Frames(es)[..|es|] == Frames(es);
      assert all[at] == Encode(es[n])[i];
      TrimKeeps(all + Zeros(free), at);
    }
  }

  /** The padding restores what the trim took, and more than a header beyond. */
  lemma PadRestores(es: seq<Entry>, free: nat)
    requires AllValid(es)
    ensures var buf := Trim(EncodeAll(es) + Zeros(free)) + Zeros(PAD);
            Padded(buf) && Holds(buf, 0, EncodeAll(es)) && !MoreAt(buf, |EncodeAll(es)|)
  {
    var all := EncodeAll(es);
    var raw := all + Zeros(free);
    TrimTakesLittle(es, free);
    Trimmed(raw);
    BytesOf(Trim(raw), raw, |all| + HEADER);
    ZerosAfter(Trim(raw) + Zeros(PAD), raw, all);
  }

  lemma ZerosAfter(buf: seq<Byte>, raw: seq<Byte>, all: seq<Byte>)
    requires |all| <= |raw| && raw[..|all|] == all && |all| + HEADER <= |buf|
    requires forall i | |all| <= i < |raw| :: raw[i] == 0
    requires forall i | 0 <= i < |all| + HEADER :: buf[i] == if i < |raw| then raw[i] else 0
    ensures Holds(buf, 0, all) && !MoreAt(buf, |all|)
  {
    assert forall i | 0 <= i < |all| :: buf[i] == raw[i] == all[i];
    assert buf[0..|all|] == all;
    assert buf[|all| + 4] == 0 && buf[|all| + 5] == 0;
  }

  lemma BytesOf(kept: seq<Byte>, raw: seq<Byte>, n: nat)
    requires |kept| <= |raw| && kept == raw[..|kept|] && n <= |kept| + PAD
    requires forall i | |kept| <= i < |raw| :: raw[i] == 0
    ensures var buf := kept + Zeros(PAD);
            Padded(buf) && forall i | 0 <= i < n :: buf[i] == if i < |raw| then raw[i] else 0
  {
    var buf := kept + Zeros(PAD);
    assert forall i | |kept| <= i < |buf| :: buf[i] == Zeros(PAD)[i - |kept|];
  }

  /** The trace as the dump holds it. */
  function Dump(es: seq<Entry>, free: nat): seq<Byte>
    requires AllValid(es)
  {
    Trim(EncodeAll(es) + Zeros(free))
  }

  /**
   * Decoding the trimmed dump of any stream whose consecutive stamps of a segment are less than 2^31 ns
   * apart gives back every record, in order, and nothing else; its time is the true time up to the whole
   * turns of the clock before its segment, so every difference within a segment is exact.
   */
  lemma RoundTrip(es: seq<Entry>, free: nat)
    requires AllValid(es) && Steady(es)
    ensures Decode(Dump(es, free)) == Parsed(Anchor(Image(es, 0)), |EncodeAll(es)|, Clean)
  {
    PadRestores(es, free);
    var buf, used := Dump(es, free) + Zeros(PAD), |EncodeAll(es)|;
    forall i | 0 <= i < |es| ensures Link(buf, es, i) { OneBackAt(buf, es, i); }
    EndBack(buf, es);
    ParseBack(buf, es, 0, used);
  }

  lemma EndBack(buf: seq<Byte>, es: seq<Entry>)
    requires Padded(buf) && AllValid(es) && !MoreAt(buf, |EncodeAll(es)|)
    ensures FromRecord(buf, es, |es|) == Parsed([], |EncodeAll(es)|, Clean)
  {
    OffsetIs(es, |es|);
    ParseEnd(buf, |EncodeAll(es)|, LastAt(es, |es|));
  }

  // ------------------------------------------------------------------ the anchored segment

  /** Segment `s` is the last: it follows a windowed provenance, and no other does. */
  ghost predicate LastSegment(es: seq<Entry>, s: nat)
  {
    0 < s <= |es| && Windowed(es[s - 1].rec) && forall i | s <= i < |es| :: !Windowed(es[i].rec)
  }

  lemma {:induction false} SegmentIs(es: seq<Entry>, s: nat, i: nat)
    requires LastSegment(es, s) && s <= i < |es|
    ensures Segment(es, i) == s
    decreases i
  {
    if s < i { SegmentIs(es, s, i - 1); }
  }

  lemma {:induction false} StartIs(recs: seq<Decoded>, s: nat)
    requires 0 < s <= |recs| && Windowed(recs[s - 1].rec) && forall i | s <= i < |recs| :: !Windowed(recs[i].rec)
    ensures SegmentStart(recs) == Some(s)
  {
    if s < |recs| { StartIs(recs[..|recs| - 1], s); }
  }

  /** The uptime names the turn: less than half a turn off, or exactly half and the turn even. */
  predicate NamesTurn(off: int, turn: int)
  {
    -U32 < 2 * off < U32 || ((2 * off == U32 || 2 * off == -U32) && turn % 2 == 0)
  }

  lemma RoundBack(off: int, turn: int)
    ensures RoundDiv(off + turn * U32) == turn <==> NamesTurn(off, turn)
  {
    var x := off + turn * U32;
    ModShift(off, turn);
    assert x / U32 == off / U32 + turn;
    assert off == (off / U32) * U32 + off % U32;
    assert (off / U32 + turn) % 2 == (if (off / U32) % 2 == 0 then turn % 2 else (turn + 1) % 2);
  }

  lemma {:induction false} StartFollowsWindow(recs: seq<Decoded>)
    ensures var s := SegmentStart(recs); s.Some? ==> 0 < s.value <= |recs| && Windowed(recs[s.value - 1].rec)
  {
    if recs != [] { StartFollowsWindow(recs[..|recs| - 1]); }
  }

  lemma {:induction false} SegmentSplits(es: seq<Entry>, s: nat, i: nat)
    requires 0 < s <= i < |es| && Windowed(es[s - 1].rec)
    ensures Segment(es, i) >= s
    decreases i
  {
    if s < i { SegmentSplits(es, s, i - 1); }
  }

  lemma SameSide(es: seq<Entry>, s: nat, i: nat, j: nat)
    requires 0 < s <= |es| && Windowed(es[s - 1].rec) && i < |es| && j < |es| && Segment(es, i) == Segment(es, j)
    ensures i >= s <==> j >= s
  {
    if i >= s { SegmentSplits(es, s, i); }
    if j >= s { SegmentSplits(es, s, j); }
  }

  lemma ShiftAt(recs: seq<Decoded>, from: nat, k: int, i: nat)
    requires from <= |recs| && i < |recs|
    ensures |ShiftFrom(recs, from, k)| == |recs| && ShiftFrom(recs, from, k)[i] == if i >= from then Shift(recs[i], k) else recs[i]
  {
  }

  /** The anchor moves two records on the same side of it alike. */
  lemma AnchorAt(recs: seq<Decoded>, i: nat, j: nat)
    requires i < |recs| && j < |recs|
    requires SegmentStart(recs).Some? ==> (i >= SegmentStart(recs).value <==> j >= SegmentStart(recs).value)
    ensures |Anchor(recs)| == |recs| && Anchor(recs)[i].rec == recs[i].rec
    ensures Anchor(recs)[j].t - Anchor(recs)[i].t == recs[j].t - recs[i].t
  {
    SegmentStartInside(recs);
    if SegmentStart(recs).Some? {
      var s := SegmentStart(recs).value;
      ShiftAt(recs, s, Turns(recs, s), i);
      ShiftAt(recs, s, Turns(recs, s), j);
    }
  }

  lemma ImageSide(es: seq<Entry>, i: nat, j: nat)
    requires i < |es| && j < |es| && Segment(es, i) == Segment(es, j)
    ensures var s := SegmentStart(Image(es, 0)); s.Some? ==> (i >= s.value <==> j >= s.value)
  {
    var s := SegmentStart(Image(es, 0));
    StartFollowsWindow(Image(es, 0));
    if s.Some? {
      assert Windowed(es[s.value - 1].rec);
      SameSide(es, s.value, i, j);
    }
  }

  lemma AxisDifference(es: seq<Entry>, i: nat, j: nat)
    requires i < |es| && j < |es| && Segment(es, i) == Segment(es, j)
    ensures Axis(es, j) - Axis(es, i) == es[j].t - es[i].t
  {
    var turns := TurnsBefore(es, i);
    assert TurnsBefore(es, j) == turns;
  }

  lemma ImageAt(es: seq<Entry>, i: nat)
    requires i < |es|
    ensures |Image(es, 0)| == |es| && Image(es, 0)[i] == Decoded(Axis(es, i), es[i].rec)
  {
  }

  /** Every decoded difference within a segment is the true one, anchored or not. */
  lemma DifferencesExact(es: seq<Entry>, free: nat, i: nat, j: nat)
    requires AllValid(es) && Steady(es) && i < |es| && j < |es| && Segment(es, i) == Segment(es, j)
    ensures var recs := Decode(Dump(es, free)).recs;
            |recs| == |es| && recs[i].rec == es[i].rec && recs[j].t - recs[i].t == es[j].t - es[i].t
  {
    RoundTrip(es, free);
    ImageAt(es, i);
    ImageAt(es, j);
    AxisDifference(es, i, j);
    ImageSide(es, i, j);
    AnchorAt(Image(es, 0), i, j);
  }

  /** The true times from `s` on. */
  ghost predicate TrueFrom(recs: seq<Decoded>, es: seq<Entry>, s: nat)
  {
    |recs| == |es| && forall i | s <= i < |es| :: recs[i] == Decoded(es[i].t, es[i].rec)
  }

  ghost predicate FirstBeat(es: seq<Entry>, s: nat, h: nat)
  {
    s <= h < |es| && es[h].rec.Heartbeat? && forall i | s <= i < h :: !es[i].rec.Heartbeat?
  }

  lemma ImageFrom(es: seq<Entry>, s: nat)
    requires LastSegment(es, s)
    ensures forall i | s <= i < |es| :: Image(es, 0)[i] == Decoded(es[i].t - (es[s].t / U32) * U32, es[i].rec)
    ensures SegmentStart(Image(es, 0)) == Some(s)
  {
    StartIs(Image(es, 0), s);
    forall i | s <= i < |es| ensures Image(es, 0)[i] == Decoded(es[i].t - (es[s].t / U32) * U32, es[i].rec) {
      SegmentIs(es, s, i);
    }
  }

  lemma TurnsOf(es: seq<Entry>, im: seq<Decoded>, s: nat, h: nat, turn: int)
    requires |im| == |es| && FirstBeat(es, s, h)
    requires forall i | s <= i < |es| :: im[i] == Decoded(es[i].t - turn * U32, es[i].rec)
    ensures Turns(im, s) == RoundDiv(es[h].rec.uptime * 1_000_000 - es[h].t + turn * U32)
  {
    assert FirstHeartbeat(im, s) == h;
  }

  lemma AnchorTurns(es: seq<Entry>, im: seq<Decoded>, s: nat, h: nat, turn: int)
    requires |im| == |es| && FirstBeat(es, s, h)
    requires forall i | s <= i < |es| :: im[i] == Decoded(es[i].t - turn * U32, es[i].rec)
    ensures Turns(im, s) == turn <==> NamesTurn(es[h].rec.uptime * 1_000_000 - es[h].t, turn)
  {
    TurnsOf(es, im, s, h, turn);
    RoundBack(es[h].rec.uptime * 1_000_000 - es[h].t, turn);
  }

  lemma AnchorOfImage(es: seq<Entry>, s: nat, h: nat)
    requires LastSegment(es, s) && FirstBeat(es, s, h)
    ensures TrueFrom(Anchor(Image(es, 0)), es, s) <==>
            NamesTurn(es[h].rec.uptime * 1_000_000 - es[h].t, es[s].t / U32)
  {
    var im, turn := Image(es, 0), es[s].t / U32;
    ImageFrom(es, s);
    AnchorTurns(es, im, s, h, turn);
    ShiftedBy(es, im, s, turn, Turns(im, s));
  }

  /**
   * A windowed segment whose first heartbeat is record `h` comes out at its true times exactly when the
   * heartbeat's uptime is within half a turn of the clock (2^31 ns) of its own stamp's true time.
   */
  lemma AnchorExact(es: seq<Entry>, free: nat, s: nat, h: nat)
    requires AllValid(es) && Steady(es) && LastSegment(es, s) && FirstBeat(es, s, h)
    ensures TrueFrom(Decode(Dump(es, free)).recs, es, s) <==>
            NamesTurn(es[h].rec.uptime * 1_000_000 - es[h].t, es[s].t / U32)
  {
    RoundTrip(es, free);
    AnchorOfImage(es, s, h);
  }

  lemma ShiftedBy(es: seq<Entry>, im: seq<Decoded>, s: nat, turn: int, k: int)
    requires |im| == |es| && s < |es|
    requires forall i | s <= i < |es| :: im[i] == Decoded(es[i].t - turn * U32, es[i].rec)
    ensures TrueFrom(ShiftFrom(im, s, k), es, s) <==> k == turn
  {
    var recs := ShiftFrom(im, s, k);
    assert forall i | s <= i < |es| :: recs[i] == Shift(im[i], k);
    assert recs[s].t == es[s].t - turn * U32 + k * U32;
  }
}
