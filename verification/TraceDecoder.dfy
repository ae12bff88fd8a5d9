/** The decoder: the record loop over a padded buffer, the timestamp unwrap, and the segment's anchor. */
module TraceDecoder {
  import opened Words
  import opened TraceFormat

  const PAD: nat := 64

  function Zeros(n: nat): (b: seq<Byte>)
    ensures |b| == n && forall i | 0 <= i < n :: b[i] == 0
  {
    seq(n, _ => 0)
  }

  /** The dump, with the zeros the decoder appends. */
  predicate Padded(buf: seq<Byte>) { |buf| >= PAD && forall i | |buf| - PAD <= i < |buf| :: buf[i] == 0 }

  /** A decoded record; its time is on the decoder's own axis. */
  datatype Decoded = Decoded(t: int, rec: Record)

  datatype Status = Clean | UnknownId(id: nat, off: nat)

  /** The unwrap's state: the last stamp, and its time; none at the start of a segment. */
  datatype Last = Last(stamp: nat, t: int)

  datatype Parsed = Parsed(recs: seq<Decoded>, used: nat, status: Status)

  // ------------------------------------------------------------------ one record

  /** The signed difference mod 2^32. */
  function SignedDiff(stamp: nat, prev: nat): int
  {
    var d := Trunc32(stamp - prev);
    if d >= 0x8000_0000 then d - U32 else d
  }

  function Unwrap(last: Option<Last>, stamp: nat): int
  {
    if last.None? then stamp else last.value.t + SignedDiff(stamp, last.value.stamp)
  }

  function IdAt(buf: seq<Byte>, pos: nat): nat
    requires pos + HEADER <= |buf|
  {
    Read16(buf, pos + 4)
  }

  /** A record starts here. */
  predicate MoreAt(buf: seq<Byte>, pos: nat) { pos + HEADER <= |buf| && IdAt(buf, pos) != 0 }

  /** The padding keeps every fixed-size read of a started record inside the buffer. */
  lemma StartsInside(buf: seq<Byte>, pos: nat)
    requires Padded(buf) && MoreAt(buf, pos)
    ensures pos + HEADER + 16 <= |buf|
  {
  }

  function Clip(buf: seq<Byte>, from: nat, to: nat): seq<Byte>
    requires from <= to
  {
    if to <= |buf| then buf[from..to] else if from <= |buf| then buf[from..] else []
  }

  predicate Known(id: nat) { EV_MARKER <= id <= EV_TRIGGER }

  function BodyAt(buf: seq<Byte>, id: nat, p: nat): Record
    requires Known(id) && p + 16 <= |buf|
  {
    if id == EV_MARKER then Marker(Read16(buf, p), Read32(buf, p + 2))
    else if id == EV_HEARTBEAT then Heartbeat(Read32(buf, p), Read32(buf, p + 4))
    else if id == EV_PROVENANCE then Provenance(Clip(buf, p + 2, p + 2 + Read16(buf, p)))
    else Trigger(Read16(buf, p), Read16(buf, p + 2), Read16(buf, p + 4), Read16(buf, p + 6), Read32(buf, p + 8), Read32(buf, p + 12))
  }

  /** How far the decoder moves on: a provenance by its announced length, whatever the buffer held of it. */
  function BodyLength(buf: seq<Byte>, id: nat, p: nat): nat
    requires Known(id) && p + 16 <= |buf|
  {
    if id == EV_MARKER then 6 else if id == EV_HEARTBEAT then 8
    else if id == EV_PROVENANCE then 2 + Read16(buf, p) else 16
  }

  // ------------------------------------------------------------------ the record loop

  /** "window=trigger". */
  const WINDOW: seq<Byte> := [119, 105, 110, 100, 111, 119, 61, 116, 114, 105, 103, 103, 101, 114]

  /** The provenance of a windowed trace: the next record starts a new segment. */
  predicate Windowed(r: Record)
  {
    r.Provenance? && exists i | 0 <= i < |r.text| :: Holds(r.text, i, WINDOW)
  }

  lemma WindowIsText()
    ensures |WINDOW| == |"window=trigger"| && forall i | 0 <= i < |WINDOW| :: WINDOW[i] == "window=trigger"[i] as int
  {
    var text := "window=trigger";
    assert text[0] == 'w' && text[1] == 'i' && text[2] == 'n' && text[3] == 'd' && text[4] == 'o' && text[5] == 'w' && text[6] == '=';
    assert text[7] == 't' && text[8] == 'r' && text[9] == 'i' && text[10] == 'g' && text[11] == 'g' && text[12] == 'e' && text[13] == 'r';
  }

  function NextLast(r: Record, stamp: nat, t: int): Option<Last>
  {
    if Windowed(r) then None else Some(Last(stamp, t))
  }

  /** A started record of a known id, with room for its fixed-size fields. */
  predicate Readable(buf: seq<Byte>, pos: nat)
  {
    MoreAt(buf, pos) && Known(IdAt(buf, pos)) && pos + HEADER + 16 <= |buf|
  }

  /** The record at `pos`, where the next one starts, and the unwrap's state for it. */
  datatype Reading = Reading(d: Decoded, next: nat, last: Option<Last>)

  function ReadAt(buf: seq<Byte>, pos: nat, last: Option<Last>): (g: Reading)
    requires Readable(buf, pos)
    ensures g.next > pos
  {
    var id, stamp := IdAt(buf, pos), Read32(buf, pos);
    var d := Decoded(Unwrap(last, stamp), BodyAt(buf, id, pos + HEADER));
    Reading(d, pos + HEADER + BodyLength(buf, id, pos + HEADER), NextLast(d.rec, stamp, d.t))
  }

  function ParseFrom(buf: seq<Byte>, pos: nat, last: Option<Last>): Parsed
    requires Padded(buf)
    decreases |buf| - pos
  {
    if !MoreAt(buf, pos) then Parsed([], pos, Clean)
    else if !Known(IdAt(buf, pos)) then Parsed([], pos, UnknownId(IdAt(buf, pos), pos))
    else
      StartsInside(buf, pos);
      var g := ReadAt(buf, pos, last);
      Then(g.d, ParseFrom(buf, g.next, g.last))
  }

  function Then(d: Decoded, rest: Parsed): Parsed { Parsed([d] + rest.recs, rest.used, rest.status) }

  lemma ParseStep(buf: seq<Byte>, pos: nat, last: Option<Last>, g: Reading)
    requires Padded(buf) && Readable(buf, pos) && g == ReadAt(buf, pos, last)
    ensures ParseFrom(buf, pos, last) == Then(g.d, ParseFrom(buf, g.next, g.last))
  {
  }

  // ------------------------------------------------------------------ the anchor

  /** Where the last windowed segment starts. */
  function SegmentStart(recs: seq<Decoded>): Option<nat>
  {
    if recs == [] then None
    else if Windowed(recs[|recs| - 1].rec) then Some(|recs|)
    else SegmentStart(recs[..|recs| - 1])
  }

  lemma {:induction false} SegmentStartInside(recs: seq<Decoded>)
    ensures SegmentStart(recs).Some? ==> SegmentStart(recs).value <= |recs|
  {
    if recs != [] { SegmentStartInside(recs[..|recs| - 1]); }
  }

  /** The first heartbeat at or after `from`, `|recs|` if none. */
  function FirstHeartbeat(recs: seq<Decoded>, from: nat): (i: nat)
    requires from <= |recs|
    ensures from <= i <= |recs| && (i < |recs| ==> recs[i].rec.Heartbeat?)
    ensures forall j | from <= j < i :: !recs[j].rec.Heartbeat?
    decreases |recs| - from
  {
    if from == |recs| || recs[from].rec.Heartbeat? then from else FirstHeartbeat(recs, from + 1)
  }

  /** `round(x / 2^32)`, halves to even. */
  function RoundDiv(x: int): int
  {
    var q, r := x / U32, x % U32;
    if 2 * r < U32 || (2 * r == U32 && q % 2 == 0) then q else q + 1
  }

  function Shift(d: Decoded, k: int): Decoded { d.(t := d.t + k * U32) }

  function ShiftFrom(recs: seq<Decoded>, from: nat, k: int): seq<Decoded>
    requires from <= |recs|
  {
    recs[..from] + seq(|recs| - from, i requires 0 <= i < |recs| - from => Shift(recs[from + i], k))
  }

  function Turns(recs: seq<Decoded>, from: nat): int
    requires from <= |recs|
  {
    var h := FirstHeartbeat(recs, from);
    if h == |recs| then 0 else RoundDiv(recs[h].rec.uptime * 1_000_000 - recs[h].t)
  }

  function Anchor(recs: seq<Decoded>): seq<Decoded>
  {
    var s := SegmentStart(recs);
    SegmentStartInside(recs);
    if s.None? then recs else ShiftFrom(recs, s.value, Turns(recs, s.value))
  }

  /** The decoder on a dump. */
  function Decode(dump: seq<Byte>): Parsed
  {
    var buf := dump + Zeros(PAD);
    assert Padded(buf) by { assert forall i | |dump| <= i < |buf| :: buf[i] == Zeros(PAD)[i - |dump|]; }
    var p := ParseFrom(buf, 0, None);
    p.(recs := Anchor(p.recs))
  }

  // ------------------------------------------------------------------ the loop as it runs

  lemma SegmentStep(recs: seq<Decoded>, d: Decoded)
    ensures SegmentStart(recs + [d]) == if Windowed(d.rec) then Some(|recs| + 1) else SegmentStart(recs)
  {
    assert (recs + [d])[..|recs|] == recs;
  }

  /** The loop's state: what is decoded, where it reads next, and the unwrap. */
  datatype Cursor = Cursor(recs: seq<Decoded>, pos: nat, last: Option<Last>)

  /** The records so far and those still to come are all of them. */
  ghost predicate Continues(buf: seq<Byte>, c: Cursor)
    requires Padded(buf)
  {
    var rest := ParseFrom(buf, c.pos, c.last);
    ParseFrom(buf, 0, None) == Parsed(c.recs + rest.recs, rest.used, rest.status)
  }

  function Advance(buf: seq<Byte>, c: Cursor): Cursor
    requires Readable(buf, c.pos)
  {
    var g := ReadAt(buf, c.pos, c.last);
    Cursor(c.recs + [g.d], g.next, g.last)
  }

  lemma AdvanceContinues(buf: seq<Byte>, c: Cursor)
    requires Padded(buf) && Readable(buf, c.pos) && Continues(buf, c)
    ensures Continues(buf, Advance(buf, c))
  {
    var g := ReadAt(buf, c.pos, c.last);
    var rest := ParseFrom(buf, g.next, g.last);
    ParseStep(buf, c.pos, c.last, g);
    assert c.recs + ([g.d] + rest.recs) == (c.recs + [g.d]) + rest.recs;
  }

  lemma StopsHere(buf: seq<Byte>, c: Cursor, status: Status)
    requires Padded(buf) && Continues(buf, c)
    requires if MoreAt(buf, c.pos) then !Known(IdAt(buf, c.pos)) && status == UnknownId(IdAt(buf, c.pos), c.pos) else status.Clean?
    ensures ParseFrom(buf, 0, None) == Parsed(c.recs, c.pos, status)
  {
    assert c.recs + [] == c.recs;
  }

  /** The payload at `p`, field by field, and where it ends. */
  method ReadBody(buf: seq<Byte>, id: nat, p: nat) returns (r: Record, q: nat)
    requires Known(id) && p + 16 <= |buf|
    ensures r == BodyAt(buf, id, p) && q == p + BodyLength(buf, id, p)
  {
    if id == EV_MARKER {
      r := Marker(Read16(buf, p), Read32(buf, p + 2));
      q := p + 6;
    } else if id == EV_HEARTBEAT {
      r := Heartbeat(Read32(buf, p), Read32(buf, p + 4));
      q := p + 8;
    } else if id == EV_PROVENANCE {
      var length := Read16(buf, p);
      r := Provenance(Clip(buf, p + 2, p + 2 + length));
      q := p + 2 + length;
    } else {
      r := Trigger(Read16(buf, p), Read16(buf, p + 2), Read16(buf, p + 4), Read16(buf, p + 6), Read32(buf, p + 8), Read32(buf, p + 12));
      q := p + 16;
    }
  }

  /** One record. */
  method ReadRecord(buf: seq<Byte>, c: Cursor) returns (n: Cursor, r: Record)
    requires Readable(buf, c.pos)
    ensures n == Advance(buf, c) && n.pos > c.pos
    ensures n.recs[..|c.recs|] == c.recs && n.recs[|c.recs|].rec == r && |n.recs| == |c.recs| + 1
  {
    var stamp := Read32(buf, c.pos);
    var t, p := Unwrap(c.last, stamp), c.pos + HEADER;
    r, p := ReadBody(buf, IdAt(buf, c.pos), p);
    n := Cursor(c.recs + [Decoded(t, r)], p, if Windowed(r) then None else Some(Last(stamp, t)));
  }

  /** The record loop. */
  method Records(buf: seq<Byte>) returns (recs: seq<Decoded>, used: nat, status: Status, segment: Option<nat>)
    requires Padded(buf)
    ensures Parsed(recs, used, status) == ParseFrom(buf, 0, None) && segment == SegmentStart(recs)
  {
    var c := Cursor([], 0, None);
    segment, status := None, Clean;
    while c.pos + HEADER <= |buf|
      invariant status.Clean? && segment == SegmentStart(c.recs) && Continues(buf, c)
      decreases |buf| - c.pos
    {
      var id := IdAt(buf, c.pos);
      if id == 0 {
        break;
      }
      if !Known(id) {
        status := UnknownId(id, c.pos);
        break;
      }
      StartsInside(buf, c.pos);
      AdvanceContinues(buf, c);
      ghost var was := c.recs;
      var r;
      c, r := ReadRecord(buf, c);
      SegmentStep(was, c.recs[|was|]);
      assert c.recs == was + [c.recs[|was|]];
      if Windowed(r) { segment := Some(|c.recs|); }
    }
    StopsHere(buf, c, status);
    recs, used := c.recs, c.pos;
  }

  method Load(dump: seq<Byte>) returns (recs: seq<Decoded>, used: nat, status: Status)
    ensures Parsed(recs, used, status) == Decode(dump)
  {
    var buf := dump + Zeros(PAD);
    assert Padded(buf) by { assert forall i | |dump| <= i < |buf| :: buf[i] == Zeros(PAD)[i - |dump|]; }
    var segment;
    recs, used, status, segment := Records(buf);
    SegmentStartInside(recs);
    if segment.Some? {
      var h := NextHeartbeat(recs, segment.value);
      if h < |recs| {
        recs := ShiftAll(recs, segment.value, RoundDiv(recs[h].rec.uptime * 1_000_000 - recs[h].t));
      } else {
        NoShift(recs, segment.value);
      }
    }
  }

  lemma NoShift(recs: seq<Decoded>, from: nat)
    requires from <= |recs|
    ensures ShiftFrom(recs, from, 0) == recs
  {
    assert forall d: Decoded :: Shift(d, 0) == d;
    assert forall i | 0 <= i < |recs| :: ShiftFrom(recs, from, 0)[i] == recs[i];
  }

  method NextHeartbeat(recs: seq<Decoded>, from: nat) returns (h: nat)
    requires from <= |recs|
    ensures h == FirstHeartbeat(recs, from)
  {
    h := from;
    while h < |recs| && !recs[h].rec.Heartbeat?
      invariant from <= h <= |recs| && FirstHeartbeat(recs, from) == FirstHeartbeat(recs, h)
    {
      h := h + 1;
    }
  }

  method ShiftAll(recs: seq<Decoded>, from: nat, k: int) returns (out: seq<Decoded>)
    requires from <= |recs|
    ensures out == ShiftFrom(recs, from, k)
  {
    out := recs;
    for i := from to |recs|
      invariant |out| == |recs| && forall j | 0 <= j < |recs| :: out[j] == if from <= j < i then Shift(recs[j], k) else recs[j]
    {
      out := out[i := Shift(out[i], k)];
    }
  }
}
