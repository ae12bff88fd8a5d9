/** The trace stream's bytes: little-endian words, and the four island record types. */
module TraceFormat {
  import opened Words

  const U16: int := 0x1_0000

  type Byte = x: int | 0 <= x < 256

  // ------------------------------------------------------------------ little-endian words

  function Bytes16(x: nat): (b: seq<Byte>)
    requires x < U16
    ensures |b| == 2
  {
    [x % 256, x / 256]
  }

  function Bytes32(x: nat): (b: seq<Byte>)
    requires x < U32
    ensures |b| == 4
  {
    Bytes16(x % U16) + Bytes16(x / U16)
  }

  // ------------------------------------------------------------------ records

  const EV_MARKER: nat := 0x1E0
  const EV_HEARTBEAT: nat := 0x1E1
  const EV_PROVENANCE: nat := 0x1E2
  const EV_TRIGGER: nat := 0x1E3

  const HEADER: nat := 6

  datatype Record =
    | Marker(marker: nat, arg: nat)
    | Heartbeat(seqNo: nat, uptime: nat)
    | Provenance(text: seq<Byte>)
    | Trigger(cause: nat, preMs: nat, kept: nat, spinKeep: nat, lost: nat, filtered: nat)
  {
    /** What the record's fields can hold; the provenance is a C string. */
    predicate Valid()
    {
      match this
      case Marker(m, a) => m < U16 && a < U32
      case Heartbeat(s, u) => s < U32 && u < U32
      case Provenance(t) => |t| < U16 && forall i | 0 <= i < |t| :: 0 < t[i] < 128
      case Trigger(c, p, k, s, l, f) => c < U16 && p < U16 && k < U16 && s < U16 && l < U32 && f < U32
    }

    function Id(): nat
    {
      match this
      case Marker(_, _) => EV_MARKER
      case Heartbeat(_, _) => EV_HEARTBEAT
      case Provenance(_) => EV_PROVENANCE
      case Trigger(_, _, _, _, _, _) => EV_TRIGGER
    }

    function Payload(): seq<Byte>
      requires Valid()
    {
      match this
      case Marker(m, a) => Bytes16(m) + Bytes32(a)
      case Heartbeat(s, u) => Bytes32(s) + Bytes32(u)
      case Provenance(t) => Bytes16(|t|) + t
      case Trigger(c, p, k, s, l, f) => Bytes16(c) + Bytes16(p) + Bytes16(k) + Bytes16(s) + Bytes32(l) + Bytes32(f)
    }

    function PayloadLength(): nat
    {
      match this
      case Marker(_, _) => 6
      case Heartbeat(_, _) => 8
      case Provenance(t) => 2 + |t|
      case Trigger(_, _, _, _, _, _) => 16
    }
  }

  /** A record and the true time it was written, in nanoseconds; the stream carries that time mod 2^32. */
  datatype Entry = Entry(t: nat, rec: Record)

  function Stamp(t: int): nat { Trunc32(t) }

  function Header(e: Entry): (b: seq<Byte>)
    ensures |b| == HEADER
  {
    Bytes32(Stamp(e.t)) + Bytes16(e.rec.Id())
  }

  /** One record as the island puts it. */
  function Encode(e: Entry): (b: seq<Byte>)
    requires e.rec.Valid()
    ensures |b| == HEADER + e.rec.PayloadLength()
  {
    Header(e) + e.rec.Payload()
  }

  ghost predicate AllValid(es: seq<Entry>) { forall i | 0 <= i < |es| :: es[i].rec.Valid() }

  function Frames(es: seq<Entry>): (fs: seq<seq<Byte>>)
    requires AllValid(es)
    ensures |fs| == |es|
  {
    seq(|es|, i requires 0 <= i < |es| => Encode(es[i]))
  }

  lemma FramesFrom(es: seq<Entry>, i: nat)
    requires AllValid(es) && i <= |es|
    ensures AllValid(es[i..]) && Frames(es)[i..] == Frames(es[i..])
  {
  }

  lemma FrameLengths(es: seq<Entry>)
    requires AllValid(es)
    ensures forall i | 0 <= i < |es| :: |Frames(es)[i]| == HEADER + es[i].rec.PayloadLength()
  {
  }

  /** A stream of records, back to back. */
  function EncodeAll(es: seq<Entry>): seq<Byte>
    requires AllValid(es)
  {
    Concat(Frames(es))
  }

  // ------------------------------------------------------------------ frames back to back

  function Concat(fs: seq<seq<Byte>>): seq<Byte>
  {
    if fs == [] then [] else Concat(fs[..|fs| - 1]) + fs[|fs| - 1]
  }

  lemma {:induction false} ConcatBoth(a: seq<seq<Byte>>, b: seq<seq<Byte>>)
    ensures Concat(a + b) == Concat(a) + Concat(b)
    decreases |b|
  {
    if b == [] {
      assert a + b == a;
    } else {
      var n := |b| - 1;
      assert (a + b)[..|a| + n] == a + b[..n];
      ConcatBoth(a, b[..n]);
    }
  }

  /** Where frame `i` starts. */
  ghost function StartOf(fs: seq<seq<Byte>>, i: nat): nat
    requires i <= |fs|
  {
    |Concat(fs[..i])|
  }

  lemma ConcatFrom(fs: seq<seq<Byte>>, i: nat)
    requires i <= |fs|
    ensures StartOf(fs, i) <= |Concat(fs)| && Concat(fs)[StartOf(fs, i)..] == Concat(fs[i..])
  {
    ConcatSplit(fs, i);
  }

  lemma ConcatNext(fs: seq<seq<Byte>>, i: nat)
    requires i < |fs|
    ensures Concat(fs[..i + 1]) == Concat(fs[..i]) + fs[i]
    ensures StartOf(fs, i + 1) == StartOf(fs, i) + |fs[i]|
  {
    assert fs[..i + 1][..i] == fs[..i];
  }

  lemma Middle(a: seq<Byte>, b: seq<Byte>, c: seq<Byte>)
    ensures Holds(a + b + c, |a|, b)
  {
  }

  /** Frame `i` stands where the frames before it end. */
  lemma ConcatAt(fs: seq<seq<Byte>>, i: nat)
    requires i < |fs|
    ensures Holds(Concat(fs), StartOf(fs, i), fs[i])
  {
    ConcatSplit(fs, i + 1);
    ConcatNext(fs, i);
    Middle(Concat(fs[..i]), fs[i], Concat(fs[i + 1..]));
  }

  lemma ConcatSplit(fs: seq<seq<Byte>>, i: nat)
    requires i <= |fs|
    ensures Concat(fs) == Concat(fs[..i]) + Concat(fs[i..])
  {
    assert fs[..i] + fs[i..] == fs;
    ConcatBoth(fs[..i], fs[i..]);
  }

  // ------------------------------------------------------------------ reading at an offset

  predicate Holds(buf: seq<Byte>, pos: nat, b: seq<Byte>)
  {
    pos + |b| <= |buf| && buf[pos..pos + |b|] == b
  }

  lemma HoldsBoth(buf: seq<Byte>, pos: nat, a: seq<Byte>, b: seq<Byte>)
    requires Holds(buf, pos, a + b)
    ensures Holds(buf, pos, a) && Holds(buf, pos + |a|, b)
  {
    assert buf[pos..pos + |a|] == (a + b)[..|a|] == a;
    assert buf[pos + |a|..pos + |a| + |b|] == (a + b)[|a|..] == b;
  }

  lemma HoldsWithin(buf: seq<Byte>, all: seq<Byte>, pos: nat, b: seq<Byte>)
    requires Holds(buf, 0, all) && Holds(all, pos, b)
    ensures Holds(buf, pos, b)
  {
    assert buf[pos..pos + |b|] == buf[0..|all|][pos..pos + |b|];
  }

  function Read16(buf: seq<Byte>, pos: nat): nat
    requires pos + 2 <= |buf|
  {
    var low: int, high: int := buf[pos], buf[pos + 1];
    low + 256 * high
  }

  function Read32(buf: seq<Byte>, pos: nat): nat
    requires pos + 4 <= |buf|
  {
    Read16(buf, pos) + U16 * Read16(buf, pos + 2)
  }

  lemma ReadBack16(buf: seq<Byte>, pos: nat, x: nat)
    requires x < U16 && Holds(buf, pos, Bytes16(x))
    ensures Read16(buf, pos) == x
  {
    assert buf[pos] == buf[pos..pos + 2][0] && buf[pos + 1] == buf[pos..pos + 2][1];
  }

  lemma ReadBack32(buf: seq<Byte>, pos: nat, x: nat)
    requires x < U32 && Holds(buf, pos, Bytes32(x))
    ensures Read32(buf, pos) == x
  {
    HoldsBoth(buf, pos, Bytes16(x % U16), Bytes16(x / U16));
    ReadBack16(buf, pos, x % U16);
    ReadBack16(buf, pos + 2, x / U16);
  }

  // ------------------------------------------------------------------ the layout, byte by byte

  /** The little-endian number of the `n` bytes at `at`. */
  function LittleEndian(b: seq<Byte>, at: nat, n: nat): nat
    requires at + n <= |b|
    decreases n
  {
    if n == 0 then 0 else b[at] + 256 * LittleEndian(b, at + 1, n - 1)
  }

  lemma Bytes16Are(b: seq<Byte>, at: nat, x: nat)
    requires x < U16 && at + 2 <= |b| && b[at..at + 2] == Bytes16(x)
    ensures LittleEndian(b, at, 2) == x
  {
    assert b[at] == b[at..at + 2][0] && b[at + 1] == b[at..at + 2][1];
    assert LittleEndian(b, at + 1, 1) == b[at + 1];
  }

  lemma Bytes32Are(b: seq<Byte>, at: nat, x: nat)
    requires x < U32 && at + 4 <= |b| && b[at..at + 4] == Bytes32(x)
    ensures LittleEndian(b, at, 4) == x
  {
    assert b[at..at + 2] == b[at..at + 4][..2] == Bytes16(x % U16);
    assert b[at + 2..at + 4] == b[at..at + 4][2..] == Bytes16(x / U16);
    Bytes16Are(b, at, x % U16);
    Bytes16Are(b, at + 2, x / U16);
    assert LittleEndian(b, at, 4) == b[at] + 256 * (b[at + 1] + 256 * LittleEndian(b, at + 2, 2));
    assert LittleEndian(b, at, 2) == b[at] + 256 * LittleEndian(b, at + 1, 1);
    assert LittleEndian(b, at + 1, 1) == b[at + 1];
    assert LittleEndian(b, at + 1, 3) == b[at + 1] + 256 * LittleEndian(b, at + 2, 2);
  }

  /** Bytes 0 to 3 of a record are its 32-bit stamp, 4 and 5 its id, and the payload follows. */
  lemma HeaderLayout(e: Entry)
    requires e.rec.Valid()
    ensures var b := Encode(e);
            LittleEndian(b, 0, 4) == Trunc32(e.t) && LittleEndian(b, 4, 2) == e.rec.Id() && b[6..] == e.rec.Payload()
  {
    var b := Encode(e);
    assert b[0..4] == Bytes32(Stamp(e.t)) && b[4..6] == Bytes16(e.rec.Id());
    Bytes32Are(b, 0, Stamp(e.t));
    Bytes16Are(b, 4, e.rec.Id());
  }

  /** Ids and payloads, field by field, as their packed structs lay them out. */
  lemma PayloadLayout(r: Record)
    requires r.Valid()
    ensures var p := r.Payload();
            match r
            case Marker(m, a) => r.Id() == 0x1E0 && |p| == 6 && LittleEndian(p, 0, 2) == m && LittleEndian(p, 2, 4) == a
            case Heartbeat(n, u) => r.Id() == 0x1E1 && |p| == 8 && LittleEndian(p, 0, 4) == n && LittleEndian(p, 4, 4) == u
            case Provenance(t) => r.Id() == 0x1E2 && |p| == 2 + |t| && LittleEndian(p, 0, 2) == |t| && p[2..] == t
            case Trigger(c, pre, k, s, l, f) =>
              && r.Id() == 0x1E3 && |p| == 16
              && LittleEndian(p, 0, 2) == c && LittleEndian(p, 2, 2) == pre && LittleEndian(p, 4, 2) == k && LittleEndian(p, 6, 2) == s
              && LittleEndian(p, 8, 4) == l && LittleEndian(p, 12, 4) == f
  {
    var p := r.Payload();
    match r
    case Marker(m, a) =>
      assert p[0..2] == Bytes16(m) && p[2..6] == Bytes32(a);
      Bytes16Are(p, 0, m);
      Bytes32Are(p, 2, a);
    case Heartbeat(n, u) =>
      assert p[0..4] == Bytes32(n) && p[4..8] == Bytes32(u);
      Bytes32Are(p, 0, n);
      Bytes32Are(p, 4, u);
    case Provenance(t) =>
      assert p[0..2] == Bytes16(|t|);
      Bytes16Are(p, 0, |t|);
    case Trigger(_, _, _, _, _, _) => TriggerLayout(r);
  }

  lemma TriggerLayout(r: Record)
    requires r.Valid() && r.Trigger?
    ensures var p := r.Payload();
            && |p| == 16
            && LittleEndian(p, 0, 2) == r.cause && LittleEndian(p, 2, 2) == r.preMs && LittleEndian(p, 4, 2) == r.kept
            && LittleEndian(p, 6, 2) == r.spinKeep && LittleEndian(p, 8, 4) == r.lost && LittleEndian(p, 12, 4) == r.filtered
  {
    var p := r.Payload();
    assert p[0..2] == Bytes16(r.cause) && p[2..4] == Bytes16(r.preMs) && p[4..6] == Bytes16(r.kept) && p[6..8] == Bytes16(r.spinKeep);
    assert p[8..12] == Bytes32(r.lost) && p[12..16] == Bytes32(r.filtered);
    Bytes16Are(p, 0, r.cause);
    Bytes16Are(p, 2, r.preMs);
    Bytes16Are(p, 4, r.kept);
    Bytes16Are(p, 6, r.spinKeep);
    Bytes32Are(p, 8, r.lost);
    Bytes32Are(p, 12, r.filtered);
  }
}
