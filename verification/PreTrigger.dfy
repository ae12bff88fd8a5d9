/** The pre-trigger ring as the island keeps it: two byte halves filled in place, and the flush's two scans. */
module PreTrigger {
  import opened Words
  import opened TraceFormat
  import opened PreTriggerSpec
  import R = TraceRoundTrip

  // ------------------------------------------------------------------ bytes of a half

  lemma {:induction false} OffsetsRise(es: seq<Entry>, i: nat, j: nat)
    requires i <= j <= |es|
    ensures R.Offset(es, i) + HEADER * (j - i) <= R.Offset(es, j)
    decreases j
  {
    if i < j { OffsetsRise(es, i, j - 1); }
  }

  /** What is left of a half from record `i` on. */
  lemma EncodeFrom(es: seq<Entry>, i: nat)
    requires AllValid(es) && i <= |es|
    ensures AllValid(es[i..]) && R.Offset(es, i) <= |EncodeAll(es)|
    ensures EncodeAll(es)[R.Offset(es, i)..] == EncodeAll(es[i..])
  {
    R.OffsetIs(es, i);
    ConcatFrom(Frames(es), i);
    FramesFrom(es, i);
  }

  function RecLen(seg: seq<Byte>, off: nat): nat
    requires off + HEADER <= |seg|
  {
    if Read16(seg, off + 4) == EV_HEARTBEAT then 14 else 12
  }

  /** A scan at the offset of record `i` reads that record's stamp and length. */
  lemma ScanAt(seg: seq<Byte>, es: seq<Entry>, i: nat)
    requires AllRingable(es) && AllValid(es) && seg == EncodeAll(es) && i <= |es| && R.Offset(es, i) < |seg|
    ensures i < |es| && R.Offset(es, i) + HEADER <= |seg| && R.Offset(es, i + 1) <= |seg|
    ensures Read32(seg, R.Offset(es, i)) == Stamp(es[i].t)
    ensures R.Offset(es, i + 1) == R.Offset(es, i) + RecLen(seg, R.Offset(es, i))
  {
    R.OffsetIs(es, |es|);
    R.HoldsRecord(seg, es, i);
    R.HeaderBack(seg, R.Offset(es, i), es[i]);
    assert Ringable(es[i]);
    OffsetsRise(es, i + 1, |es|);
  }

  // ------------------------------------------------------------------ the two scans of one half

  /** Pass 1: the summed clock over a half. */
  method SumHalf(seg: seq<Byte>, c: Clock, ghost es: seq<Entry>) returns (d: Clock)
    requires AllRingable(es) && AllValid(es) && seg == EncodeAll(es)
    ensures d == PreTriggerSpec.After(c, es)
  {
    d := c;
    var off := 0;
    ghost var i := 0;
    while off < |seg|
      invariant i <= |es| && off == R.Offset(es, i) && d == PreTriggerSpec.After(c, es[..i])
      decreases |seg| - off
    {
      ScanAt(seg, es, i);
      NextClock(c, es, i);
      d := Tick(d, Read32(seg, off));
      off := off + RecLen(seg, off);
      i := i + 1;
    }
    EndOfHalf(seg, es, i);
  }

  lemma EndOfHalf(seg: seq<Byte>, es: seq<Entry>, i: nat)
    requires AllRingable(es) && AllValid(es) && seg == EncodeAll(es) && i <= |es| && R.Offset(es, i) >= |seg|
    ensures es[..i] == es && i == |es| && R.Offset(es, i) == |seg|
  {
    R.OffsetIs(es, |es|);
    OffsetsRise(es, i, |es|);
  }

  /** Pass 2 after `i` records: no recent one yet, or the first of them is `from`. */
  ghost predicate Scanned(c: Clock, es: seq<Entry>, nowRel: int, pre: nat, i: nat, found: bool, kept: nat, from: nat)
  {
    && i <= |es|
    && (if found then from < i && kept == i - from && Splits(c, es, nowRel, pre, from)
        else kept == 0 && forall j | 0 <= j < i :: Age(c, es, nowRel, j) > pre)
  }

  lemma ScannedStep(c: Clock, es: seq<Entry>, nowRel: int, pre: nat, i: nat, found: bool, kept: nat, from: nat)
    requires i < |es| && Scanned(c, es, nowRel, pre, i, found, kept, from)
    ensures found ==> Scanned(c, es, nowRel, pre, i + 1, true, kept + 1, from)
    ensures !found && Age(c, es, nowRel, i) <= pre ==> Scanned(c, es, nowRel, pre, i + 1, true, kept + 1, i)
    ensures !found && Age(c, es, nowRel, i) > pre ==> Scanned(c, es, nowRel, pre, i + 1, false, kept, from)
  {
  }

  /** Pass 2: where the recent records of a half start, and how many they are. */
  method KeepHalf(seg: seq<Byte>, c: Clock, nowRel: nat, pre: nat, ghost es: seq<Entry>)
    returns (d: Clock, start: nat, kept: nat, ghost from: nat)
    requires AllRingable(es) && AllValid(es) && seg == EncodeAll(es)
    ensures d == PreTriggerSpec.After(c, es) && Splits(c, es, nowRel, pre, from)
    ensures start == R.Offset(es, from) && kept == |es| - from
  {
    d, start, kept, from := c, |seg|, 0, 0;
    var off := 0;
    ghost var i := 0;
    while off < |seg|
      invariant i <= |es| && off == R.Offset(es, i) <= |seg| && d == PreTriggerSpec.After(c, es[..i])
      invariant Scanned(c, es, nowRel, pre, i, start != |seg|, kept, from)
      invariant start != |seg| ==> start == R.Offset(es, from) < |seg|
      decreases |seg| - off
    {
      ScanAt(seg, es, i);
      ScannedStep(c, es, nowRel, pre, i, start != |seg|, kept, from);
      NextClock(c, es, i);
      d := Tick(d, Read32(seg, off));
      if start == |seg| && nowRel - d.rel <= pre {
        start := off;
        from := i;
      }
      if start != |seg| {
        kept := kept + 1;
      }
      off := off + RecLen(seg, off);
      i := i + 1;
    }
    EndOfHalf(seg, es, i);
    if start == |seg| { from := |es|; }
  }

  lemma NextClock(c: Clock, es: seq<Entry>, i: nat)
    requires i < |es|
    ensures PreTriggerSpec.After(c, es[..i + 1]) == Tick(PreTriggerSpec.After(c, es[..i]), Stamp(es[i].t))
  {
    assert es[..i + 1][..i] == es[..i];
  }

  // ------------------------------------------------------------------ the flush

  lemma FramesTwo(a: seq<Entry>, b: seq<Entry>)
    requires AllValid(a) && AllValid(b)
    ensures AllValid(a + b) && Frames(a + b) == Frames(a) + Frames(b)
  {
  }

  lemma EncodeTwo(a: seq<Entry>, b: seq<Entry>)
    requires AllValid(a) && AllValid(b)
    ensures AllValid(a + b) && EncodeAll(a + b) == EncodeAll(a) + EncodeAll(b)
  {
    FramesTwo(a, b);
    ConcatBoth(Frames(a), Frames(b));
  }

  /** Frame `i` is record `i`. */
  ghost predicate IsRecord(fs: seq<Frame>, es: seq<Entry>, i: nat)
    requires i < |fs| == |es|
  {
    es[i].rec.Valid() && fs[i] == Encode(es[i])
  }

  /** The frames `fs` are the records `es`. */
  ghost predicate Records(fs: seq<Frame>, es: seq<Entry>) { |fs| == |es| && forall i | 0 <= i < |fs| :: IsRecord(fs, es, i) }

  lemma RecordsFrames(fs: seq<Frame>, es: seq<Entry>)
    requires Records(fs, es)
    ensures AllValid(es) && fs == Frames(es) && Concat(fs) == EncodeAll(es)
  {
    forall i | 0 <= i < |es| ensures es[i].rec.Valid() && fs[i] == Encode(es[i]) { assert IsRecord(fs, es, i); }
  }

  lemma FramesRecords(fs: seq<Frame>, es: seq<Entry>)
    requires AllValid(es) && fs == Frames(es)
    ensures Records(fs, es)
  {
  }

  lemma RecordsMore(fs: seq<Frame>, es: seq<Entry>, e: Entry)
    requires Records(fs, es) && e.rec.Valid()
    ensures Records(fs + [Encode(e)], es + [e])
  {
    var gs, ds := fs + [Encode(e)], es + [e];
    forall i | 0 <= i < |gs| ensures IsRecord(gs, ds, i) { if i < |fs| { assert IsRecord(fs, es, i); } }
  }

  lemma RecordsBoth(fs: seq<Frame>, es: seq<Entry>, gs: seq<Frame>, ds: seq<Entry>)
    requires Records(fs, es) && Records(gs, ds)
    ensures Records(fs + gs, es + ds)
  {
    forall i | 0 <= i < |fs| + |gs| ensures IsRecord(fs + gs, es + ds, i) {
      if i < |fs| { assert IsRecord(fs, es, i); } else { assert IsRecord(gs, ds, i - |fs|); }
    }
  }

  /** `r` holds the records `q`, as they lie in the halves. */
  ghost predicate Lie(r: Ring<Frame>, q: Ring<Entry>)
  {
    Records(r.older, q.older) && Records(r.current, q.current) && AllRingable(q.older) && AllRingable(q.current)
  }

  /** Both passes over both halves: the bytes of what is kept, and how many records that is. */
  method FlushHalves(older: seq<Byte>, current: seq<Byte>, now: nat, pre: nat, ghost r: Ring<Frame>, ghost q: Ring<Entry>)
    returns (out: seq<Byte>, kept: nat, ghost fs: seq<Frame>)
    requires Lie(r, q) && older == Concat(r.older) && current == Concat(r.current)
    ensures Records(fs, Kept(q, now, pre)) && out == Concat(fs) && kept == |fs|
  {
    RecordsFrames(r.older, q.older);
    RecordsFrames(r.current, q.current);
    var c := SumHalf(older, START, q.older);
    c := SumHalf(current, c, q.current);
    AfterBoth(START, q.older, q.current);
    var nowRel := NowRel(c, now);
    var d, startOlder, keptOlder, first := KeepHalf(older, START, nowRel, pre, q.older);
    var _, startCurrent, keptCurrent, second := KeepHalf(current, d, nowRel, pre, q.current);
    fs := KeptRecords(q, now, pre, nowRel, first, second);
    out := older[startOlder..] + current[startCurrent..];
    kept := keptOlder + keptCurrent;
  }

  /** The records from the two splits on, as frames. */
  lemma KeptRecords(q: Ring<Entry>, now: nat, pre: nat, nowRel: int, first: nat, second: nat) returns (fs: seq<Frame>)
    requires nowRel == NowRel(PreTriggerSpec.After(START, q.All()), now)
    requires AllValid(q.older) && AllValid(q.current)
    requires Splits(START, q.older, nowRel, pre, first)
    requires Splits(PreTriggerSpec.After(START, q.older), q.current, nowRel, pre, second)
    ensures Records(fs, Kept(q, now, pre)) && |fs| == |q.older| - first + |q.current| - second
    ensures R.Offset(q.older, first) <= |EncodeAll(q.older)| && R.Offset(q.current, second) <= |EncodeAll(q.current)|
    ensures Concat(fs) == EncodeAll(q.older)[R.Offset(q.older, first)..] + EncodeAll(q.current)[R.Offset(q.current, second)..]
  {
    KeptFrom(q, now, pre, nowRel, first, second);
    EncodeFrom(q.older, first);
    EncodeFrom(q.current, second);
    fs := Frames(Kept(q, now, pre));
    FramesRecords(fs, Kept(q, now, pre));
  }

  lemma KeptFrom(q: Ring<Entry>, now: nat, pre: nat, nowRel: int, first: nat, second: nat)
    requires nowRel == NowRel(PreTriggerSpec.After(START, q.All()), now)
    requires AllValid(q.older) && AllValid(q.current)
    requires Splits(START, q.older, nowRel, pre, first)
    requires Splits(PreTriggerSpec.After(START, q.older), q.current, nowRel, pre, second)
    ensures Kept(q, now, pre) == q.older[first..] + q.current[second..] && AllValid(Kept(q, now, pre))
    ensures AllValid(q.older[first..]) && AllValid(q.current[second..])
    ensures EncodeAll(Kept(q, now, pre)) == EncodeAll(q.older[first..]) + EncodeAll(q.current[second..])
  {
    SplitIsFirst(START, q.older, nowRel, pre, first);
    SplitIsFirst(PreTriggerSpec.After(START, q.older), q.current, nowRel, pre, second);
    EncodeTwo(q.older[first..], q.current[second..]);
  }

  /** The halves' bytes after one more record. */
  lemma PutBytes(r: Ring<Frame>, half: nat, f: Frame)
    ensures var p, flips := PreTriggerSpec.Put(r, half, f), |Concat(r.current)| + |f| > half;
            && Concat(p.older) == (if flips then Concat(r.current) else Concat(r.older))
            && Concat(p.current) == (if flips then f else Concat(r.current) + f)
  {
    ConcatMore(r.current, f);
  }

  const EMPTY: Ring<Frame> := Ring([], [])

  lemma EmptyRing()
    ensures Concat([]) == [] && Suffix(EMPTY.All(), []) && Trunc32(0) == 0
  {
    assert EMPTY.All() == [];
  }

  lemma CountsUp(count: nat, kept: nat)
    requires count < U32
    ensures Trunc32(kept + Trunc32(count - kept)) == count
  {
    var q := (count - kept) / U32;
    assert kept + Trunc32(count - kept) == count + (-q) * U32;
    ModShift(count, -q);
  }

  lemma CountStep(n: nat)
    ensures Trunc32(Trunc32(n) + 1) == Trunc32(n + 1)
  {
  }

  lemma ConcatMore(fs: seq<Frame>, f: Frame)
    ensures Concat(fs + [f]) == Concat(fs) + f && Concat([f]) == f
  {
    assert (fs + [f])[..|fs|] == fs && [f][..0] == [];
  }

  // ------------------------------------------------------------------ the ring

  class PreRing {
    const half: nat
    const pre: nat
    const lo: array<Byte>
    const hi: array<Byte>
    var lenLo: nat
    var lenHi: nat
    var inHi: bool
    var count: nat
    var lost: nat
    ghost var ring: Ring<Frame>
    ghost var log: seq<Frame>

    function Current(): seq<Byte>
      requires lenLo <= lo.Length && lenHi <= hi.Length
      reads this, lo, hi
    {
      if inHi then hi[..lenHi] else lo[..lenLo]
    }

    function Older(): seq<Byte>
      requires lenLo <= lo.Length && lenHi <= hi.Length
      reads this, lo, hi
    {
      if inHi then lo[..lenLo] else hi[..lenHi]
    }

    /** The halves hold the ring's records. */
    ghost predicate Holding()
      reads this, lo, hi
    {
      && 32 <= half == lo.Length == hi.Length && lo != hi && lenLo <= half && lenHi <= half
      && Current() == Concat(ring.current) && Older() == Concat(ring.older)
    }

    /** And the ring is the end of everything put since boot or the re-arm. */
    ghost predicate Valid()
      reads this, lo, hi
    {
      Holding() && Suffix(ring.All(), log) && count == Trunc32(|log|) && lost < U32
    }

    constructor (half: nat, preMs: nat)
      requires half >= 32
      ensures Valid() && ring == Ring([], []) && log == [] && fresh(lo) && fresh(hi)
      ensures this.half == half && pre == preMs * 1_000_000 && lost == 0
    {
      this.half, pre := half, preMs * 1_000_000;
      lo, hi := new Byte[half](_ => 0), new Byte[half](_ => 0);
      lenLo, lenHi, inHi, count, lost := 0, 0, false, 0, 0;
      ring, log := Ring([], []), [];
    }

    method Rearm()
      requires Valid()
      modifies this
      ensures Valid() && ring == Ring([], []) && log == [] && lost == 0
    {
      EmptyRing();
      lenLo, lenHi, inHi, count, lost := 0, 0, false, 0, 0;
      ring, log := Ring([], []), [];
      assert Current() == [] && Older() == [];
    }

    /** Append one packed record. */
    method Put(rec: Frame)
      requires Valid() && |rec| <= half
      modifies this, lo, hi
      ensures Valid() && ring == PreTriggerSpec.Put(old(ring), half, rec) && log == old(log) + [rec] && lost == old(lost)
    {
      PutSuffix(ring, half, rec, log);
      CountStep(|log|);
      Append(rec);
      count := Trunc32(count + 1);
      log := log + [rec];
    }

    method Append(rec: Frame)
      requires Holding() && |rec| <= half
      modifies this`lenLo, this`lenHi, this`inHi, this`ring, lo, hi
      ensures Holding() && ring == PreTriggerSpec.Put(old(ring), half, rec)
    {
      ghost var next := PreTriggerSpec.Put(ring, half, rec);
      PutBytes(ring, half, rec);
      Place(rec);
      ring := next;
    }

    /** Into the current half, or into the other one, cleared, when the current one is full. */
    method Place(rec: Frame)
      requires half == lo.Length == hi.Length && lo != hi && lenLo <= half && lenHi <= half && |rec| <= half
      modifies this`lenLo, this`lenHi, this`inHi, lo, hi
      ensures lenLo <= half && lenHi <= half
      ensures var flips := |old(Current())| + |rec| > half;
              && Older() == (if flips then old(Current()) else old(Older()))
              && Current() == (if flips then rec else old(Current()) + rec)
    {
      var length := if inHi then lenHi else lenLo;
      if length + |rec| > half {
        inHi := !inHi;
        if inHi { lenHi := 0; } else { lenLo := 0; }
      }
      Store(rec);
    }

    /** The copy into the current half. */
    method Store(rec: Frame)
      requires half == lo.Length == hi.Length && lo != hi && lenLo <= half && lenHi <= half
      requires (if inHi then lenHi else lenLo) + |rec| <= half
      modifies this`lenLo, this`lenHi, lo, hi
      ensures lenLo <= half && lenHi <= half
      ensures Current() == old(Current()) + rec && Older() == old(Older())
    {
      if inHi {
        forall i | 0 <= i < |rec| { hi[lenHi + i] := rec[i]; }
        lenHi := lenHi + |rec|;
      } else {
        forall i | 0 <= i < |rec| { lo[lenLo + i] := rec[i]; }
        lenLo := lenLo + |rec|;
      }
    }

    /** The flush: the bytes of the records kept, how many they are, and how many were not. */
    method Flush(now: nat, ghost q: Ring<Entry>) returns (out: seq<Byte>, kept: nat, ghost fs: seq<Frame>)
      requires Valid() && Lie(ring, q)
      modifies this`lost
      ensures Valid() && ring == old(ring) && log == old(log)
      ensures Records(fs, Kept(q, now, pre)) && out == Concat(fs) && kept == |fs|
      ensures lost == Trunc32(count - kept) && Trunc32(kept + lost) == count
    {
      out, kept, fs := FlushHalves(Older(), Current(), now, pre, ring, q);
      lost := Trunc32(count - kept);
      CountsUp(count, kept);
    }
  }
}
