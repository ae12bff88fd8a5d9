/** The pre-trigger history: the ring's contents, the summed 32-bit clock, and the records the flush keeps. */
module PreTriggerSpec {
  import opened Words
  import opened TraceFormat

  /** The ring, oldest first: the older half's records, then the current half's. */
  datatype Ring<T> = Ring(older: seq<T>, current: seq<T>)
  {
    function All(): seq<T> { older + current }
  }

  /** A record as it lies in the ring. */
  type Frame = seq<Byte>

  /** One more record: when the current half is full the older one gives way. */
  function Put(r: Ring<Frame>, half: nat, f: Frame): Ring<Frame>
  {
    if |Concat(r.current)| + |f| > half then Ring(r.current, [f]) else Ring(r.older, r.current + [f])
  }

  ghost predicate Suffix<T(!new)>(s: seq<T>, of: seq<T>) { |s| <= |of| && of[|of| - |s|..] == s }

  /** The ring stays the end of everything put. */
  lemma PutSuffix(r: Ring<Frame>, half: nat, f: Frame, log: seq<Frame>)
    requires Suffix(r.All(), log)
    ensures Suffix(Put(r, half, f).All(), log + [f])
  {
    var p := Put(r, half, f).All();
    assert r.All() + [f] == (log + [f])[|log| - |r.All()|..];
    if |Concat(r.current)| + |f| > half {
      assert p == (r.All() + [f])[|r.older|..];
      assert p == (log + [f])[|log| - |r.current|..];
    } else {
      assert p == r.All() + [f];
    }
  }

  /** Nothing has been given up, or the older half is full but for less than one record. */
  predicate Deep(r: Ring<Frame>, half: nat, log: seq<Frame>)
  {
    r.All() == log || (r.current != [] && |Concat(r.older)| + |r.current[0]| > half)
  }

  predicate Fits(r: Ring<Frame>, half: nat) { |Concat(r.older)| <= half && |Concat(r.current)| <= half }

  lemma PutDeep(r: Ring<Frame>, half: nat, f: Frame, log: seq<Frame>)
    requires Deep(r, half, log) && Fits(r, half) && |f| <= half
    ensures Deep(Put(r, half, f), half, log + [f]) && Fits(Put(r, half, f), half)
  {
    assert (r.current + [f])[..|r.current|] == r.current && [f][..0] == [];
    if |Concat(r.current)| + |f| <= half && r.All() == log { assert Put(r, half, f).All() == log + [f]; }
  }

  /** The ring after the records `fs`, from empty. */
  function RingAfter(fs: seq<Frame>, half: nat): Ring<Frame>
  {
    if fs == [] then Ring([], []) else Put(RingAfter(fs[..|fs| - 1], half), half, fs[|fs| - 1])
  }

  ghost predicate Held(r: Ring<Frame>, half: nat, log: seq<Frame>) { Suffix(r.All(), log) && Fits(r, half) && Deep(r, half, log) }

  lemma PutHeld(r: Ring<Frame>, half: nat, f: Frame, log: seq<Frame>, next: seq<Frame>)
    requires Held(r, half, log) && |f| <= half && next == log + [f]
    ensures Held(Put(r, half, f), half, next)
  {
    PutSuffix(r, half, f, log);
    PutDeep(r, half, f, log);
  }

  /** The ring is the end of the history, never more than two halves of it, and all of it or more than a half less one record. */
  lemma {:induction false} HistoryHeld(fs: seq<Frame>, half: nat)
    requires forall i | 0 <= i < |fs| :: |fs[i]| <= half
    ensures Held(RingAfter(fs, half), half, fs)
  {
    if fs == [] {
      assert RingAfter(fs, half).All() == fs;
    } else {
      var n := |fs| - 1;
      HistoryHeld(fs[..n], half);
      PutHeld(RingAfter(fs[..n], half), half, fs[n], fs[..n], fs);
    }
  }

  /** What enters the ring: markers and heartbeats. */
  predicate Ringable(e: Entry) { e.rec.Valid() && (e.rec.Marker? || e.rec.Heartbeat?) }

  ghost predicate AllRingable(es: seq<Entry>) { forall i | 0 <= i < |es| :: Ringable(es[i]) }

  // ------------------------------------------------------------------ the summed clock

  /** The time since the oldest record, summed from 32-bit differences; `prev` is the last stamp read. */
  datatype Clock = Clock(rel: nat, prev: Option<nat>)

  const START: Clock := Clock(0, None)

  function Tick(c: Clock, stamp: nat): Clock
  {
    Clock(c.rel + (if c.prev.None? then 0 else Trunc32(stamp - c.prev.value)), Some(stamp))
  }

  function After(c: Clock, es: seq<Entry>): Clock
  {
    if es == [] then c else Tick(After(c, es[..|es| - 1]), Stamp(es[|es| - 1].t))
  }

  lemma {:induction false} AfterBoth(c: Clock, a: seq<Entry>, b: seq<Entry>)
    ensures After(c, a + b) == After(After(c, a), b)
    decreases |b|
  {
    if b == [] {
      assert a + b == a;
    } else {
      assert (a + b)[..|a + b| - 1] == a + b[..|b| - 1];
      AfterBoth(c, a, b[..|b| - 1]);
    }
  }

  /** The clock at the flush; 0 when the ring is empty. */
  function NowRel(c: Clock, now: nat): nat
  {
    if c.prev.None? then 0 else c.rel + Trunc32(now - c.prev.value)
  }

  /** The true step from one record to the next is forward and less than a turn of the 32-bit clock. */
  predicate Near(es: seq<Entry>, i: nat)
    requires 0 < i < |es|
  {
    0 <= es[i].t - es[i - 1].t < U32
  }

  ghost predicate Steady(es: seq<Entry>) { forall i | 0 < i < |es| :: Near(es, i) }

  /** And the last record is less than a turn old. */
  ghost predicate SteadyTo(es: seq<Entry>, now: int)
  {
    Steady(es) && (es != [] ==> 0 <= now - es[|es| - 1].t < U32)
  }

  /** The summed clock is the true time since the oldest record. */
  lemma {:induction false} SummedIsTrue(es: seq<Entry>, k: nat)
    requires Steady(es) && 0 < k <= |es|
    ensures es[0].t <= es[k - 1].t
    ensures After(START, es[..k]) == Clock(es[k - 1].t - es[0].t, Some(Stamp(es[k - 1].t)))
  {
    assert es[..k][..k - 1] == es[..k - 1];
    if k > 1 {
      SummedIsTrue(es, k - 1);
      assert Near(es, k - 1);
      StampDiff(es[k - 1].t, es[k - 2].t);
    }
  }

  lemma StampDiff(a: int, b: int)
    requires 0 <= a - b < U32
    ensures Trunc32(Stamp(a) - Stamp(b)) == a - b
  {
    TruncDiff(a, b);
  }

  /** A record's age as the flush computes it. */
  function Age(c: Clock, es: seq<Entry>, nowRel: int, i: nat): int
    requires i < |es|
  {
    nowRel - After(c, es[..i + 1]).rel
  }

  lemma NowIsTrue(es: seq<Entry>, now: int)
    requires SteadyTo(es, now) && es != []
    ensures NowRel(After(START, es), Stamp(now)) == now - es[0].t
  {
    SummedIsTrue(es, |es|);
    assert es[..|es|] == es;
    StampDiff(now, es[|es| - 1].t);
  }

  lemma AgeFrom(es: seq<Entry>, i: nat, nowRel: int)
    requires Steady(es) && i < |es|
    ensures Age(START, es, nowRel, i) == nowRel - (es[i].t - es[0].t)
  {
    SummedIsTrue(es, i + 1);
  }

  lemma AgeIsTrue(es: seq<Entry>, now: int, i: nat)
    requires SteadyTo(es, now) && i < |es|
    ensures Age(START, es, NowRel(After(START, es), Stamp(now)), i) == now - es[i].t
  {
    NowIsTrue(es, now);
    AgeFrom(es, i, now - es[0].t);
  }

  // ------------------------------------------------------------------ what is kept

  /** The records from the first one at most `pre` old. */
  function Recent(es: seq<Entry>, now: int, pre: nat): seq<Entry>
  {
    if es == [] || now - es[0].t <= pre then es else Recent(es[1..], now, pre)
  }

  /** `i` splits the records by age: all before it are too old, the one at it is not. */
  ghost predicate Splits(c: Clock, es: seq<Entry>, nowRel: int, pre: nat, i: nat)
  {
    && i <= |es|
    && (forall j | 0 <= j < i :: Age(c, es, nowRel, j) > pre)
    && (i < |es| ==> Age(c, es, nowRel, i) <= pre)
  }

  lemma {:induction false} RecentFrom(es: seq<Entry>, now: int, pre: nat, i: nat)
    requires i <= |es| && (forall j | 0 <= j < i :: now - es[j].t > pre) && (i < |es| ==> now - es[i].t <= pre)
    ensures Recent(es, now, pre) == es[i..]
    decreases i
  {
    if i > 0 {
      assert es[1..][i - 1..] == es[i..];
      RecentFrom(es[1..], now, pre, i - 1);
    }
  }

  /** In a forward history the recent records are exactly those at most `pre` old, and a suffix. */
  lemma {:induction false} RecentExact(es: seq<Entry>, now: int, pre: nat, i: nat)
    requires Steady(es) && i < |es|
    ensures Suffix(Recent(es, now, pre), es)
    ensures now - es[i].t <= pre <==> i >= |es| - |Recent(es, now, pre)|
    decreases |es|
  {
    if now - es[0].t > pre {
      var rest := es[1..];
      assert Steady(rest) by { forall j | 0 < j < |rest| ensures Near(rest, j) { assert Near(es, j + 1); } }
      if |rest| > 0 { RecentExact(rest, now, pre, if i > 0 then i - 1 else 0); }
      assert Suffix(Recent(es, now, pre), es);
    } else {
      Forward(es, 0, i);
    }
  }

  lemma {:induction false} Forward(es: seq<Entry>, i: nat, j: nat)
    requires Steady(es) && i <= j < |es|
    ensures es[i].t <= es[j].t
    decreases j
  {
    if i < j {
      Forward(es, i, j - 1);
      assert Near(es, j);
    }
  }

  // ------------------------------------------------------------------ the flush of two halves

  lemma OlderAge(r: Ring<Entry>, nowRel: int, j: nat)
    requires j < |r.older|
    ensures Age(START, r.older, nowRel, j) == Age(START, r.All(), nowRel, j)
  {
    assert r.All()[..j + 1] == r.older[..j + 1];
  }

  lemma CurrentAge(r: Ring<Entry>, nowRel: int, j: nat)
    requires j < |r.current|
    ensures Age(After(START, r.older), r.current, nowRel, j) == Age(START, r.All(), nowRel, |r.older| + j)
  {
    assert r.All()[..|r.older| + j + 1] == r.older + r.current[..j + 1];
    AfterBoth(START, r.older, r.current[..j + 1]);
  }

  /** The split of each half, found by its own scan, is the split of the whole ring by true age. */
  lemma OlderSplit(r: Ring<Entry>, now: int, pre: nat, nowRel: int, from: nat)
    requires SteadyTo(r.All(), now) && nowRel == NowRel(After(START, r.All()), Stamp(now))
    requires Splits(START, r.older, nowRel, pre, from)
    ensures forall j | 0 <= j < from :: now - r.older[j].t > pre
    ensures from < |r.older| ==> now - r.older[from].t <= pre
  {
    forall j | 0 <= j < |r.older| ensures Age(START, r.older, nowRel, j) == now - r.older[j].t {
      OlderAge(r, nowRel, j);
      AgeIsTrue(r.All(), now, j);
    }
  }

  lemma CurrentSplit(r: Ring<Entry>, now: int, pre: nat, nowRel: int, from: nat)
    requires SteadyTo(r.All(), now) && nowRel == NowRel(After(START, r.All()), Stamp(now))
    requires Splits(After(START, r.older), r.current, nowRel, pre, from)
    ensures forall j | 0 <= j < from :: now - r.current[j].t > pre
    ensures from < |r.current| ==> now - r.current[from].t <= pre
  {
    forall j | 0 <= j < |r.current| ensures Age(After(START, r.older), r.current, nowRel, j) == now - r.current[j].t {
      CurrentAge(r, nowRel, j);
      AgeIsTrue(r.All(), now, |r.older| + j);
    }
  }

  /** Once a record of the older half is recent, the whole current half is. */
  lemma CurrentAllRecent(r: Ring<Entry>, now: int, pre: nat, first: nat, j: nat)
    requires Steady(r.All()) && first < |r.older| && now - r.older[first].t <= pre && j < |r.current|
    ensures now - r.current[j].t <= pre
  {
    assert r.All()[first] == r.older[first] && r.All()[|r.older| + j] == r.current[j];
    Forward(r.All(), first, |r.older| + j);
  }

  lemma KeptIsRecent(r: Ring<Entry>, now: int, pre: nat, first: nat, second: nat)
    requires Steady(r.All()) && first <= |r.older| && second <= |r.current|
    requires (forall j | 0 <= j < first :: now - r.older[j].t > pre) && (first < |r.older| ==> now - r.older[first].t <= pre)
    requires (forall j | 0 <= j < second :: now - r.current[j].t > pre) && (second < |r.current| ==> now - r.current[second].t <= pre)
    ensures r.older[first..] + r.current[second..] == Recent(r.All(), now, pre)
  {
    var all := r.All();
    if first < |r.older| {
      if second > 0 { CurrentAllRecent(r, now, pre, first, 0); }
      assert second == 0;
      assert all[first..] == r.older[first..] + r.current[second..];
      RecentFrom(all, now, pre, first);
    } else {
      assert all[|r.older| + second..] == r.older[first..] + r.current[second..];
      RecentFrom(all, now, pre, |r.older| + second);
    }
  }

  /** The first record at or after `i` whose computed age is at most `pre`, the length if none. */
  function First(c: Clock, es: seq<Entry>, nowRel: int, pre: nat, i: nat): (j: nat)
    requires i <= |es|
    ensures i <= j <= |es|
    decreases |es| - i
  {
    if i == |es| || Age(c, es, nowRel, i) <= pre then i else First(c, es, nowRel, pre, i + 1)
  }

  lemma {:induction false} FirstSplits(c: Clock, es: seq<Entry>, nowRel: int, pre: nat, i: nat)
    requires i <= |es| && forall j | 0 <= j < i :: Age(c, es, nowRel, j) > pre
    ensures Splits(c, es, nowRel, pre, First(c, es, nowRel, pre, i))
    decreases |es| - i
  {
    if i < |es| && Age(c, es, nowRel, i) > pre { FirstSplits(c, es, nowRel, pre, i + 1); }
  }

  lemma SplitIsFirst(c: Clock, es: seq<Entry>, nowRel: int, pre: nat, i: nat)
    requires Splits(c, es, nowRel, pre, i)
    ensures i == First(c, es, nowRel, pre, 0)
  {
    FirstSplits(c, es, nowRel, pre, 0);
    OneSplit(c, es, nowRel, pre, i, First(c, es, nowRel, pre, 0));
  }

  lemma OneSplit(c: Clock, es: seq<Entry>, nowRel: int, pre: nat, i: nat, j: nat)
    requires Splits(c, es, nowRel, pre, i) && Splits(c, es, nowRel, pre, j)
    ensures i == j
  {
  }

  /** What a flush at the stamp `now` keeps, by the ages it computes. */
  function Kept(r: Ring<Entry>, now: nat, pre: nat): seq<Entry>
  {
    var nowRel := NowRel(After(START, r.All()), now);
    r.older[First(START, r.older, nowRel, pre, 0)..] + r.current[First(After(START, r.older), r.current, nowRel, pre, 0)..]
  }

  /**
   * The flush is exact: with forward stamps less than 2^32 ns apart, what it keeps is exactly the ring's
   * records at most `pre` old at the true time of the flush.
   */
  lemma FlushIsRecent(r: Ring<Entry>, now: int, pre: nat)
    requires SteadyTo(r.All(), now)
    ensures Kept(r, Stamp(now), pre) == Recent(r.All(), now, pre)
  {
    var nowRel := NowRel(After(START, r.All()), Stamp(now));
    FirstSplits(START, r.older, nowRel, pre, 0);
    FirstSplits(After(START, r.older), r.current, nowRel, pre, 0);
    var first, second := First(START, r.older, nowRel, pre, 0), First(After(START, r.older), r.current, nowRel, pre, 0);
    OlderSplit(r, now, pre, nowRel, first);
    CurrentSplit(r, now, pre, nowRel, second);
    KeptIsRecent(r, now, pre, first, second);
  }
}
