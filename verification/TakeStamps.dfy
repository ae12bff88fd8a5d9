/** The forwarded takes: the sink's delta encoding of source stamps, and the decoder's join. */
module TakeStamps {
  import opened Words

  const NO_INPUT: nat := 0xFF
  const NO_SECOND: nat := 0xFFFF_FFFF
  const SEQ: int := 0x100_0000
  const NS: int := 1_000_000_000

  // ------------------------------------------------------------------ the sink

  /** One input: its slot plus one (0: not bound), its sampling, takes since the last one forwarded, the last second sent. */
  datatype Input = Input(slot: nat, keep: nat, n: nat, sec: nat)

  /** The inputs, the slot of the last take, and the input whose stamp follows. */
  datatype Sink = Sink(inputs: seq<Input>, last: nat, cur: nat)

  /** The executor's trace events: a take is slot and sequence number, then its stamp's two words. */
  datatype Event = Take(slot: nat, seqNo: nat) | Second(x: nat) | Nanosecond(x: nat)

  /** What is marked; a take's arg packs the input and the sequence number. */
  datatype Mark = TakeMark(arg: nat) | SecondMark(arg: nat) | NanosecondMark(arg: nat)

  /** The first input of `inputs[from..]` bound to `slot`. */
  function Find(inputs: seq<Input>, slot: nat, from: nat): (i: nat)
    requires from <= |inputs|
    ensures from <= i <= |inputs| && (i < |inputs| ==> inputs[i].slot == (slot + 1) % 0x100)
    ensures forall j | from <= j < i :: inputs[j].slot != (slot + 1) % 0x100
    decreases |inputs| - from
  {
    if from == |inputs| || inputs[from].slot == (slot + 1) % 0x100 then from else Find(inputs, slot, from + 1)
  }

  function Step(s: Sink, e: Event): Sink
  {
    match e
    case Take(slot, _) =>
      var i := Find(s.inputs, slot, 0);
      if i == |s.inputs| then s.(last := slot, cur := NO_INPUT)
      else
        var n := (s.inputs[i].n + 1) % 0x100;
        if n >= s.inputs[i].keep then Sink(s.inputs[i := s.inputs[i].(n := 0)], slot, i)
        else Sink(s.inputs[i := s.inputs[i].(n := n)], slot, NO_INPUT)
    case Second(x) => if s.cur < |s.inputs| then s.(inputs := s.inputs[s.cur := s.inputs[s.cur].(sec := x)]) else s
    case Nanosecond(_) => s.(cur := NO_INPUT)
  }

  /** What the event puts into the trace. */
  function Sends(s: Sink, e: Event): seq<Mark>
  {
    match e
    case Take(slot, seqNo) =>
      var t := Step(s, e);
      if t.cur < |t.inputs| then [TakeMark(t.cur * SEQ + seqNo % SEQ)] else []
    case Second(x) => if s.cur < |s.inputs| && s.inputs[s.cur].sec != x then [SecondMark(x)] else []
    case Nanosecond(x) => if s.cur < |s.inputs| then [NanosecondMark(x)] else []
  }

  // ------------------------------------------------------------------ the join

  /** A take as the decoder reports it; without a second it has no stamp. */
  datatype Joined = Joined(input: nat, seqNo: nat, stamp: Option<nat>)

  /** The takes so far, whether the last one is still open, and the last second of each input. */
  datatype Joiner = Joiner(out: seq<Joined>, open: bool, secs: map<nat, nat>)

  const EMPTY: Joiner := Joiner([], false, map[])

  function Join(d: Joiner, m: Mark): Joiner
  {
    match m
    case TakeMark(arg) => Joiner(d.out + [Joined(arg / SEQ, arg % SEQ, None)], true, d.secs)
    case SecondMark(arg) => if d.open && d.out != [] then d.(secs := d.secs[d.out[|d.out| - 1].input := arg]) else d
    case NanosecondMark(arg) =>
      if d.open && d.out != [] then
        var j := d.out[|d.out| - 1];
        var stamp := if j.input in d.secs then Some(d.secs[j.input] * NS + arg) else j.stamp;
        Joiner(d.out[..|d.out| - 1] + [j.(stamp := stamp)], false, d.secs)
      else d
  }

  function JoinAll(d: Joiner, ms: seq<Mark>): Joiner
    decreases |ms|
  {
    if ms == [] then d else JoinAll(Join(d, ms[0]), ms[1..])
  }

  lemma {:induction false} JoinBoth(d: Joiner, a: seq<Mark>, b: seq<Mark>)
    ensures JoinAll(d, a + b) == JoinAll(JoinAll(d, a), b)
    decreases |a|
  {
    if a == [] {
      assert a + b == b;
    } else {
      assert (a + b)[0] == a[0] && (a + b)[1..] == a[1..] + b;
      JoinBoth(Join(d, a[0]), a[1..], b);
    }
  }

  lemma JoinThree(d: Joiner, a: seq<Mark>, b: seq<Mark>, c: seq<Mark>)
    ensures JoinAll(d, a + b + c) == JoinAll(JoinAll(JoinAll(d, a), b), c)
  {
    JoinBoth(d, a + b, c);
    JoinBoth(d, a, b);
  }

  lemma JoinFew(d: Joiner, m: Mark)
    ensures JoinAll(d, []) == d && JoinAll(d, [m]) == Join(d, m)
  {
  }

  // ------------------------------------------------------------------ one take

  /** A take with its stamp, as one block of events. */
  datatype Block = Block(slot: nat, seqNo: nat, sec: nat, nsec: nat)
  {
    predicate Valid() { slot < 0xFF && seqNo < 0x100_0000 && sec < U32 && nsec < U32 }
  }

  function After(s: Sink, b: Block): Sink
  {
    Step(Step(Step(s, Take(b.slot, b.seqNo)), Second(b.sec)), Nanosecond(b.nsec))
  }

  function Emits(s: Sink, b: Block): seq<Mark>
  {
    var t := Step(s, Take(b.slot, b.seqNo));
    Sends(s, Take(b.slot, b.seqNo)) + Sends(t, Second(b.sec)) + Sends(Step(t, Second(b.sec)), Nanosecond(b.nsec))
  }

  predicate Counted(x: Input) { x.slot != 0 ==> 1 <= x.keep <= 0xFF && x.n < x.keep }

  predicate Sized(s: Sink) { |s.inputs| < NO_INPUT && forall i | 0 <= i < |s.inputs| :: Counted(s.inputs[i]) }

  /** The input the block is forwarded for, or none. */
  function Forwarded(s: Sink, b: Block): Option<nat>
  {
    var i := Find(s.inputs, b.slot, 0);
    if i < |s.inputs| && s.inputs[i].n + 1 >= s.inputs[i].keep then Some(i) else None
  }

  /** Sink and decoder agree on the last second sent of each input. */
  ghost predicate Agree(s: Sink, d: Joiner)
  {
    && !d.open
    && forall i | 0 <= i < |s.inputs| && s.inputs[i].slot != 0 ::
         s.inputs[i].sec == if i in d.secs then d.secs[i] else NO_SECOND
  }

  /** The take as the decoder can recover it: its stamp, unless no second of its input ever went out. */
  function Recovered(d: Joiner, i: nat, b: Block): Joined
  {
    Joined(i, b.seqNo, if i in d.secs || b.sec != NO_SECOND then Some(b.sec * NS + b.nsec) else None)
  }

  lemma PackBack(i: nat, seqNo: nat)
    requires seqNo < SEQ
    ensures (i * SEQ + seqNo) / SEQ == i && (i * SEQ + seqNo) % SEQ == seqNo
  {
  }

  /** What a forwarded block emits, and what the sink remembers of it. */
  lemma ForwardedBlock(s: Sink, b: Block, i: nat)
    requires Sized(s) && b.Valid() && Forwarded(s, b) == Some(i)
    ensures i < |s.inputs| && After(s, b) == Sink(s.inputs[i := s.inputs[i].(n := 0, sec := b.sec)], b.slot, NO_INPUT)
    ensures Emits(s, b) == [TakeMark(i * SEQ + b.seqNo)]
                           + (if s.inputs[i].sec != b.sec then [SecondMark(b.sec)] else []) + [NanosecondMark(b.nsec)]
  {
  }

  lemma DroppedBlock(s: Sink, b: Block)
    requires Sized(s) && b.Valid() && Forwarded(s, b).None?
    ensures Emits(s, b) == []
    ensures var i := Find(s.inputs, b.slot, 0);
            After(s, b) == (if i < |s.inputs| then s.(inputs := s.inputs[i := s.inputs[i].(n := s.inputs[i].n + 1)]) else s)
                           .(last := b.slot, cur := NO_INPUT)
  {
  }

  /** A take's marks through the decoder. */
  function Closed(d: Joiner, i: nat, seqNo: nat, secs: map<nat, nat>, nsec: nat): Joiner
  {
    Joiner(d.out + [Joined(i, seqNo, if i in secs then Some(secs[i] * NS + nsec) else None)], false, secs)
  }

  lemma JoinOpen(d: Joiner, i: nat, seqNo: nat, secs: map<nat, nat>, nsec: nat)
    ensures Join(Joiner(d.out + [Joined(i, seqNo, None)], true, secs), NanosecondMark(nsec)) == Closed(d, i, seqNo, secs, nsec)
  {
    assert (d.out + [Joined(i, seqNo, None)])[..|d.out|] == d.out;
  }

  lemma JoinMarks(d: Joiner, i: nat, seqNo: nat, seconds: seq<Mark>, secs: map<nat, nat>, nsec: nat)
    requires seqNo < SEQ
    requires (seconds == [] && secs == d.secs) || (exists x: nat :: seconds == [SecondMark(x)] && secs == d.secs[i := x])
    ensures JoinAll(d, [TakeMark(i * SEQ + seqNo)] + seconds + [NanosecondMark(nsec)]) == Closed(d, i, seqNo, secs, nsec)
  {
    var take, open := TakeMark(i * SEQ + seqNo), Joiner(d.out + [Joined(i, seqNo, None)], true, d.secs);
    PackBack(i, seqNo);
    JoinThree(d, [take], seconds, [NanosecondMark(nsec)]);
    JoinFew(d, take);
    assert Join(d, take) == open;
    if seconds != [] {
      JoinFew(open, seconds[0]);
      JoinFew(open.(secs := secs), NanosecondMark(nsec));
    } else {
      JoinFew(open, NanosecondMark(nsec));
    }
    JoinOpen(d, i, seqNo, secs, nsec);
  }

  /** One forwarded block through the decoder. */
  lemma JoinBlock(s: Sink, d: Joiner, b: Block, i: nat)
    requires Sized(s) && b.Valid() && Forwarded(s, b) == Some(i) && Agree(s, d)
    ensures var secs := if i in d.secs || b.sec != NO_SECOND then d.secs[i := b.sec] else d.secs;
            JoinAll(d, Emits(s, b)) == Joiner(d.out + [Recovered(d, i, b)], false, secs)
  {
    ForwardedBlock(s, b, i);
    JoinSeen(d, b, i, s.inputs[i].sec);
  }

  /** The same of the marks alone; `sec` is the last second sent. */
  lemma JoinSeen(d: Joiner, b: Block, i: nat, sec: nat)
    requires b.Valid() && sec == if i in d.secs then d.secs[i] else NO_SECOND
    ensures var seconds := if sec != b.sec then [SecondMark(b.sec)] else [];
            var secs := if i in d.secs || b.sec != NO_SECOND then d.secs[i := b.sec] else d.secs;
            JoinAll(d, [TakeMark(i * SEQ + b.seqNo)] + seconds + [NanosecondMark(b.nsec)])
            == Joiner(d.out + [Recovered(d, i, b)], false, secs)
  {
    var seconds := if sec != b.sec then [SecondMark(b.sec)] else [];
    var secs := if sec != b.sec then d.secs[i := b.sec] else d.secs;
    JoinMarks(d, i, b.seqNo, seconds, secs, b.nsec);
    ClosedIs(d, b, i, sec != b.sec, secs);
  }

  lemma ClosedIs(d: Joiner, b: Block, i: nat, changed: bool, secs: map<nat, nat>)
    requires changed <==> (if i in d.secs then d.secs[i] else NO_SECOND) != b.sec
    requires secs == if changed then d.secs[i := b.sec] else d.secs
    ensures secs == if i in d.secs || b.sec != NO_SECOND then d.secs[i := b.sec] else d.secs
    ensures Closed(d, i, b.seqNo, secs, b.nsec) == Joiner(d.out + [Recovered(d, i, b)], false, secs)
  {
    assert !changed && i in d.secs ==> d.secs[i := b.sec] == d.secs;
  }

  lemma AgreeAfter(s: Sink, d: Joiner, b: Block)
    requires Sized(s) && b.Valid() && Agree(s, d)
    ensures Sized(After(s, b)) && Agree(After(s, b), JoinAll(d, Emits(s, b)))
  {
    var f := Forwarded(s, b);
    if f.Some? {
      ForwardedBlock(s, b, f.value);
      JoinBlock(s, d, b, f.value);
    } else {
      DroppedBlock(s, b);
    }
  }

  // ------------------------------------------------------------------ whole streams

  predicate Unsent(x: Input) { x.slot != 0 ==> x.n == x.keep - 1 && x.sec == NO_SECOND }

  /** Inputs bound just now: the next take is forwarded, and no second has been sent. */
  ghost predicate Fresh(s: Sink)
  {
    Sized(s) && forall i | 0 <= i < |s.inputs| :: Unsent(s.inputs[i])
  }

  /** `ts` are the sink's states along the blocks `bs`, from freshly bound inputs. */
  ghost predicate SinkRun(ts: seq<Sink>, bs: seq<Block>)
  {
    && |ts| == |bs| + 1 && Fresh(ts[0])
    && forall k | 0 <= k < |bs| :: SinkStep(ts, bs, k)
  }

  ghost predicate SinkStep(ts: seq<Sink>, bs: seq<Block>, k: nat)
    requires |ts| == |bs| + 1 && k < |bs|
  {
    bs[k].Valid() && ts[k + 1] == After(ts[k], bs[k])
  }

  /** Everything marked for the first `k` blocks. */
  function Marks(ts: seq<Sink>, bs: seq<Block>, k: nat): seq<Mark>
    requires |ts| == |bs| + 1 && k <= |bs|
  {
    if k == 0 then [] else Marks(ts, bs, k - 1) + Emits(ts[k - 1], bs[k - 1])
  }

  /** How many of the first `k` blocks are takes of `slot`. */
  function TakesOf(bs: seq<Block>, k: nat, slot: nat): nat
    requires k <= |bs|
  {
    if k == 0 then 0 else TakesOf(bs, k - 1, slot) + if bs[k - 1].slot == slot then 1 else 0
  }

  /** Block `k` is the first, or a multiple of `keep` takes after the first, of a bound input. */
  predicate Picked(s: Sink, bs: seq<Block>, k: nat)
    requires k < |bs|
  {
    var i := Find(s.inputs, bs[k].slot, 0);
    i < |s.inputs| && s.inputs[i].keep != 0 && TakesOf(bs, k, bs[k].slot) % s.inputs[i].keep == 0
  }

  /** A second of input `i` is among the first `k` blocks' marks. */
  ghost predicate SecondSent(s: Sink, bs: seq<Block>, k: nat, i: nat)
    requires k <= |bs|
  {
    exists j | 0 <= j < k :: Picked(s, bs, j) && Find(s.inputs, bs[j].slot, 0) == i && bs[j].sec != NO_SECOND
  }

  /** What the blocks say, without sink or decoder: one take in `keep` per input, with its stamp once a second is known. */
  ghost function Truth(s: Sink, bs: seq<Block>, k: nat): seq<Joined>
    requires k <= |bs|
  {
    if k == 0 then []
    else if Picked(s, bs, k - 1) then
      var i, b := Find(s.inputs, bs[k - 1].slot, 0), bs[k - 1];
      Truth(s, bs, k - 1) + [Joined(i, b.seqNo, if SecondSent(s, bs, k, i) then Some(b.sec * 1_000_000_000 + b.nsec) else None)]
    else Truth(s, bs, k - 1)
  }

  /** The sampling counter, for every slot a bound input listens to. */
  ghost predicate Counting(s: Sink, t: Sink, bs: seq<Block>, k: nat)
    requires k <= |bs|
  {
    && |t.inputs| == |s.inputs|
    && (forall i | 0 <= i < |s.inputs| :: t.inputs[i].slot == s.inputs[i].slot && t.inputs[i].keep == s.inputs[i].keep)
    && (forall slot: nat | slot < 0xFF :: CountsFor(s, t, bs, k, slot))
  }

  ghost predicate CountsFor(s: Sink, t: Sink, bs: seq<Block>, k: nat, slot: nat)
    requires k <= |bs| && |t.inputs| == |s.inputs|
  {
    var i := Find(s.inputs, slot, 0);
    i < |s.inputs| && s.inputs[i].keep != 0 ==> t.inputs[i].n == (TakesOf(bs, k, slot) - 1) % s.inputs[i].keep
  }

  lemma {:induction false} FindSame(a: seq<Input>, b: seq<Input>, slot: nat, from: nat)
    requires |a| == |b| && from <= |a| && forall i | 0 <= i < |a| :: a[i].slot == b[i].slot
    ensures Find(a, slot, from) == Find(b, slot, from)
    decreases |a| - from
  {
    if from < |a| { FindSame(a, b, slot, from + 1); }
  }

  lemma ModStep(c: int, keep: int)
    requires keep >= 1
    ensures var n := (c - 1) % keep; if n + 1 >= keep then c % keep == 0 else c % keep == n + 1
  {
    var r, q := c % keep, c / keep;
    if r > 0 {
      ModIs(c - 1, q, keep, r - 1);
    } else {
      assert (q - 1) * keep == q * keep - keep;
      ModIs(c - 1, q - 1, keep, keep - 1);
    }
  }

  lemma ModIs(x: int, q: int, keep: int, r: int)
    requires 0 <= r < keep && x == q * keep + r
    ensures x % keep == r
  {
    var d := x / keep - q;
    assert d * keep == (x / keep) * keep - q * keep;
    if d > 0 { AtLeastOne(d, keep); }
    if d < 0 { AtLeastOne(-d, keep); }
  }

  lemma AtLeastOne(d: int, keep: int)
    requires d >= 1 && keep > 0
    ensures d * keep >= keep
  {
    assert d * keep == (d - 1) * keep + keep;
  }

  /** The sink forwards exactly the blocks picked. */
  lemma ForwardsPicked(s: Sink, t: Sink, bs: seq<Block>, k: nat)
    requires Sized(s) && Sized(t) && k < |bs| && Counting(s, t, bs, k) && bs[k].Valid()
    ensures Forwarded(t, bs[k]) == if Picked(s, bs, k) then Some(Find(s.inputs, bs[k].slot, 0)) else None
  {
    FindSame(s.inputs, t.inputs, bs[k].slot, 0);
    var i := Find(s.inputs, bs[k].slot, 0);
    if i < |s.inputs| {
      assert CountsFor(s, t, bs, k, bs[k].slot);
      ModStep(TakesOf(bs, k, bs[k].slot), s.inputs[i].keep);
    }
  }

  /** What the block does to every input's counter. */
  lemma CounterAfter(s: Sink, t: Sink, b: Block)
    requires Sized(t) && b.Valid() && |t.inputs| == |s.inputs|
    requires forall i | 0 <= i < |s.inputs| :: t.inputs[i].slot == s.inputs[i].slot && t.inputs[i].keep == s.inputs[i].keep
    ensures var u, f := After(t, b), Find(s.inputs, b.slot, 0);
            && |u.inputs| == |s.inputs| && Sized(u)
            && forall i | 0 <= i < |s.inputs| ::
                 && u.inputs[i].slot == s.inputs[i].slot && u.inputs[i].keep == s.inputs[i].keep
                 && u.inputs[i].n == if i != f then t.inputs[i].n
                                     else if t.inputs[i].n + 1 >= t.inputs[i].keep then 0 else t.inputs[i].n + 1
  {
    FindSame(s.inputs, t.inputs, b.slot, 0);
    if Forwarded(t, b).Some? { ForwardedBlock(t, b, Forwarded(t, b).value); } else { DroppedBlock(t, b); }
  }

  lemma SlotOf(inputs: seq<Input>, a: nat, b: nat)
    requires a < 0xFF && b < 0xFF && Find(inputs, a, 0) < |inputs|
    ensures Find(inputs, a, 0) == Find(inputs, b, 0) <==> a == b
  {
  }

  lemma CountsNext(s: Sink, t: Sink, bs: seq<Block>, k: nat, slot: nat)
    requires k < |bs| && Sized(s) && Sized(t) && bs[k].Valid() && slot < 0xFF
    requires |t.inputs| == |s.inputs| && CountsFor(s, t, bs, k, slot)
    requires forall i | 0 <= i < |s.inputs| :: t.inputs[i].slot == s.inputs[i].slot && t.inputs[i].keep == s.inputs[i].keep
    ensures |After(t, bs[k]).inputs| == |s.inputs| && CountsFor(s, After(t, bs[k]), bs, k + 1, slot)
  {
    CounterAfter(s, t, bs[k]);
    var i := Find(s.inputs, slot, 0);
    if i < |s.inputs| {
      SlotOf(s.inputs, slot, bs[k].slot);
      ModStep(TakesOf(bs, k, slot), s.inputs[i].keep);
    }
  }

  lemma CountingFirst(s: Sink, bs: seq<Block>)
    requires Fresh(s)
    ensures Counting(s, s, bs, 0)
  {
    forall slot: nat | slot < 0xFF ensures CountsFor(s, s, bs, 0, slot) {
      var i := Find(s.inputs, slot, 0);
      if i < |s.inputs| { ModIs(-1, -1, s.inputs[i].keep, s.inputs[i].keep - 1); }
    }
  }

  lemma CountingNext(s: Sink, t: Sink, u: Sink, bs: seq<Block>, k: nat)
    requires k < |bs| && Sized(s) && Sized(t) && bs[k].Valid() && Counting(s, t, bs, k) && u == After(t, bs[k])
    ensures Sized(u) && Counting(s, u, bs, k + 1)
  {
    CounterAfter(s, t, bs[k]);
    var next := k + 1;
    forall slot: nat | slot < 0xFF ensures CountsFor(s, u, bs, next, slot) {
      assert CountsFor(s, t, bs, k, slot);
      CountsNext(s, t, bs, k, slot);
    }
  }

  /** The decoder's seconds are those sent. */
  ghost predicate Knows(s: Sink, d: Joiner, bs: seq<Block>, k: nat)
    requires k <= |bs|
  {
    forall i: nat | i < |s.inputs| :: i in d.secs <==> SecondSent(s, bs, k, i)
  }

  lemma SentStep(s: Sink, bs: seq<Block>, k: nat, i: nat)
    requires k < |bs|
    ensures SecondSent(s, bs, k + 1, i) <==>
            || SecondSent(s, bs, k, i)
            || (Picked(s, bs, k) && Find(s.inputs, bs[k].slot, 0) == i && bs[k].sec != NO_SECOND)
  {
  }

  lemma KnowsNext(s: Sink, d: Joiner, e: Joiner, bs: seq<Block>, k: nat)
    requires k < |bs| && Knows(s, d, bs, k)
    requires var i := Find(s.inputs, bs[k].slot, 0);
             e.secs == if Picked(s, bs, k) && (i in d.secs || bs[k].sec != NO_SECOND) then d.secs[i := bs[k].sec] else d.secs
    ensures Knows(s, e, bs, k + 1)
  {
    forall i: nat | i < |s.inputs| ensures i in e.secs <==> SecondSent(s, bs, k + 1, i) { SentStep(s, bs, k, i); }
  }

  lemma PickedStep(s: Sink, t: Sink, d: Joiner, bs: seq<Block>, k: nat)
    requires k < |bs| && Sized(t) && bs[k].Valid() && Agree(t, d) && Knows(s, d, bs, k) && Picked(s, bs, k)
    requires Forwarded(t, bs[k]) == Some(Find(s.inputs, bs[k].slot, 0)) && d.out == Truth(s, bs, k)
    ensures var e := JoinAll(d, Emits(t, bs[k])); Knows(s, e, bs, k + 1) && e.out == Truth(s, bs, k + 1)
  {
    var i, e := Find(s.inputs, bs[k].slot, 0), JoinAll(d, Emits(t, bs[k]));
    JoinBlock(t, d, bs[k], i);
    KnowsNext(s, d, e, bs, k);
    TruthPicked(s, d, bs, k);
  }

  /** The truth grows by what the decoder can recover of a picked block. */
  lemma TruthPicked(s: Sink, d: Joiner, bs: seq<Block>, k: nat)
    requires k < |bs| && Knows(s, d, bs, k) && Picked(s, bs, k)
    ensures Truth(s, bs, k + 1) == Truth(s, bs, k) + [Recovered(d, Find(s.inputs, bs[k].slot, 0), bs[k])]
  {
    SentStep(s, bs, k, Find(s.inputs, bs[k].slot, 0));
  }

  lemma JoinStep(s: Sink, t: Sink, d: Joiner, bs: seq<Block>, k: nat)
    requires k < |bs| && Sized(s) && Sized(t) && Counting(s, t, bs, k) && bs[k].Valid()
    requires Agree(t, d) && Knows(s, d, bs, k) && d.out == Truth(s, bs, k)
    ensures var e := JoinAll(d, Emits(t, bs[k]));
            Agree(After(t, bs[k]), e) && Knows(s, e, bs, k + 1) && e.out == Truth(s, bs, k + 1)
  {
    AgreeAfter(t, d, bs[k]);
    ForwardsPicked(s, t, bs, k);
    if Picked(s, bs, k) {
      PickedStep(s, t, d, bs, k);
    } else {
      DroppedBlock(t, bs[k]);
      KnowsNext(s, d, d, bs, k);
    }
  }

  /** What holds of sink `t` and decoder `d` after the first `k` blocks. */
  ghost predicate InStep(s: Sink, t: Sink, d: Joiner, bs: seq<Block>, k: nat)
    requires k <= |bs|
  {
    Sized(t) && Counting(s, t, bs, k) && Agree(t, d) && Knows(s, d, bs, k) && d.out == Truth(s, bs, k)
  }

  lemma InStepFirst(s: Sink, bs: seq<Block>)
    requires Fresh(s)
    ensures InStep(s, s, EMPTY, bs, 0)
  {
    CountingFirst(s, bs);
  }

  lemma InStepNext(s: Sink, t: Sink, d: Joiner, bs: seq<Block>, k: nat, u: Sink, e: Joiner)
    requires k < |bs| && Sized(s) && bs[k].Valid() && InStep(s, t, d, bs, k)
    requires u == After(t, bs[k]) && e == JoinAll(d, Emits(t, bs[k]))
    ensures InStep(s, u, e, bs, k + 1)
  {
    CountingNext(s, t, u, bs, k);
    JoinStep(s, t, d, bs, k);
  }

  lemma MarksNext(ts: seq<Sink>, bs: seq<Block>, k: nat, d: Joiner)
    requires |ts| == |bs| + 1 && k < |bs| && d == JoinAll(EMPTY, Marks(ts, bs, k))
    ensures JoinAll(EMPTY, Marks(ts, bs, k + 1)) == JoinAll(d, Emits(ts[k], bs[k]))
  {
    JoinBoth(EMPTY, Marks(ts, bs, k), Emits(ts[k], bs[k]));
  }

  /** `d` is the decoder after the first `k` blocks' marks, in step with the sink. */
  ghost predicate Reached(ts: seq<Sink>, bs: seq<Block>, k: nat, d: Joiner)
    requires |ts| == |bs| + 1 && k <= |bs|
  {
    d == JoinAll(EMPTY, Marks(ts, bs, k)) && InStep(ts[0], ts[k], d, bs, k)
  }

  lemma ReachedFirst(ts: seq<Sink>, bs: seq<Block>)
    requires SinkRun(ts, bs)
    ensures Reached(ts, bs, 0, EMPTY)
  {
    InStepFirst(ts[0], bs);
  }

  lemma ReachedNext(ts: seq<Sink>, bs: seq<Block>, k: nat, c: Joiner) returns (d: Joiner)
    requires SinkRun(ts, bs) && k < |bs| && Reached(ts, bs, k, c)
    ensures Reached(ts, bs, k + 1, d)
  {
    assert SinkStep(ts, bs, k);
    MarksNext(ts, bs, k, c);
    d := JoinAll(c, Emits(ts[k], bs[k]));
    InStepNext(ts[0], ts[k], c, bs, k, ts[k + 1], d);
  }

  lemma JoinAlways(ts: seq<Sink>, bs: seq<Block>) returns (d: Joiner)
    requires SinkRun(ts, bs)
    ensures Reached(ts, bs, |bs|, d)
  {
    d := EMPTY;
    ReachedFirst(ts, bs);
    for k := 0 to |bs|
      invariant Reached(ts, bs, k, d)
    {
      d := ReachedNext(ts, bs, k, d);
    }
  }

  /**
   * For any interleaving of the inputs' takes, joining what the sink marked gives exactly the takes picked,
   * one in `keep` per input from its first one on, each with its input, its sequence number and its full
   * source stamp; a stamp is missing exactly while every second of its input so far reads 0xFFFFFFFF.
   */
  lemma JoinRecovers(ts: seq<Sink>, bs: seq<Block>)
    requires SinkRun(ts, bs)
    ensures JoinAll(EMPTY, Marks(ts, bs, |bs|)).out == Truth(ts[0], bs, |bs|)
  {
    var d := JoinAlways(ts, bs);
  }

  /** Without such a second every stamp is there. */
  lemma {:induction false} AllStamped(s: Sink, bs: seq<Block>, k: nat)
    requires k <= |bs| && forall j | 0 <= j < |bs| :: bs[j].sec != NO_SECOND
    ensures forall j | 0 <= j < |Truth(s, bs, k)| :: Truth(s, bs, k)[j].stamp.Some?
  {
    if k > 0 {
      AllStamped(s, bs, k - 1);
      SentStep(s, bs, k - 1, Find(s.inputs, bs[k - 1].slot, 0));
    }
  }
}
