/** The trace window as it runs: its flags, the byte ring, the policy and the stream, under one lock. */
module TraceWindow {
  import opened Words
  import opened TraceFormat
  import opened PreTriggerSpec
  import opened PreTrigger
  import MarkerTable
  import P = RecordPolicy
  import S = WindowSpec
  import R = TraceRoundTrip
  import D = TraceDecoder

  /** A record as it is packed on the stamp `ts`. */
  function Pack(ts: nat, r: Record): (f: Frame)
    requires ts < U32 && r.Valid()
    ensures |f| == HEADER + r.PayloadLength()
  {
    Bytes32(ts) + Bytes16(r.Id()) + r.Payload()
  }

  /** Packing on the stamp of the true time is the stream's encoding. */
  lemma PackIsEncode(t: nat, r: Record)
    requires r.Valid()
    ensures Pack(Stamp(t), r) == Encode(Entry(t, r))
  {
  }

  // ------------------------------------------------------------------ frames and records

  lemma {:induction false} SizeIs(fs: seq<Frame>, es: seq<Entry>, k: nat)
    requires Records(fs, es) && k <= |fs|
    ensures S.Size(es[..k]) == |Concat(fs[..k])|
  {
    if k > 0 {
      SizeIs(fs, es, k - 1);
      assert IsRecord(fs, es, k - 1);
      assert es[..k][..k - 1] == es[..k - 1] && fs[..k][..k - 1] == fs[..k - 1];
    }
  }

  lemma RecordsSize(fs: seq<Frame>, es: seq<Entry>)
    requires Records(fs, es)
    ensures S.Size(es) == |Concat(fs)|
  {
    SizeIs(fs, es, |fs|);
    assert es[..|fs|] == es && fs[..|fs|] == fs;
  }

  lemma RingableMore(es: seq<Entry>, e: Entry)
    requires AllRingable(es) && Ringable(e)
    ensures AllRingable(es + [e])
  {
  }

  /** Putting the packed record keeps the halves in step with the records. */
  lemma PutLies(r: Ring<Frame>, q: Ring<Entry>, half: nat, e: Entry)
    requires Lie(r, q) && Ringable(e)
    ensures Lie(PreTriggerSpec.Put(r, half, Encode(e)), S.PutEntry(q, half, e))
  {
    RecordsSize(r.current, q.current);
    RecordsMore(r.current, q.current, e);
    RingableMore(q.current, e);
    OneRecord(e);
  }

  lemma OneRecord(e: Entry)
    requires e.rec.Valid()
    ensures Records([Encode(e)], [e]) && (Ringable(e) ==> AllRingable([e]))
  {
    forall i | 0 <= i < 1 ensures IsRecord([Encode(e)], [e], i) {}
  }

  lemma NothingLies()
    ensures Lie(Ring([], []), Ring([], []))
  {
  }

  // ------------------------------------------------------------------ the window

  class Window {
    const setup: S.Setup
    const ring: PreRing
    const recorder: P.Recorder
    var triggered: bool
    var armed: bool
    var reopen: bool
    var asked: bool
    var filtered: nat
    var stream: seq<Byte>
    ghost var written: seq<Frame>
    ghost var w: S.Window

    /** The stream holds the specification's records, back to back. */
    ghost predicate Streams()
      reads this
    {
      stream == Concat(written) && Records(written, w.stream)
    }

    ghost predicate Built()
      reads this, ring, ring.lo, ring.hi
    {
      ring.Valid() && ring.half == setup.half && ring.pre == setup.Pre()
    }

    /** The ring holds the specification's records, and has counted them all. */
    ghost predicate Rings()
      reads this, ring, ring.lo, ring.hi
    {
      && Built()
      && Lie(ring.ring, w.ring) && |ring.log| == |w.history| && ring.lost == w.lost
    }

    ghost predicate Flags()
      reads this, recorder
    {
      && setup.Valid() && filtered < U32
      && w.armed == armed && w.reopen == reopen && w.triggered == triggered && w.asked == asked && w.filtered == filtered
      && recorder.View().Sized() && w.memory == recorder.View()
    }

    ghost predicate Valid()
      reads this, ring, ring.lo, ring.hi, recorder
    {
      Flags() && Rings() && Streams()
    }

    /** The stream starts with the provenance. */
    constructor (setup: S.Setup, policy: seq<MarkerTable.Policy>, spinKeep: nat, ts: nat, ghost t: nat)
      requires setup.Valid() && MarkerTable.Paired(policy) && 1 <= spinKeep <= 1000 && ts == Stamp(t)
      ensures Valid() && this.setup == setup && w == S.Boot(setup, recorder.View(), t)
      ensures P.Initial(recorder.View()) && recorder.View().policy == policy && recorder.View().spinKeep == spinKeep
      ensures fresh(ring) && fresh(ring.lo) && fresh(ring.hi) && fresh(recorder)
    {
      this.setup := setup;
      ring := new PreRing(setup.half, setup.preMs);
      recorder := new P.Recorder(policy, spinKeep);
      triggered, armed, reopen, asked, filtered := false, false, false, false, 0;
      stream := Pack(ts, setup.provenance);
      written := [Pack(ts, setup.provenance)];
      new;
      w := S.Boot(setup, recorder.View(), t);
      PackIsEncode(t, setup.provenance);
      ConcatMore([], Pack(ts, setup.provenance));
      OneRecord(Entry(t, setup.provenance));
      NothingLies();
    }

    /** One record to the end of the stream. */
    method Write(ts: nat, r: Record, ghost t: nat)
      requires Streams() && ts == Stamp(t) && r.Valid()
      modifies this`stream, this`written, this`w
      ensures Streams() && w == old(w).(stream := old(w).stream + [Entry(t, r)])
    {
      PackIsEncode(t, r);
      ConcatMore(written, Pack(ts, r));
      RecordsMore(written, w.stream, Entry(t, r));
      stream := stream + Pack(ts, r);
      written := written + [Pack(ts, r)];
      w := w.(stream := w.stream + [Entry(t, r)]);
    }

    /** The bytes of `fs`, the records `es`, to the end of the stream. */
    method WriteAll(bytes: seq<Byte>, ghost fs: seq<Frame>, ghost es: seq<Entry>)
      requires Streams() && bytes == Concat(fs) && Records(fs, es)
      modifies this`stream, this`written, this`w
      ensures Streams() && w == old(w).(stream := old(w).stream + es)
    {
      ConcatBoth(written, fs);
      RecordsBoth(written, w.stream, fs, es);
      stream := stream + bytes;
      written := written + fs;
      w := w.(stream := w.stream + es);
    }

    /** One record into the ring. */
    method Hold(ts: nat, r: Record, ghost t: nat)
      requires Rings() && ts == Stamp(t) && Ringable(Entry(t, r)) && setup.half >= 32
      modifies this`w, ring, ring.lo, ring.hi
      ensures Rings()
      ensures w == old(w).(ring := S.PutEntry(old(w).ring, setup.half, Entry(t, r)), history := old(w).history + [Entry(t, r)])
    {
      PackIsEncode(t, r);
      PutLies(ring.ring, w.ring, setup.half, Entry(t, r));
      ring.Put(Pack(ts, r));
      w := w.(ring := S.PutEntry(w.ring, setup.half, Entry(t, r)), history := w.history + [Entry(t, r)]);
    }

    /** A record past the policy: to the stream after the trigger, into the ring before. */
    method Put(ts: nat, r: Record, ghost t: nat)
      requires Valid() && ts == Stamp(t) && Ringable(Entry(t, r))
      modifies this`stream, this`written, this`w, ring, ring.lo, ring.hi
      ensures Valid() && w == S.Put(setup, old(w), Entry(t, r))
    {
      if triggered {
        Write(ts, r, t);
      } else {
        Hold(ts, r, t);
      }
    }

    /** What the flush keeps goes to the stream. */
    method FlushRing(ts: nat, ghost t: nat) returns (kept: nat)
      requires Rings() && Streams() && ts == Stamp(t)
      modifies this`stream, this`written, this`w, ring`lost
      ensures Rings() && Streams() && kept == |Kept(old(w).ring, ts, setup.Pre())|
      ensures w == old(w).(stream := old(w).stream + Kept(old(w).ring, ts, setup.Pre()), lost := S.Missing(old(w), kept))
    {
      ghost var es := Kept(w.ring, ts, setup.Pre());
      var out;
      ghost var fs;
      out, kept, fs := TakeRing(ts);
      WriteAll(out, fs, es);
    }

    method TakeRing(ts: nat) returns (out: seq<Byte>, kept: nat, ghost fs: seq<Frame>)
      requires Rings()
      modifies this`w, ring`lost
      ensures Rings() && Records(fs, Kept(old(w).ring, ts, setup.Pre())) && out == Concat(fs) && kept == |fs|
      ensures w == old(w).(lost := S.Missing(old(w), kept))
    {
      out, kept, fs := ring.Flush(ts, w.ring);
      w := w.(lost := ring.lost);
    }

    /** The window opens: the history it kept, then the record that says so. */
    method Fire(ts: nat, m: nat, ghost t: nat)
      requires Valid() && ts == Stamp(t) && m < U16
      modifies this`triggered, this`stream, this`written, this`w, ring`lost, recorder
      ensures Valid() && w == S.Fire(setup, old(w), t, m)
    {
      var kept := FlushRing(ts, t);
      Announce(ts, m, kept, t);
    }

    /** The trigger record, and the policy starts afresh. */
    method Announce(ts: nat, m: nat, kept: nat, ghost t: nat)
      requires Valid() && ts == Stamp(t) && m < U16
      modifies this`triggered, this`stream, this`written, this`w, recorder
      ensures Valid()
      ensures w == old(w).(triggered := true, memory := P.Step(old(w).memory, P.Fired),
                           stream := old(w).stream + [Entry(t, Trigger(m, setup.preMs, kept % U16, old(w).memory.spinKeep, old(w).lost, old(w).filtered))])
    {
      Write(ts, Trigger(m, setup.preMs, kept % U16, recorder.spinKeep, ring.lost, filtered), t);
      Open();
    }

    method Open()
      requires Flags()
      modifies this`triggered, this`w, recorder
      ensures Flags() && w == old(w).(triggered := true, memory := P.Step(old(w).memory, P.Fired))
    {
      recorder.Clear(false);
      triggered := true;
      w := w.(triggered := true, memory := recorder.View());
    }

    /** What a marker moves of the window, before it is judged itself. */
    method Watch(m: nat, arg: nat, ts: nat, ghost t: nat)
      requires Valid() && ts == Stamp(t) && m < U16
      modifies this`triggered, this`armed, this`stream, this`written, this`w, ring`lost, recorder
      ensures Valid() && w == S.Watch(setup, old(w), t, m, arg)
    {
      if !triggered {
        if S.Arms(setup.ids, m, arg) {
          armed := true;
          w := w.(armed := true);
        }
        if S.Opens(setup.ids, armed, reopen, m) { Fire(ts, m, t); }
      }
    }

    /** The policy's verdict on a marker, and its record. */
    method Judge(m: nat, arg: nat, ts: nat, ghost t: nat)
      requires Valid() && ts == Stamp(t) && m < U16 && arg < U32
      modifies this`filtered, this`stream, this`written, this`w, ring, ring.lo, ring.hi, recorder
      ensures Valid() && w == S.Judge(setup, old(w), t, m, arg)
    {
      var keep := Weigh(m, arg);
      if keep {
        Put(ts, Record.Marker(m, arg), t);
      } else {
        Drop();
      }
    }

    method Weigh(m: nat, arg: nat) returns (keep: bool)
      requires Flags()
      modifies this`w, recorder
      ensures Flags() && keep == P.Verdict(old(w).memory, P.Mark(m, arg))
      ensures w == old(w).(memory := P.Step(old(w).memory, P.Mark(m, arg)))
    {
      keep := recorder.Keep(m, arg);
      w := w.(memory := recorder.View());
    }

    method Drop()
      requires Flags()
      modifies this`w, this`filtered
      ensures Flags() && w == old(w).(filtered := Trunc32(old(w).filtered + 1))
    {
      filtered := Trunc32(filtered + 1);
      w := w.(filtered := filtered);
    }

    /** A marker, as every component marks it. */
    method Marker(m: nat, arg: nat, ts: nat, ghost t: nat)
      requires Valid() && ts == Stamp(t) && m < U16 && arg < U32
      modifies this, ring, ring.lo, ring.hi, recorder
      ensures Valid() && w == S.Next(setup, old(w), t, S.Mark(m, arg))
    {
      Watch(m, arg, ts, t);
      Judge(m, arg, ts, t);
    }

    /** The debugger's word. */
    method AskRearm()
      requires Valid()
      modifies this`asked, this`w
      ensures Valid() && w == S.Next(setup, old(w), 0, S.Ask)
    {
      asked := true;
      w := w.(asked := true);
    }

    method Restart(ts: nat, ghost t: nat)
      requires ts == Stamp(t) && setup.provenance.Valid()
      modifies this`stream, this`written, this`w
      ensures Streams() && w == old(w).(stream := [Entry(t, setup.provenance)])
    {
      PackIsEncode(t, setup.provenance);
      stream, written := Pack(ts, setup.provenance), [Pack(ts, setup.provenance)];
      ConcatMore([], Pack(ts, setup.provenance));
      OneRecord(Entry(t, setup.provenance));
      w := w.(stream := [Entry(t, setup.provenance)]);
    }

    method EmptyRing()
      requires Built()
      modifies this`w, ring
      ensures Rings() && w == old(w).(ring := Ring([], []), history := [], lost := 0)
    {
      ring.Rearm();
      NothingLies();
      w := w.(ring := Ring([], []), history := [], lost := 0);
    }

    /** A new stream, an empty ring, a blank policy memory. */
    method Rearm(ts: nat, ghost t: nat)
      requires Valid() && ts == Stamp(t)
      modifies this, ring, recorder
      ensures Valid() && w == S.Rearmed(setup, old(w), t)
    {
      Restart(ts, t);
      Blank();
    }

    method Blank()
      requires Flags() && Built()
      modifies this`triggered, this`armed, this`reopen, this`asked, this`filtered, this`w, ring, recorder
      ensures Flags() && Rings()
      ensures w == S.Blanked(old(w))
    {
      EmptyRing();
      Disarm();
    }

    method Disarm()
      requires Flags()
      modifies this`triggered, this`armed, this`reopen, this`asked, this`filtered, this`w, recorder
      ensures Flags()
      ensures w == old(w).(triggered := false, armed := false, reopen := true, asked := false, filtered := 0,
                           memory := P.Step(old(w).memory, P.Rearmed))
    {
      recorder.Clear(true);
      triggered, armed, reopen, asked, filtered := false, false, true, false, 0;
      w := w.(triggered := false, armed := false, reopen := true, asked := false, filtered := 0, memory := recorder.View());
    }

    /** The heartbeat tick, every 100 ms: it looks at the debugger's word, and it is not judged. */
    method Heartbeat(seqNo: nat, uptime: nat, ts: nat, ghost t: nat)
      requires Valid() && ts == Stamp(t) && seqNo < U32 && uptime < U32
      modifies this, ring, ring.lo, ring.hi, recorder
      ensures Valid() && w == S.Next(setup, old(w), t, S.Beat(seqNo, uptime))
    {
      if asked { Rearm(ts, t); }
      Put(ts, Record.Heartbeat(seqNo, uptime), t);
    }

    /** The read-out: the buffer, its unused end still zero, up to its last byte that is not. */
    method ReadOut(free: nat) returns (dump: seq<Byte>)
      requires Valid()
      ensures AllValid(w.stream) && dump == R.Dump(w.stream, free)
    {
      RecordsFrames(written, w.stream);
      var raw := stream + D.Zeros(free);
      dump := Trimmed(raw);
    }
  }

  method Trimmed(raw: seq<Byte>) returns (dump: seq<Byte>)
    ensures dump == R.Trim(raw)
  {
    var used: nat := |raw|;
    assert raw[..used] == raw;
    while used > 0 && raw[used - 1] == 0
      invariant used <= |raw| && R.Trim(raw) == R.Trim(raw[..used])
    {
      used := used - 1;
      assert raw[..used + 1][..used] == raw[..used];
    }
    dump := raw[..used];
  }
}
