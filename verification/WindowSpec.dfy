/**
 * The trace window as a state machine over records with their true times: the record policy, the pre-trigger
 * ring and the trigger in front of the stream. The class `Window` is proved against it.
 */
module WindowSpec {
  import opened Words
  import opened TraceFormat
  import opened PreTriggerSpec
  import P = RecordPolicy

  /** The markers that move the window. */
  datatype Ids = Ids(trigger: nat, arm: nat, violation: nat)

  datatype Setup = Setup(ids: Ids, preMs: nat, half: nat, provenance: Record)
  {
    predicate Valid() { preMs < U16 && half >= 32 && provenance.Valid() && provenance.Provenance? }
    function Pre(): nat { preMs * 1_000_000 }
  }

  /**
   * The flags, the counters, the policy's memory, the ring's records, everything put into it since boot or
   * the last re-arm, and everything in the stream.
   */
  datatype Window = Window(
    armed: bool, reopen: bool, triggered: bool, asked: bool,
    filtered: nat, lost: nat,
    memory: P.Memory,
    ring: Ring<Entry>, history: seq<Entry>, stream: seq<Entry>)

  function Length(e: Entry): nat { HEADER + e.rec.PayloadLength() }

  function Size(es: seq<Entry>): nat
  {
    if es == [] then 0 else Size(es[..|es| - 1]) + Length(es[|es| - 1])
  }

  /** One more record in the ring: when the current half is full the older one gives way. */
  function PutEntry(r: Ring<Entry>, half: nat, e: Entry): Ring<Entry>
  {
    if Size(r.current) + Length(e) > half then Ring(r.current, [e]) else Ring(r.older, r.current + [e])
  }

  predicate Arms(ids: Ids, m: nat, arg: nat) { m == ids.arm && arg != 0 }

  /** The window opens on the trigger once armed, on the first guarded take after a re-arm, and on any violation. */
  predicate Opens(ids: Ids, armed: bool, reopen: bool, m: nat)
  {
    (armed && m == ids.trigger) || (reopen && m == ids.arm) || m == ids.violation
  }

  /** The marker opens the window. */
  predicate Fires(s: Setup, w: Window, m: nat, arg: nat)
  {
    !w.triggered && Opens(s.ids, w.armed || Arms(s.ids, m, arg), w.reopen, m)
  }

  function Missing(w: Window, kept: nat): nat { Trunc32(Trunc32(|w.history|) - kept) }

  /** The record that announces the trigger and counts what was kept and lost. */
  function TriggerRecord(s: Setup, w: Window, m: nat, kept: nat): Record
  {
    Trigger(m, s.preMs, kept % U16, w.memory.spinKeep, Missing(w, kept), w.filtered)
  }

  /** The trigger: the ring's recent records and the trigger record go to the stream; the policy starts afresh. */
  function Fire(s: Setup, w: Window, t: nat, m: nat): Window
  {
    var es := Kept(w.ring, Stamp(t), s.Pre());
    w.(triggered := true, lost := Missing(w, |es|), memory := P.Step(w.memory, P.Fired),
       stream := w.stream + es + [Entry(t, TriggerRecord(s, w, m, |es|))])
  }

  /** A record past the policy: to the stream after the trigger, into the ring before. */
  function Put(s: Setup, w: Window, e: Entry): Window
  {
    if w.triggered then w.(stream := w.stream + [e])
    else w.(ring := PutEntry(w.ring, s.half, e), history := w.history + [e])
  }

  /** The policy's verdict on a marker, and its record. */
  function Judge(s: Setup, w: Window, t: nat, m: nat, arg: nat): Window
  {
    var v := w.(memory := P.Step(w.memory, P.Mark(m, arg)));
    if P.Verdict(w.memory, P.Mark(m, arg)) then Put(s, v, Entry(t, Marker(m, arg))) else v.(filtered := Trunc32(w.filtered + 1))
  }

  function Watch(s: Setup, w: Window, t: nat, m: nat, arg: nat): Window
  {
    var v := w.(armed := w.armed || (!w.triggered && Arms(s.ids, m, arg)));
    if Fires(s, w, m, arg) then Fire(s, v, t, m) else v
  }

  function Marked(s: Setup, w: Window, t: nat, m: nat, arg: nat): Window { Judge(s, Watch(s, w, t, m, arg), t, m, arg) }

  /** An empty ring and a blank policy memory, waiting for the first guarded take. */
  function Blanked(w: Window): Window
  {
    Window(false, true, false, false, 0, 0, P.Step(w.memory, P.Rearmed), Ring([], []), [], w.stream)
  }

  /** And a new stream. */
  function Rearmed(s: Setup, w: Window, t: nat): Window { Blanked(w).(stream := [Entry(t, s.provenance)]) }

  /** The heartbeat tick: a re-arm the debugger asked for comes first. */
  function Beaten(s: Setup, w: Window, t: nat, seqNo: nat, uptime: nat): Window
  {
    Put(s, if w.asked then Rearmed(s, w, t) else w, Entry(t, Heartbeat(seqNo, uptime)))
  }

  // ------------------------------------------------------------------ runs

  datatype Event = Mark(marker: nat, arg: nat) | Beat(seqNo: nat, uptime: nat) | Ask

  datatype Timed = Timed(at: nat, ev: Event)

  predicate Fits(e: Event)
  {
    match e
    case Mark(m, arg) => m < U16 && arg < U32
    case Beat(seqNo, uptime) => seqNo < U32 && uptime < U32
    case Ask => true
  }

  function Next(s: Setup, w: Window, t: nat, e: Event): Window
  {
    match e
    case Mark(m, arg) => Marked(s, w, t, m, arg)
    case Beat(seqNo, uptime) => Beaten(s, w, t, seqNo, uptime)
    case Ask => w.(asked := true)
  }

  function Boot(s: Setup, memory: P.Memory, t: nat): Window
  {
    Window(false, false, false, false, 0, 0, memory, Ring([], []), [], [Entry(t, s.provenance)])
  }

  /** `ws` are the window's states along `es`, from boot. */
  ghost predicate Run(s: Setup, ws: seq<Window>, es: seq<Timed>)
  {
    && s.Valid() && |ws| == |es| + 1
    && (exists memory: P.Memory, t: nat :: P.Initial(memory) && ws[0] == Boot(s, memory, t))
    && (forall k | 0 <= k < |es| :: StepAt(s, ws, es, k))
  }

  ghost predicate StepAt(s: Setup, ws: seq<Window>, es: seq<Timed>, k: nat)
    requires |ws| == |es| + 1 && k < |es|
  {
    Fits(es[k].ev) && ws[k + 1] == Next(s, ws[k], es[k].at, es[k].ev)
  }
}
