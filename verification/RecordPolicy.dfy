/** The record policy: which markers reach the trace. */
module RecordPolicy {
  import opened MarkerTable

  /** One marker's memory: whether a value is recorded, the last one, the EXIT to drop, ENTRYs dropped in a row. */
  datatype Cell = Cell(seen: bool, last: nat, skip: bool, spins: nat)

  const BLANK: Cell := Cell(false, 0, false, 0)

  /** The verdict on one marker, from its own cell and the cell below it. */
  function Keeps(kind: Policy, own: Cell, below: Cell, arg: nat, spinKeep: nat): bool
  {
    match kind
    case Every => true
    case Change => !(own.seen && own.last == arg)
    case SpinEntry => !own.seen || own.last != arg || own.spins + 1 >= spinKeep
    case SpinExit => !below.skip
  }

  function Noted(kind: Policy, own: Cell, arg: nat, keep: bool): Cell
  {
    match kind
    case Change => if keep then own.(seen := true, last := arg) else own
    case SpinEntry => Cell(true, arg, !keep, if keep then 0 else (own.spins + 1) % 0x1_0000)
    case _ => own
  }

  /** The policy memory: the generated table, SPIN_KEEP, and a cell per marker id. */
  datatype Memory = Memory(policy: seq<Policy>, spinKeep: nat, cells: seq<Cell>)
  {
    predicate Sized() { |cells| == |policy| && 1 <= spinKeep <= 1000 }
    predicate Ruled(m: nat) { 0 < m < |policy| && m < |cells| }
  }

  /** What the trace sees: a marker, the trigger, or a re-arm of the window. */
  datatype Event = Mark(marker: nat, arg: nat) | Fired | Rearmed

  predicate Verdict(y: Memory, e: Event)
  {
    match e
    case Mark(m, arg) => !y.Ruled(m) || Keeps(y.policy[m], y.cells[m], y.cells[m - 1], arg, y.spinKeep)
    case _ => true
  }

  function Step(y: Memory, e: Event): Memory
  {
    match e
    case Mark(m, arg) =>
      if y.Ruled(m) then y.(cells := y.cells[m := Noted(y.policy[m], y.cells[m], arg, Verdict(y, e))]) else y
    case Fired => y.(cells := Forget(y.cells, false))
    case Rearmed => y.(cells := Forget(y.cells, true))
  }

  /** No cell remembers a value any more; with `open`, no cell holds an EXIT back either. */
  function Forget(cells: seq<Cell>, open: bool): seq<Cell>
  {
    seq(|cells|, i requires 0 <= i < |cells| => Cell(false, cells[i].last, cells[i].skip && !open, 0))
  }

  ghost predicate Initial(y: Memory)
  {
    y.Sized() && Paired(y.policy) && forall i | 0 <= i < |y.cells| :: y.cells[i] == BLANK
  }

  /** `ys` are the memories along the events `es`, from boot. */
  ghost predicate Run(ys: seq<Memory>, es: seq<Event>)
  {
    && |ys| == |es| + 1
    && Initial(ys[0])
    && (forall k | 0 <= k < |es| :: StepAt(ys, es, k))
  }

  ghost predicate StepAt(ys: seq<Memory>, es: seq<Event>, k: nat)
    requires |ys| == |es| + 1 && k < |es|
  {
    ys[k + 1] == Step(ys[k], es[k])
  }

  lemma StepKeeps(y: Memory, e: Event)
    requires y.Sized()
    ensures var n := Step(y, e); n.Sized() && n.policy == y.policy && n.spinKeep == y.spinKeep
  {
  }

  lemma {:induction false} Always(ys: seq<Memory>, es: seq<Event>, k: nat)
    requires Run(ys, es) && k <= |es|
    ensures ys[k].Sized() && ys[k].policy == ys[0].policy && ys[k].spinKeep == ys[0].spinKeep
  {
    if k > 0 {
      Always(ys, es, k - 1);
      assert StepAt(ys, es, k - 1);
      StepKeeps(ys[k - 1], es[k - 1]);
    }
  }

  predicate Marks(e: Event, m: nat) { e.Mark? && e.marker == m }

  // ------------------------------------------------------------------ spins

  /** What one event does to ENTRY `m`'s cell. */
  predicate EntryMoves(c: Cell, d: Cell, e: Event, m: nat, spinKeep: nat)
  {
    var keep := Marks(e, m) ==> Keeps(SpinEntry, c, BLANK, e.arg, spinKeep);
    match e
    case Mark(n, arg) => d == if n == m then Cell(true, arg, !keep, if keep then 0 else (c.spins + 1) % 0x1_0000) else c
    case Fired => d == Cell(false, c.last, c.skip, 0)
    case Rearmed => d == Cell(false, c.last, false, 0)
  }

  lemma EntryCell(y: Memory, e: Event, m: nat)
    requires y.Ruled(m) && y.Sized() && y.policy[m].SpinEntry?
    ensures EntryMoves(y.cells[m], Step(y, e).cells[m], e, m, y.spinKeep)
    ensures Marks(e, m) ==> Verdict(y, e) == Keeps(SpinEntry, y.cells[m], BLANK, e.arg, y.spinKeep)
  {
  }

  lemma EntryAt(ys: seq<Memory>, es: seq<Event>, k: nat, m: nat)
    requires Run(ys, es) && k < |es| && ys[0].Ruled(m) && ys[0].policy[m].SpinEntry?
    ensures m < |ys[k].cells| && m < |ys[k + 1].cells|
    ensures EntryMoves(ys[k].cells[m], ys[k + 1].cells[m], es[k], m, ys[0].spinKeep)
    ensures Marks(es[k], m) ==> Verdict(ys[k], es[k]) == Keeps(SpinEntry, ys[k].cells[m], BLANK, es[k].arg, ys[0].spinKeep)
  {
    Always(ys, es, k);
    Always(ys, es, k + 1);
    assert StepAt(ys, es, k);
    EntryCell(ys[k], es[k], m);
  }

  /** No event of `es[i..j]` is an ENTRY of `m`. */
  ghost predicate Quiet(es: seq<Event>, i: nat, j: nat, m: nat)
  {
    i <= j <= |es| && forall k | i <= k < j :: !Marks(es[k], m)
  }

  ghost predicate RearmedIn(es: seq<Event>, i: nat, j: nat)
    requires i <= j <= |es|
  {
    exists k | i <= k < j :: es[k].Rearmed?
  }

  lemma {:induction false} SkipStays(ys: seq<Memory>, es: seq<Event>, i: nat, j: nat, m: nat)
    requires Run(ys, es) && Quiet(es, i, j, m) && ys[0].Ruled(m) && ys[0].policy[m].SpinEntry?
    ensures m < |ys[i].cells| && m < |ys[j].cells|
    ensures ys[j].cells[m].skip == (ys[i].cells[m].skip && !RearmedIn(es, i, j))
    decreases j
  {
    if i < j {
      SkipStays(ys, es, i, j - 1, m);
      EntryAt(ys, es, j - 1, m);
    } else {
      Always(ys, es, i);
    }
  }

  lemma ExitVerdict(ys: seq<Memory>, es: seq<Event>, j: nat, m: nat)
    requires Run(ys, es) && j < |es| && ys[0].Ruled(m + 1) && ys[0].policy[m + 1].SpinExit? && Marks(es[j], m + 1)
    ensures m < |ys[j].cells| && Verdict(ys[j], es[j]) == !ys[j].cells[m].skip
    ensures ys[0].Ruled(m) && ys[0].policy[m].SpinEntry?
  {
    Always(ys, es, j);
    assert ys[0].policy[m + 1 - 1].SpinEntry?;
  }

  /**
   * An EXIT is kept exactly when its path's last ENTRY was, or the window was re-armed in between, whatever
   * else is marked or triggered there.
   */
  lemma ExitFollowsEntry(ys: seq<Memory>, es: seq<Event>, i: nat, j: nat, m: nat)
    requires Run(ys, es) && i < j < |es| && ys[0].Ruled(m + 1) && ys[0].policy[m + 1].SpinExit?
    requires Marks(es[i], m) && Marks(es[j], m + 1) && Quiet(es, i + 1, j, m)
    ensures Verdict(ys[j], es[j]) <==> Verdict(ys[i], es[i]) || RearmedIn(es, i + 1, j)
  {
    ExitVerdict(ys, es, j, m);
    EntryAt(ys, es, i, m);
    SkipStays(ys, es, i + 1, j, m);
  }

  /** How many ENTRYs of `m` have been dropped since the last one kept. */
  ghost function DroppedSince(ys: seq<Memory>, es: seq<Event>, k: nat, m: nat): nat
    requires |ys| == |es| + 1 && k <= |es|
  {
    if k == 0 then 0
    else if Marks(es[k - 1], m) then if Verdict(ys[k - 1], es[k - 1]) then 0 else DroppedSince(ys, es, k - 1, m) + 1
    else DroppedSince(ys, es, k - 1, m)
  }

  /** At most SPIN_KEEP - 1 ENTRYs are dropped in a row, and while a value is remembered the counter is that number. */
  lemma {:induction false} SpinsBounded(ys: seq<Memory>, es: seq<Event>, k: nat, m: nat)
    requires Run(ys, es) && k <= |es| && ys[0].Ruled(m) && ys[0].policy[m].SpinEntry?
    ensures DroppedSince(ys, es, k, m) <= ys[0].spinKeep - 1
    ensures m < |ys[k].cells| && (ys[k].cells[m].seen ==> ys[k].cells[m].spins == DroppedSince(ys, es, k, m))
  {
    if k > 0 {
      SpinsBounded(ys, es, k - 1, m);
      EntryAt(ys, es, k - 1, m);
    }
  }

  /** The arg of the last ENTRY of `m` since the last trigger or re-arm. */
  ghost function LastEntry(es: seq<Event>, k: nat, m: nat): (a: seq<nat>)
    requires k <= |es|
    ensures |a| <= 1
  {
    if k == 0 || !es[k - 1].Mark? then []
    else if Marks(es[k - 1], m) then [es[k - 1].arg]
    else LastEntry(es, k - 1, m)
  }

  lemma {:induction false} LastEntryIs(ys: seq<Memory>, es: seq<Event>, k: nat, m: nat)
    requires Run(ys, es) && k <= |es| && ys[0].Ruled(m) && ys[0].policy[m].SpinEntry?
    ensures m < |ys[k].cells| && ys[k].cells[m].seen == (LastEntry(es, k, m) != [])
    ensures LastEntry(es, k, m) != [] ==> ys[k].cells[m].last == LastEntry(es, k, m)[0]
  {
    Always(ys, es, k);
    if k > 0 {
      LastEntryIs(ys, es, k - 1, m);
      EntryAt(ys, es, k - 1, m);
    }
  }

  /**
   * An ENTRY is dropped exactly when the last one since the trigger or the re-arm had the same argument, and fewer than
   * SPIN_KEEP - 1 were dropped since one was kept.
   */
  lemma EntryDropped(ys: seq<Memory>, es: seq<Event>, k: nat, m: nat)
    requires Run(ys, es) && k < |es| && ys[0].Ruled(m) && ys[0].policy[m].SpinEntry? && Marks(es[k], m)
    ensures !Verdict(ys[k], es[k]) <==> LastEntry(es, k, m) == [es[k].arg] && DroppedSince(ys, es, k, m) < ys[0].spinKeep - 1
  {
    LastEntryIs(ys, es, k, m);
    SpinsBounded(ys, es, k, m);
    EntryAt(ys, es, k, m);
  }

  /** A marker that is to be recorded every time is, and so is one the table does not rule. */
  lemma EveryKept(ys: seq<Memory>, es: seq<Event>, k: nat, m: nat)
    requires Run(ys, es) && k < |es| && Marks(es[k], m) && (ys[0].Ruled(m) ==> ys[0].policy[m].Every?)
    ensures Verdict(ys[k], es[k])
  {
    Always(ys, es, k);
  }

  lemma {:induction false} EveryRecorded(ys: seq<Memory>, es: seq<Event>, i: nat, k: nat, m: nat)
    requires Run(ys, es) && i <= k <= |es| && (ys[0].Ruled(m) ==> ys[0].policy[m].Every?)
    ensures Recorded(ys, es, i, k, m) == Marked(es, i, k, m)
    decreases k
  {
    if i < k {
      EveryRecorded(ys, es, i, k - 1, m);
      if Marks(es[k - 1], m) { EveryKept(ys, es, k - 1, m); }
    }
  }

  // ------------------------------------------------------------------ changes

  /** The args marked at `m`, and those of them that are kept, over `es[i..k]`. */
  ghost function Marked(es: seq<Event>, i: nat, k: nat, m: nat): seq<nat>
    requires i <= k <= |es|
    decreases k
  {
    if i == k then []
    else if Marks(es[k - 1], m) then Marked(es, i, k - 1, m) + [es[k - 1].arg]
    else Marked(es, i, k - 1, m)
  }

  ghost function Recorded(ys: seq<Memory>, es: seq<Event>, i: nat, k: nat, m: nat): seq<nat>
    requires |ys| == |es| + 1 && i <= k <= |es|
    decreases k
  {
    if i == k then []
    else if Marks(es[k - 1], m) && Verdict(ys[k - 1], es[k - 1]) then Recorded(ys, es, i, k - 1, m) + [es[k - 1].arg]
    else Recorded(ys, es, i, k - 1, m)
  }

  /** Adjacent duplicates removed. */
  function Distinct(s: seq<nat>): seq<nat>
  {
    if |s| <= 1 then s
    else if s[|s| - 1] == s[|s| - 2] then Distinct(s[..|s| - 1])
    else Distinct(s[..|s| - 1]) + [s[|s| - 1]]
  }

  lemma DistinctStep(s: seq<nat>, a: nat)
    ensures Distinct(s + [a]) == if s != [] && s[|s| - 1] == a then Distinct(s) else Distinct(s) + [a]
  {
    assert (s + [a])[..|s|] == s;
  }

  /** What one event does to CHANGE marker `m`'s cell. */
  predicate ChangeMoves(c: Cell, d: Cell, e: Event, m: nat)
  {
    if Marks(e, m) then d.seen && d.last == e.arg else if e.Mark? then d == c else !d.seen
  }

  lemma ChangeCell(y: Memory, e: Event, m: nat)
    requires y.Ruled(m) && y.Sized() && y.policy[m].Change?
    ensures ChangeMoves(y.cells[m], Step(y, e).cells[m], e, m)
    ensures Marks(e, m) ==> Verdict(y, e) == !(y.cells[m].seen && y.cells[m].last == e.arg)
  {
  }

  lemma ChangeAt(ys: seq<Memory>, es: seq<Event>, k: nat, m: nat)
    requires Run(ys, es) && k < |es| && ys[0].Ruled(m) && ys[0].policy[m].Change?
    ensures m < |ys[k].cells| && m < |ys[k + 1].cells| && ChangeMoves(ys[k].cells[m], ys[k + 1].cells[m], es[k], m)
    ensures Marks(es[k], m) ==> Verdict(ys[k], es[k]) == !(ys[k].cells[m].seen && ys[k].cells[m].last == es[k].arg)
  {
    Always(ys, es, k);
    Always(ys, es, k + 1);
    assert StepAt(ys, es, k);
    ChangeCell(ys[k], es[k], m);
  }

  /** Neither a trigger nor a re-arm in `es[i..k]`. */
  ghost predicate MarksOnly(es: seq<Event>, i: nat, k: nat) { i <= k <= |es| && forall j | i <= j < k :: es[j].Mark? }

  /** And no value remembered before it. */
  ghost predicate OneWindow(es: seq<Event>, i: nat, k: nat)
  {
    MarksOnly(es, i, k) && (i == 0 || es[i - 1].Fired? || es[i - 1].Rearmed?)
  }

  /** A cell that remembers the last of `s`. */
  ghost predicate Remembers(c: Cell, s: seq<nat>) { c.seen == (s != []) && (s != [] ==> c.last == s[|s| - 1]) }

  lemma OneMoreChange(ys: seq<Memory>, es: seq<Event>, i: nat, k: nat, m: nat, c: Cell, d: Cell)
    requires |ys| == |es| + 1 && i < k <= |es| && es[k - 1].Mark? && ChangeMoves(c, d, es[k - 1], m)
    requires Marks(es[k - 1], m) ==> Verdict(ys[k - 1], es[k - 1]) == !(c.seen && c.last == es[k - 1].arg)
    requires Recorded(ys, es, i, k - 1, m) == Distinct(Marked(es, i, k - 1, m)) && Remembers(c, Marked(es, i, k - 1, m))
    ensures Recorded(ys, es, i, k, m) == Distinct(Marked(es, i, k, m)) && Remembers(d, Marked(es, i, k, m))
  {
    if Marks(es[k - 1], m) { DistinctStep(Marked(es, i, k - 1, m), es[k - 1].arg); }
  }

  /**
   * From a trigger, a re-arm or the boot on, what is recorded of a CHANGE marker is what was marked with
   * adjacent duplicates removed, whatever other markers come in between.
   */
  lemma {:induction false} ChangesRecorded(ys: seq<Memory>, es: seq<Event>, i: nat, k: nat, m: nat)
    requires Run(ys, es) && OneWindow(es, i, k) && ys[0].Ruled(m) && ys[0].policy[m].Change?
    ensures Recorded(ys, es, i, k, m) == Distinct(Marked(es, i, k, m))
    ensures m < |ys[k].cells| && Remembers(ys[k].cells[m], Marked(es, i, k, m))
    decreases k
  {
    if i < k {
      ChangesRecorded(ys, es, i, k - 1, m);
      ChangeAt(ys, es, k - 1, m);
      OneMoreChange(ys, es, i, k, m, ys[k - 1].cells[m], ys[k].cells[m]);
    } else if i > 0 {
      ChangeAt(ys, es, i - 1, m);
    }
  }

  // ------------------------------------------------------------------ spins, recorded

  /** The marks of a path over `es[i..k]`, ENTRY `m` as true and EXIT `m + 1` as false. */
  ghost function Path(es: seq<Event>, i: nat, k: nat, m: nat): seq<bool>
    requires i <= k <= |es|
    decreases k
  {
    if i == k then []
    else if OnPath(es[k - 1], m) then Path(es, i, k - 1, m) + [Marks(es[k - 1], m)]
    else Path(es, i, k - 1, m)
  }

  predicate OnPath(e: Event, m: nat) { Marks(e, m) || Marks(e, m + 1) }

  /** Those of them that are kept. */
  ghost function KeptPath(ys: seq<Memory>, es: seq<Event>, i: nat, k: nat, m: nat): seq<bool>
    requires |ys| == |es| + 1 && i <= k <= |es|
    decreases k
  {
    if i == k then []
    else if OnPath(es[k - 1], m) && Verdict(ys[k - 1], es[k - 1]) then KeptPath(ys, es, i, k - 1, m) + [Marks(es[k - 1], m)]
    else KeptPath(ys, es, i, k - 1, m)
  }

  /** ENTRY, EXIT, ENTRY, EXIT, ... */
  ghost predicate Alternates(p: seq<bool>) { forall i | 0 <= i < |p| :: p[i] == (i % 2 == 0) }

  /** While the marks alternate, so does what is kept of them; it is open iff they are and the last ENTRY was kept. */
  ghost predicate Halved(all: seq<bool>, kept: seq<bool>, skip: bool)
  {
    Alternates(all) ==> Alternates(kept) && (|kept| % 2 == 1 <==> |all| % 2 == 1 && !skip)
  }

  lemma HalvedMore(all: seq<bool>, kept: seq<bool>, c: Cell, d: Cell, e: Event, m: nat, spinKeep: nat, keep: bool)
    requires Halved(all, kept, c.skip) && EntryMoves(c, d, e, m, spinKeep) && e.Mark?
    requires Marks(e, m) ==> keep == Keeps(SpinEntry, c, BLANK, e.arg, spinKeep)
    requires Marks(e, m + 1) ==> keep == !c.skip
    ensures Halved(if OnPath(e, m) then all + [Marks(e, m)] else all,
                   if OnPath(e, m) && keep then kept + [Marks(e, m)] else kept, d.skip)
  {
    if OnPath(e, m) && Alternates(all + [Marks(e, m)]) {
      AlternatesFewer(all, Marks(e, m));
    }
  }

  lemma AlternatesFewer(p: seq<bool>, b: bool)
    requires Alternates(p + [b])
    ensures Alternates(p) && b == (|p| % 2 == 0)
  {
    assert (p + [b])[|p|] == b;
    forall i | 0 <= i < |p| ensures p[i] == (i % 2 == 0) { assert (p + [b])[i] == p[i]; }
  }

  /** If a path's marks alternate, so do those that are kept: every EXIT kept comes right behind its own ENTRY. */
  lemma {:induction false} SpinsAlternate(ys: seq<Memory>, es: seq<Event>, i: nat, k: nat, m: nat)
    requires Run(ys, es) && MarksOnly(es, i, k) && ys[0].Ruled(m + 1) && ys[0].policy[m + 1].SpinExit?
    ensures m < |ys[k].cells| && Halved(Path(es, i, k, m), KeptPath(ys, es, i, k, m), ys[k].cells[m].skip)
    decreases k
  {
    assert ys[0].policy[m + 1 - 1].SpinEntry?;
    if i < k {
      SpinsAlternate(ys, es, i, k - 1, m);
      EntryAt(ys, es, k - 1, m);
      if Marks(es[k - 1], m + 1) { ExitVerdict(ys, es, k - 1, m); }
      HalvedMore(Path(es, i, k - 1, m), KeptPath(ys, es, i, k - 1, m), ys[k - 1].cells[m], ys[k].cells[m],
                 es[k - 1], m, ys[0].spinKeep, Verdict(ys[k - 1], es[k - 1]));
    } else {
      Always(ys, es, k);
    }
  }

  function Times(n: nat, k: nat): nat { if n == 0 then 0 else Times(n - 1, k) + k }

  /** What is marked, and what may still be dropped, is paid for by what is kept. */
  predicate Paced(all: nat, kept: nat, c: Cell, spinKeep: nat)
  {
    c.seen == (all > 0) && c.spins < spinKeep && (all > 0 ==> all + (spinKeep - 1 - c.spins) <= Times(kept, spinKeep))
  }

  lemma PacedMore(all: nat, kept: nat, c: Cell, d: Cell, e: Event, m: nat, spinKeep: nat, keep: bool)
    requires Paced(all, kept, c, spinKeep) && EntryMoves(c, d, e, m, spinKeep) && e.Mark? && 1 <= spinKeep <= 1000
    requires Marks(e, m) ==> keep == Keeps(SpinEntry, c, BLANK, e.arg, spinKeep)
    ensures Paced(if Marks(e, m) then all + 1 else all, if Marks(e, m) && keep then kept + 1 else kept, d, spinKeep)
  {
  }

  /** From a trigger, a re-arm or the boot on, at least one in SPIN_KEEP of a path's ENTRYs is kept. */
  lemma {:induction false} SpinRate(ys: seq<Memory>, es: seq<Event>, i: nat, k: nat, m: nat)
    requires Run(ys, es) && OneWindow(es, i, k) && ys[0].Ruled(m) && ys[0].policy[m].SpinEntry?
    ensures m < |ys[k].cells|
    ensures Paced(|Marked(es, i, k, m)|, |Recorded(ys, es, i, k, m)|, ys[k].cells[m], ys[0].spinKeep)
    ensures |Marked(es, i, k, m)| <= Times(|Recorded(ys, es, i, k, m)|, ys[0].spinKeep)
    decreases k
  {
    Always(ys, es, k);
    if i < k {
      SpinRate(ys, es, i, k - 1, m);
      EntryAt(ys, es, k - 1, m);
      PacedMore(|Marked(es, i, k - 1, m)|, |Recorded(ys, es, i, k - 1, m)|, ys[k - 1].cells[m], ys[k].cells[m],
                es[k - 1], m, ys[0].spinKeep, Verdict(ys[k - 1], es[k - 1]));
    } else if i > 0 {
      EntryAt(ys, es, i - 1, m);
    }
  }

  // ------------------------------------------------------------------ the policy as it runs

  class Recorder {
    const policy: seq<Policy>
    const spinKeep: nat
    var cells: seq<Cell>

    function View(): Memory
      reads this
    {
      Memory(policy, spinKeep, cells)
    }

    constructor (policy: seq<Policy>, spinKeep: nat)
      requires Paired(policy) && 1 <= spinKeep <= 1000
      ensures Initial(View()) && View().policy == policy && View().spinKeep == spinKeep
    {
      this.policy, this.spinKeep := policy, spinKeep;
      cells := seq(|policy|, _ => BLANK);
    }

    method Keep(m: nat, arg: nat) returns (keep: bool)
      requires View().Sized()
      modifies this
      ensures View() == Step(old(View()), Mark(m, arg)) && keep == Verdict(old(View()), Mark(m, arg)) && View().Sized()
    {
      if m == 0 || m >= |policy| {
        return true;
      }
      var c := cells[m];
      match policy[m]
      case Change =>
        if c.seen && c.last == arg {
          return false;
        }
        cells := cells[m := c.(seen := true, last := arg)];
        return true;
      case SpinEntry =>
        keep := !c.seen || c.last != arg || c.spins + 1 >= spinKeep;
        cells := cells[m := Cell(true, arg, !keep, if keep then 0 else (c.spins + 1) % 0x1_0000)];
      case SpinExit =>
        return !cells[m - 1].skip;
      case Every =>
        return true;
    }

    /** At the trigger, and at a re-arm. */
    method Clear(open: bool)
      requires View().Sized()
      modifies this
      ensures View() == Step(old(View()), if open then Rearmed else Fired) && View().Sized()
    {
      for m := 0 to |cells|
        invariant |cells| == |old(cells)|
        invariant forall i | 0 <= i < |cells| :: cells[i] == if i < m then Forget(old(cells), open)[i] else old(cells)[i]
      {
        cells := cells[m := cells[m].(seen := false, spins := 0, skip := cells[m].skip && !open)];
      }
    }
  }
}
