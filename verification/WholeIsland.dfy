/**
 * Handler, emergency operator and supervisor together: the island of `Island` with the operator beside it. The
 * handler's emergency requests travel to the operator in order and may be lost.
 */
module WholeIsland {
  import opened Words
  import S = SupervisorSpec
  import H = HandlerSpec
  import O = OperatorSpec
  import I = Island
  import IslandRuns
  import HandlerRuns
  import RouteTable
  import SupervisorRuns
  import B = BrakingRuns
  import DirectPath

  /** `mail` are the operate requests on their way, oldest first: true calls the emergency stop, false cancels it. */
  datatype World = World(core: I.System, o: O.Operator, d: O.Direct, mail: seq<bool>)
  {
    /** The operator's and the supervisor's part. */
    function Sys(): O.System { O.System(core.s, o, d) }
  }

  datatype Event =
    | Inner(ev: I.Event)
    | OpTick
    | Control(msg: O.Cmd)
    | Deliver
    | Lose

  datatype Timed = Timed(at: nat, ev: Event)

  /** The emergency requests among those tried. */
  function Posted(qs: seq<H.Request>): seq<bool>
  {
    if qs == [] then []
    else Posted(qs[..|qs| - 1]) + if qs[|qs| - 1].behavior.EmergencyStop? then [qs[|qs| - 1].operate] else []
  }

  /** The operator's and the supervisor's side of an event. */
  function SysEvent(z: World, now: int, ev: Event): O.SysEvent
  {
    match ev
    case Inner(e) => O.Sup(I.SupEvent(z.core, now, e))
    case OpTick => O.OpTick
    case Control(msg) => O.Control(msg)
    case Deliver => if z.mail == [] then O.Sup(I.NONE) else O.Operate(z.mail[0])
    case Lose => O.Sup(I.NONE)
  }

  /** The handler's and the supervisor's side. */
  function CoreEvent(z: World, ev: Event): I.Event
  {
    match ev
    case Inner(e) => e
    case OpTick => I.Sup(O.SupEvent(z.Sys(), O.OpTick))
    case _ => I.Sup(I.NONE)
  }

  function Posts(z: World, now: int, ev: I.Event): seq<bool>
  {
    if ev.TickStart? then Posted(H.Tick(z.core.h, now, I.Reading(z.core, ev.sends)).tried) else []
  }

  function MailAfter(z: World, now: int, ev: Event): seq<bool>
  {
    match ev
    case Inner(e) => z.mail + Posts(z, now, e)
    case Deliver => if z.mail == [] then [] else z.mail[1..]
    case Lose => if z.mail == [] then [] else z.mail[1..]
    case _ => z.mail
  }

  predicate Enabled(z: World, e: Timed)
  {
    match e.ev
    case Inner(ev) => I.Enabled(z.core, I.Timed(e.at, ev)) && (ev.Sup? ==> !ev.ev.Report?)
    case Deliver => z.mail != []
    case Lose => z.mail != []
    case _ => true
  }

  function Next(z: World, now: int, ev: Event): World
    requires z.o.law.Valid()
  {
    var y := O.SysStep(z.Sys(), now, SysEvent(z, now, ev));
    World(I.Next(z.core, now, CoreEvent(z, ev)), y.o, y.d, MailAfter(z, now, ev))
  }

  predicate Boot(z: World) { I.Boot(z.core) && O.SysBoot(z.Sys()) && z.mail == [] }

  ghost predicate Run(zs: seq<World>, es: seq<Timed>)
  {
    |zs| == |es| + 1 && Boot(zs[0]) && forall k | 0 <= k < |es| :: StepAt(zs, es, k)
  }

  ghost predicate StepAt(zs: seq<World>, es: seq<Timed>, k: nat)
    requires |zs| == |es| + 1 && k < |es|
  {
    && zs[0].core.h.life.boot <= es[k].at && zs[k].o.law.Valid()
    && Enabled(zs[k], es[k]) && zs[k + 1] == Next(zs[k], es[k].at, es[k].ev)
    && (k > 0 ==> es[k - 1].at <= es[k].at)
  }

  // ------------------------------------------------------------------ its two halves, on one supervisor

  ghost function Cores(zs: seq<World>): seq<I.System> { seq(|zs|, i requires 0 <= i < |zs| => zs[i].core) }

  ghost function CoreEvents(zs: seq<World>, es: seq<Timed>): seq<I.Timed>
    requires |zs| == |es| + 1
  {
    seq(|es|, i requires 0 <= i < |es| => I.Timed(es[i].at, CoreEvent(zs[i], es[i].ev)))
  }

  ghost function SysStates(zs: seq<World>): seq<O.System> { seq(|zs|, i requires 0 <= i < |zs| => zs[i].Sys()) }

  ghost function SysEvents(zs: seq<World>, es: seq<Timed>): seq<O.SysTimed>
    requires |zs| == |es| + 1
  {
    seq(|es|, i requires 0 <= i < |es| => O.SysTimed(es[i].at, SysEvent(zs[i], es[i].at, es[i].ev)))
  }

  /** Both halves step the supervisor alike. */
  lemma OneSupervisor(z: World, now: int, ev: Event)
    requires z.o.law.Valid()
    ensures I.SupEvent(z.core, now, CoreEvent(z, ev)) == O.SupEvent(z.Sys(), SysEvent(z, now, ev))
    ensures Next(z, now, ev).Sys() == O.SysStep(z.Sys(), now, SysEvent(z, now, ev))
  {
    O.SysStepSupervisor(z.Sys(), now, SysEvent(z, now, ev));
    I.NextParts(z.core, now, CoreEvent(z, ev));
  }

  lemma CoreEnabled(z: World, e: Timed)
    requires Enabled(z, e)
    ensures I.Enabled(z.core, I.Timed(e.at, CoreEvent(z, e.ev)))
  {
  }

  /** Whatever is proved of every run of the island holds of the whole island's. */
  lemma IslandPart(zs: seq<World>, es: seq<Timed>)
    requires Run(zs, es)
    ensures I.Run(Cores(zs), CoreEvents(zs, es))
  {
    var ys, ts := Cores(zs), CoreEvents(zs, es);
    forall k | 0 <= k < |ts| ensures I.StepAt(ys, ts, k) {
      assert StepAt(zs, es, k);
      CoreEnabled(zs[k], es[k]);
    }
  }

  lemma EventAdmissible(z: World, e: Timed)
    requires Enabled(z, e) && forall c <- z.core.todo :: I.OwnCall(c)
    ensures O.SysAdmissible(O.SysTimed(e.at, SysEvent(z, e.at, e.ev)))
  {
    if e.ev.Inner? {
      I.SupAdmissible(z.core, I.Timed(e.at, e.ev.ev));
      if e.ev.ev.NextCall? { assert I.OwnCall(z.core.todo[0]); }
    }
  }

  lemma CoreAt(zs: seq<World>, es: seq<Timed>, k: nat)
    requires Run(zs, es) && k <= |es|
    ensures RouteTable.Inv(zs[k].core.s) && HandlerRuns.Coherent(zs[k].core.h.mrm) && forall c <- zs[k].core.todo :: I.OwnCall(c)
    ensures k < |es| ==> SupervisorRuns.ClockOk(zs[k].core.s, es[k].at)
  {
    var ys, ts := Cores(zs), CoreEvents(zs, es);
    IslandPart(zs, es);
    IslandRuns.PartsAt(ys, ts, k);
    I.SupervisorPart(ys, ts);
    SupervisorRuns.ClockAlways(I.SupStates(ys), I.SupEvents(ys, ts), k);
    assert ys[k] == zs[k].core && I.SupStates(ys)[k] == zs[k].core.s;
  }

  /** Whatever is proved of every run of operator and supervisor holds of the whole island's. */
  lemma SystemPart(zs: seq<World>, es: seq<Timed>)
    requires Run(zs, es)
    ensures O.SysRun(SysStates(zs), SysEvents(zs, es))
  {
    var ys, ts := SysStates(zs), SysEvents(zs, es);
    forall k | 0 <= k < |ts| ensures O.SysStepAt(ys, ts, k) {
      assert StepAt(zs, es, k);
      CoreAt(zs, es, k);
      EventAdmissible(zs[k], es[k]);
      OneSupervisor(zs[k], es[k].at, es[k].ev);
    }
  }

  // ------------------------------------------------------------------ the requests in flight

  /** What event `k` posts. */
  ghost function PostsAt(zs: seq<World>, es: seq<Timed>, k: nat): seq<bool>
    requires |zs| == |es| + 1 && k < |es|
  {
    if es[k].ev.Inner? then Posts(zs[k], es[k].at, es[k].ev.ev) else []
  }

  /** `bs` are the emergency requests that the events post, batch by batch. */
  ghost predicate Batches(zs: seq<World>, es: seq<Timed>, bs: seq<seq<bool>>)
  {
    |zs| == |es| + 1 == |bs| + 1 && forall k | 0 <= k < |es| :: BatchAt(zs, es, bs, k)
  }

  ghost predicate BatchAt(zs: seq<World>, es: seq<Timed>, bs: seq<seq<bool>>, k: nat)
    requires |zs| == |es| + 1 == |bs| + 1 && k < |es|
  {
    bs[k] == PostsAt(zs, es, k)
  }

  /** The first `k` batches, back to back. */
  function Flat(bs: seq<seq<bool>>, k: nat): seq<bool>
    requires k <= |bs|
  {
    if k == 0 then [] else Flat(bs, k - 1) + bs[k - 1]
  }

  /** How many were delivered or lost. */
  ghost function Gone(es: seq<Timed>, k: nat): nat
    requires k <= |es|
  {
    if k == 0 then 0 else Gone(es, k - 1) + if es[k - 1].ev.Deliver? || es[k - 1].ev.Lose? then 1 else 0
  }

  /** `mail` is what is left of `all` after the first `gone`. */
  predicate Left(mail: seq<bool>, all: seq<bool>, gone: nat) { gone <= |all| && mail == all[gone..] }

  lemma LeftMore(mail: seq<bool>, all: seq<bool>, gone: nat, more: seq<bool>)
    requires Left(mail, all, gone)
    ensures Left(mail + more, all + more, gone)
  {
  }

  lemma LeftLess(mail: seq<bool>, all: seq<bool>, gone: nat)
    requires Left(mail, all, gone) && mail != []
    ensures Left(mail[1..], all + [], gone + 1)
  {
    assert all + [] == all && all[gone..][1..] == all[gone + 1..];
  }

  /** What event `k` does of the requests on their way; `more` is what it posts. */
  predicate MailMoves(z: World, n: World, e: Event, more: seq<bool>)
  {
    if e.Deliver? || e.Lose? then z.mail != [] && n.mail == z.mail[1..] && more == [] else n.mail == z.mail + more
  }

  lemma MailMovesAt(zs: seq<World>, es: seq<Timed>, bs: seq<seq<bool>>, k: nat)
    requires Run(zs, es) && Batches(zs, es, bs) && k < |es|
    ensures MailMoves(zs[k], zs[k + 1], es[k].ev, bs[k])
  {
    assert StepAt(zs, es, k) && BatchAt(zs, es, bs, k);
  }

  lemma LeftStep(z: World, n: World, e: Event, all: seq<bool>, gone: nat, more: seq<bool>)
    requires MailMoves(z, n, e, more) && Left(z.mail, all, gone)
    ensures Left(n.mail, all + more, gone + if e.Deliver? || e.Lose? then 1 else 0)
  {
    if e.Deliver? || e.Lose? { LeftLess(z.mail, all, gone); } else { LeftMore(z.mail, all, gone, more); }
  }

  /** The requests on their way are those posted and not yet delivered or lost, oldest first. */
  lemma {:induction false} MailIs(zs: seq<World>, es: seq<Timed>, bs: seq<seq<bool>>, k: nat)
    requires Run(zs, es) && k <= |es| && Batches(zs, es, bs)
    ensures Left(zs[k].mail, Flat(bs, k), Gone(es, k))
  {
    if k > 0 {
      MailIs(zs, es, bs, k - 1);
      MailMovesAt(zs, es, bs, k - 1);
      LeftStep(zs[k - 1], zs[k], es[k - 1].ev, Flat(bs, k - 1), Gone(es, k - 1), bs[k - 1]);
    }
  }

  /** A delivery puts the operator where the oldest request on its way says. */
  lemma DeliversOldest(zs: seq<World>, es: seq<Timed>, bs: seq<seq<bool>>, k: nat)
    requires Run(zs, es) && Batches(zs, es, bs) && k < |es| && es[k].ev.Deliver?
    ensures Gone(es, k) < |Flat(bs, k)| && zs[k + 1].o.operating == Flat(bs, k)[Gone(es, k)]
  {
    MailIs(zs, es, bs, k);
    assert StepAt(zs, es, k);
  }

  // ------------------------------------------------------------------ no cancel after the takeover

  lemma {:induction false} HarmlessPost(qs: seq<H.Request>)
    requires forall q <- qs :: HandlerRuns.Harmless(q)
    ensures false !in Posted(qs)
  {
    if qs != [] {
      HarmlessPost(qs[..|qs| - 1]);
      assert HandlerRuns.Harmless(qs[|qs| - 1]);
    }
  }

  /** A tick that reads the latch posts no cancel. */
  lemma LatchedTickPosts(y: I.System, at: int, sends: H.Sends)
    requires HandlerRuns.Coherent(y.h.mrm) && y.s.latched
    ensures false !in Posted(H.Tick(y.h, at, I.Reading(y, sends)).tried)
  {
    var r := I.Reading(y, sends);
    if HandlerRuns.RunsAt(y.h, at) { HandlerRuns.LostTick(y.h, at, r); }
    HarmlessPost(H.Tick(y.h, at, r).tried);
  }

  /** Once the operator has handed over it is OPERATING, and no cancel is on its way to it. */
  predicate Holds(z: World)
  {
    z.core.s.slots.operator.handover ==> z.o.operating && false !in z.mail
  }

  lemma MailStep(z: World, e: Timed)
    requires HandlerRuns.Coherent(z.core.h.mrm) && z.core.s.latched && false !in z.mail
    ensures false !in MailAfter(z, e.at, e.ev)
  {
    if e.ev.Inner? && e.ev.ev.TickStart? { LatchedTickPosts(z.core, e.at, e.ev.ev.sends); }
  }

  /** Only an OPERATING tick hands over, and only a delivery moves OPERATING. */
  lemma OperatingStep(y: O.System, at: nat, ev: O.SysEvent)
    requires y.o.law.Valid() && O.SysAdmissible(O.SysTimed(at, ev)) && RouteTable.Inv(y.s) && SupervisorRuns.ClockOk(y.s, at)
    requires ev.Operate? ==> ev.on || !y.s.slots.operator.handover
    requires y.s.slots.operator.handover ==> y.o.operating
    ensures O.SysStep(y, at, ev).s.slots.operator.handover ==> O.SysStep(y, at, ev).o.operating
  {
    O.SysStepSupervisor(y, at, ev);
    var x := O.SupEvent(y, ev);
    if ev.Sup? && x.Wake? { DirectPath.WakeMovesOne(y.s, at, x.left, x.nowUs, S.OPERATOR); }
    else if ev.Sup? && x.Timeout? { if y.s.latched { SupervisorRuns.SlotsInService(y.s, at); } }
  }

  predicate TakesOver(z: World, n: World) { !z.core.s.slots.operator.handover && n.core.s.slots.operator.handover }

  /** No cancel is on its way when the operator takes over from the direct path. */
  ghost predicate CleanTakeover(zs: seq<World>, es: seq<Timed>)
    requires |zs| == |es| + 1
  {
    forall k | 0 <= k < |es| && TakesOver(zs[k], zs[k + 1]) :: false !in zs[k].mail
  }

  /** What every state of a run gives of the handler and the supervisor at its next event. */
  ghost predicate Ready(z: World, at: int)
  {
    && z.o.law.Valid() && RouteTable.Inv(z.core.s) && SupervisorRuns.ClockOk(z.core.s, at)
    && HandlerRuns.Coherent(z.core.h.mrm) && forall c <- z.core.todo :: I.OwnCall(c)
  }

  lemma HoldsStep(z: World, e: Timed)
    requires Enabled(z, e) && Ready(z, e.at) && Holds(z)
    requires TakesOver(z, Next(z, e.at, e.ev)) ==> false !in z.mail
    ensures Holds(Next(z, e.at, e.ev))
  {
    EventAdmissible(z, e);
    OneSupervisor(z, e.at, e.ev);
    OperatingStep(z.Sys(), e.at, SysEvent(z, e.at, e.ev));
    if z.core.s.slots.operator.handover { MailStep(z, e); }
    else if TakesOver(z, Next(z, e.at, e.ev)) { TakeoverEvent(z, e); }
  }

  /** The event that takes over is the operator's tick: it posts nothing. */
  lemma TakeoverEvent(z: World, e: Timed)
    requires Enabled(z, e) && Ready(z, e.at) && TakesOver(z, Next(z, e.at, e.ev))
    ensures MailAfter(z, e.at, e.ev) == z.mail
  {
    var x := S.Timed(e.at, I.SupEvent(z.core, e.at, CoreEvent(z, e.ev)));
    CoreEnabled(z, e);
    I.SupAdmissible(z.core, I.Timed(e.at, CoreEvent(z, e.ev)));
    I.NextParts(z.core, e.at, CoreEvent(z, e.ev));
    if !(x.ev.Report? && x.ev.slot == S.OPERATOR) { B.HandoverKept(z.core.s, x); }
    else if e.ev.Inner? && e.ev.ev.NextCall? { assert I.OwnCall(z.core.todo[0]); }
  }

  lemma {:induction false} HoldsAlways(zs: seq<World>, es: seq<Timed>, k: nat)
    requires Run(zs, es) && CleanTakeover(zs, es) && k <= |es|
    ensures Holds(zs[k])
  {
    if k > 0 {
      HoldsAlways(zs, es, k - 1);
      CoreAt(zs, es, k - 1);
      assert StepAt(zs, es, k - 1);
      HoldsStep(zs[k - 1], es[k - 1]);
    }
  }

  /** The handler keeps the operator steady: after its takeover no control command finds it off OPERATING. */
  lemma HandlerKeepsSteady(zs: seq<World>, es: seq<Timed>, k: nat)
    requires Run(zs, es) && CleanTakeover(zs, es) && k < |es|
    ensures B.Steady(SysStates(zs)[k], SysEvents(zs, es)[k])
  {
    HoldsAlways(zs, es, k);
    CoreAt(zs, es, k);
  }

  /**
   * Monotone braking of the whole island: with no cancel on its way at the operator's takeover, and the latch
   * younger than 2^32 ms, the commanded acceleration never rises from the latch on, whatever the inputs, the driver, the
   * transport, the executor and the other components do.
   */
  lemma IslandBrakesMonotonically(zs: seq<World>, es: seq<Timed>, cs: seq<Option<O.Cmd>>, i: nat, j: nat)
    requires Run(zs, es) && CleanTakeover(zs, es) && i <= j <= |es| && zs[i].core.s.latched
    requires B.Transcript(SysStates(zs), SysEvents(zs, es), cs)
    requires forall k | 0 <= k < j && zs[k].core.s.latched :: es[k].at - zs[k].core.s.latchMs < U32
    ensures zs[j].core.s.latched && cs[i].Some? && cs[j].Some?
    ensures zs[j].o.law.target <= cs[j].value.a <= B.Start(zs[j].Sys()) && cs[j].value.a <= cs[i].value.a
  {
    var ys, ts := SysStates(zs), SysEvents(zs, es);
    forall k | 0 <= k < j ensures B.Calm(ys[k], ts[k]) { HandlerKeepsSteady(zs, es, k); }
    B.MonotoneBraking(ys, ts, cs, i, j);
    assert ys[j] == zs[j].Sys() && ys[i] == zs[i].Sys();
  }
}
