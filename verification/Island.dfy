/**
 * The handler and the supervisor together. A tick is not atomic: it reads and decides at its start, its
 * supervisor calls follow one by one, each on the clock of its own call, and it ends; reaction passes and
 * the other components interleave anywhere. The callbacks and the ticks share one executor thread.
 */
module Island {
  import S = SupervisorSpec
  import H = HandlerSpec

  /** `start` is the running tick's start, `done` the last completed one's. */
  datatype System = System(s: S.State, h: H.Handler, busy: bool, todo: seq<H.Call>, start: int, done: int)

  datatype Event =
    | Sup(ev: S.Event)
    | Callback(cb: H.Step)
    | TickStart(sends: H.Sends)
    | NextCall
    | TickEnd

  datatype Timed = Timed(at: nat, ev: Event)

  function Reading(y: System, sends: H.Sends): H.Read { H.Read(y.s.latched, y.s.fault.Fault?, sends) }

  /** The handler's side of an event. */
  function HandlerEvent(y: System, ev: Event): H.Step
  {
    match ev
    case Callback(cb) => cb
    case TickStart(sends) => H.OnTimer(Reading(y, sends))
    case _ => H.Elsewhere
  }

  const NONE: S.Event := S.Done(S.ROUTES)

  /** The supervisor's side of an event. */
  function SupEvent(y: System, now: int, ev: Event): S.Event
  {
    match ev
    case Sup(e) => e
    case Callback(cb) =>
      (match cb
       case Take(_) => if H.TakeCalls(y.h) == [] then NONE else H.Event(H.TakeCalls(y.h)[0], now)
       case Odometry(speed) => S.NoteSpeed(speed)
       case _ => NONE)
    case NextCall => if y.todo == [] then NONE else H.Event(y.todo[0], now)
    case _ => NONE
  }

  /** What the other components ask of the supervisor: the executor's route, the operator's slot, SWT0 and the hook. */
  predicate Foreign(e: S.Event)
  {
    match e
    case Arm(route, _) => route == S.EXECUTOR
    case Done(route) => route == S.EXECUTOR || route >= S.ROUTES
    case Report(slot, _) => slot == S.OPERATOR
    case NoteSpeed(_) => false
    case _ => true
  }

  predicate Enabled(y: System, e: Timed)
  {
    match e.ev
    case Sup(ev) => Foreign(ev) && S.Admissible(S.Timed(e.at, ev))
    case Callback(cb) => !y.busy && !cb.OnTimer?
    case TickStart(_) => !y.busy
    case NextCall => y.busy && y.todo != []
    case TickEnd => y.busy && y.todo == []
  }

  function Next(y: System, now: int, ev: Event): System
  {
    var s := S.Step(y.s, now, SupEvent(y, now, ev));
    var o := H.Next(y.h, now, HandlerEvent(y, ev));
    match ev
    case TickStart(_) => System(s, o.h, true, o.calls, now, y.done)
    case NextCall => System(s, o.h, true, if y.todo == [] then [] else y.todo[1..], y.start, y.done)
    case TickEnd => System(s, o.h, false, [], y.start, y.start)
    case _ => y.(s := s, h := o.h)
  }

  predicate Boot(y: System)
  {
    && S.Boot(y.s) && y.h == H.Boot(y.h.p, y.h.life.boot)
    && !y.busy && y.todo == [] && y.start <= y.h.life.boot && y.done == y.start
  }

  ghost predicate Run(ys: seq<System>, es: seq<Timed>)
  {
    && |ys| == |es| + 1
    && Boot(ys[0])
    && (forall k | 0 <= k < |es| :: StepAt(ys, es, k))
  }

  ghost predicate StepAt(ys: seq<System>, es: seq<Timed>, k: nat)
    requires |ys| == |es| + 1 && k < |es|
  {
    && ys[0].h.life.boot <= es[k].at && Enabled(ys[k], es[k]) && ys[k + 1] == Next(ys[k], es[k].at, es[k].ev)
    && (k > 0 ==> es[k - 1].at <= es[k].at)
  }

  // ------------------------------------------------------------------ its parts are runs of their own

  ghost function SupStates(ys: seq<System>): seq<S.State> { seq(|ys|, i requires 0 <= i < |ys| => ys[i].s) }

  ghost function SupEvents(ys: seq<System>, es: seq<Timed>): seq<S.Timed>
    requires |ys| == |es| + 1
  {
    seq(|es|, i requires 0 <= i < |es| => S.Timed(es[i].at, SupEvent(ys[i], es[i].at, es[i].ev)))
  }

  ghost function HandlerStates(ys: seq<System>): seq<H.Handler> { seq(|ys|, i requires 0 <= i < |ys| => ys[i].h) }

  ghost function HandlerEvents(ys: seq<System>, es: seq<Timed>): seq<H.Timed>
    requires |ys| == |es| + 1
  {
    seq(|es|, i requires 0 <= i < |es| => H.Timed(es[i].at, HandlerEvent(ys[i], es[i].ev)))
  }

  lemma NextParts(y: System, now: int, ev: Event)
    ensures Next(y, now, ev).s == S.Step(y.s, now, SupEvent(y, now, ev))
    ensures Next(y, now, ev).h == H.Next(y.h, now, HandlerEvent(y, ev)).h
  {
  }

  /** The handler's calls reach routes 0, 2 and 3 and its own slot. */
  predicate OwnCall(c: H.Call)
  {
    match c
    case ArmIn(route, _) => route == S.COMFORTABLE || route == S.FLOOR
    case Finish(route) => route == S.CALL_MRM || route == S.COMFORTABLE || route == S.FLOOR
    case Alive(slot, _) => slot == S.HANDLER
  }

  /** A call of the state decision or of a request: never route 0. */
  predicate DecisionCall(c: H.Call) { OwnCall(c) && c != H.Finish(S.CALL_MRM) }

  lemma OperateCalls(h: H.Handler, sends: H.Sends)
    ensures forall c <- H.Operate(h, sends).calls :: DecisionCall(c)
  {
  }

  lemma UpdateCalls(h: H.Handler, now: int, fault: bool)
    ensures forall c <- H.UpdateState(h, now, fault).calls :: DecisionCall(c)
  {
    assert forall c <- H.StandstillCalls(h.mrm.behavior) :: DecisionCall(c);
  }

  lemma DecideCalls(h: H.Handler, now: int, fault: bool, sends: H.Sends)
    ensures forall c <- H.Decide(h, now, fault, sends).calls :: DecisionCall(c)
  {
    var u := H.UpdateState(h, now, fault);
    UpdateCalls(h, now, fault);
    OperateCalls(u.h, sends);
    assert H.Decide(h, now, fault, sends).calls == u.calls + H.Operate(u.h, sends).calls;
  }

  lemma ClosingCalls(h: H.Handler)
    ensures forall c <- H.ClosingCalls(h) :: OwnCall(c)
    ensures H.Finish(S.CALL_MRM) in H.ClosingCalls(h) <==> h.timedOut
  {
    if h.timedOut { assert H.ClosingCalls(h)[0] == H.Finish(S.CALL_MRM); }
  }

  /** A tick that runs finishes route 0 exactly when it saw the stream time out. */
  lemma TickCalls(h: H.Handler, now: int, r: H.Read)
    ensures forall c <- H.Tick(h, now, r).calls :: OwnCall(c)
    ensures H.PhaseStep(h, now).life.phase.Run? ==>
              (H.Finish(S.CALL_MRM) in H.Tick(h, now, r).calls <==> now - h.stamp > h.p.maxAge)
  {
    if H.PhaseStep(h, now).life.phase.Run? {
      var s := H.Sensed(h, now, r.latched);
      DecideCalls(s, now, r.fault, r.sends);
      ClosingCalls(s);
      assert s.timedOut == (now - h.stamp > h.p.maxAge);
      assert H.Tick(h, now, r).calls == H.Decide(s, now, r.fault, r.sends).calls + H.ClosingCalls(s);
    }
  }

  lemma CallsStep(y: System, e: Timed)
    requires Enabled(y, e) && forall c <- y.todo :: OwnCall(c)
    ensures forall c <- Next(y, e.at, e.ev).todo :: OwnCall(c)
  {
    var n := Next(y, e.at, e.ev).todo;
    match e.ev
    case TickStart(sends) =>
      TickCalls(y.h, e.at, Reading(y, sends));
      assert n == H.Tick(y.h, e.at, Reading(y, sends)).calls;
    case NextCall => assert n == y.todo[1..];
    case _ => assert n == y.todo || n == [];
  }

  lemma {:induction false} CallsAlways(ys: seq<System>, es: seq<Timed>, k: nat)
    requires Run(ys, es) && k <= |es|
    ensures forall c <- ys[k].todo :: OwnCall(c)
  {
    if k > 0 {
      CallsAlways(ys, es, k - 1);
      assert StepAt(ys, es, k - 1);
      CallsStep(ys[k - 1], es[k - 1]);
    }
  }

  lemma SupAdmissible(y: System, e: Timed)
    requires Enabled(y, e) && forall c <- y.todo :: OwnCall(c)
    ensures S.Admissible(S.Timed(e.at, SupEvent(y, e.at, e.ev)))
  {
    if e.ev.NextCall? { assert OwnCall(y.todo[0]); }
  }

  /** Whatever is proved of every run of the supervisor holds of the island's. */
  lemma SupervisorPart(ys: seq<System>, es: seq<Timed>)
    requires Run(ys, es)
    ensures S.Behaviour(SupStates(ys), SupEvents(ys, es))
  {
    var ss, ts := SupStates(ys), SupEvents(ys, es);
    forall k | 0 <= k < |ts| ensures S.StepAt(ss, ts, k) {
      SupervisorStep(ys, es, k);
      assert ss[k] == ys[k].s && ss[k + 1] == ys[k + 1].s && ts[k] == S.Timed(es[k].at, SupEvent(ys[k], es[k].at, es[k].ev));
    }
  }

  lemma SupervisorStep(ys: seq<System>, es: seq<Timed>, k: nat)
    requires Run(ys, es) && k < |es|
    ensures ys[k + 1].s == S.Step(ys[k].s, es[k].at, SupEvent(ys[k], es[k].at, es[k].ev))
    ensures S.Admissible(S.Timed(es[k].at, SupEvent(ys[k], es[k].at, es[k].ev))) && (k > 0 ==> es[k - 1].at <= es[k].at)
  {
    assert StepAt(ys, es, k);
    NextParts(ys[k], es[k].at, es[k].ev);
    CallsAlways(ys, es, k);
    SupAdmissible(ys[k], es[k]);
  }

  /** Whatever is proved of every run of the handler holds of the island's. */
  lemma HandlerPart(ys: seq<System>, es: seq<Timed>)
    requires Run(ys, es)
    ensures H.HandlerRun(HandlerStates(ys), HandlerEvents(ys, es))
  {
    var hs, ts := HandlerStates(ys), HandlerEvents(ys, es);
    forall k | 0 <= k < |ts| ensures H.StepAt(hs, ts, k) {
      HandlerStep(ys, es, k);
      assert hs[k] == ys[k].h && hs[k + 1] == ys[k + 1].h && ts[k].at == es[k].at;
    }
  }

  lemma HandlerStep(ys: seq<System>, es: seq<Timed>, k: nat)
    requires Run(ys, es) && k < |es|
    ensures ys[k + 1].h == H.Next(ys[k].h, es[k].at, HandlerEvent(ys[k], es[k].ev)).h
    ensures ys[0].h.life.boot <= es[k].at && (k > 0 ==> es[k - 1].at <= es[k].at)
  {
    assert StepAt(ys, es, k);
    NextParts(ys[k], es[k].at, es[k].ev);
  }
}
