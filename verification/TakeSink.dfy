/** The sink and the join as they run. */
module TakeSink {
  import opened Words
  import opened TakeStamps

  /** Input `i` binds to the slot of the take its callback runs for, once. */
  function Bind(s: Sink, i: nat, keep: nat): Sink
  {
    if i >= |s.inputs| || s.inputs[i].slot != 0 || s.last == NO_INPUT then s
    else
      var k := if keep == 0 then 1 else keep;
      s.(inputs := s.inputs[i := Input((s.last + 1) % 0x100, k, k - 1, NO_SECOND)])
  }

  /** A newly bound input forwards its next take and owes its second; the other inputs are as they were. */
  lemma BindIsFresh(s: Sink, i: nat, keep: nat)
    requires Sized(s) && keep <= 0xFF && s.last <= 0xFF
    ensures Sized(Bind(s, i, keep)) && (Fresh(s) ==> Fresh(Bind(s, i, keep)))
    ensures forall j | 0 <= j < |s.inputs| && j != i :: Bind(s, i, keep).inputs[j] == s.inputs[j]
  {
    var t := Bind(s, i, keep);
    forall j | 0 <= j < |s.inputs| ensures Counted(t.inputs[j]) && (Fresh(s) ==> Unsent(t.inputs[j])) {
      assert Counted(s.inputs[j]);
    }
  }

  class NrosSink {
    var inputs: seq<Input>
    var last: nat
    var cur: nat

    function View(): Sink
      reads this
    {
      Sink(inputs, last, cur)
    }

    constructor (count: nat)
      requires count < NO_INPUT
      ensures Fresh(View()) && |inputs| == count
    {
      inputs := seq(count, _ => Input(0, 0, 0, 0));
      last, cur := NO_INPUT, NO_INPUT;
    }

    method TakeBind(input: nat, keep: nat)
      modifies this`inputs
      ensures View() == Bind(old(View()), input, keep)
    {
      if input >= |inputs| || inputs[input].slot != 0 || last == NO_INPUT {
        return;
      }
      var x := inputs[input].(keep := if keep != 0 then keep else 1);
      x := x.(n := x.keep - 1, sec := NO_SECOND);
      inputs := inputs[input := x.(slot := (last + 1) % 0x100)];
    }

    /** One of the executor's trace events; `sent` is what it puts into the trace. */
    method OnEvent(e: Event) returns (sent: seq<Mark>)
      requires |inputs| < NO_INPUT
      modifies this
      ensures View() == Step(old(View()), e) && sent == Sends(old(View()), e)
    {
      sent := [];
      match e
      case Take(slot, seqNo) =>
        last, cur := slot, NO_INPUT;
        var i := 0;
        while i < |inputs| && inputs[i].slot != (slot + 1) % 0x100
          invariant i <= |inputs| && Find(inputs, slot, 0) == Find(inputs, slot, i)
        {
          i := i + 1;
        }
        if i < |inputs| {
          var n := (inputs[i].n + 1) % 0x100;
          inputs := inputs[i := inputs[i].(n := n)];
          if n >= inputs[i].keep {
            inputs := inputs[i := inputs[i].(n := 0)];
            cur := i;
            sent := [TakeMark(i * SEQ + seqNo % SEQ)];
          }
        }
      case Second(x) =>
        if cur < |inputs| && inputs[cur].sec != x {
          inputs := inputs[cur := inputs[cur].(sec := x)];
          sent := [SecondMark(x)];
        }
      case Nanosecond(x) =>
        if cur < |inputs| { sent := [NanosecondMark(x)]; }
        cur := NO_INPUT;
    }
  }

  /** The decoder's loop over the marks. */
  method JoinTakes(ms: seq<Mark>) returns (out: seq<Joined>)
    ensures out == JoinAll(EMPTY, ms).out
  {
    var open, secs: map<nat, nat> := false, map[];
    out := [];
    for k := 0 to |ms|
      invariant JoinAll(EMPTY, ms) == JoinAll(Joiner(out, open, secs), ms[k..])
      invariant open ==> out != []
    {
      assert ms[k..][0] == ms[k] && ms[k..][1..] == ms[k + 1..];
      var n := |out|;
      match ms[k]
      case TakeMark(arg) =>
        out := out + [Joined(arg / SEQ, arg % SEQ, None)];
        open := true;
      case SecondMark(arg) =>
        if open { secs := secs[out[n - 1].input := arg]; }
      case NanosecondMark(arg) =>
        if open {
          var j := out[n - 1];
          if j.input in secs { j := j.(stamp := Some(secs[j.input] * NS + arg)); }
          out := out[..n - 1] + [j];
          open := false;
        }
    }
    assert ms[|ms|..] == [];
  }
}
