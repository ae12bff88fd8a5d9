/** What the supervisor's readings mean on the events of a run: the last speed sample, and how old it is. */
module SampleRuns {
  import opened Words
  import opened SupervisorSpec
  import Judge

  /** A speed sample: when it was taken, and |v|. */
  datatype Taken = Taken(at: nat, speed: nat)

  /** The last sample among `es[..k]`. */
  ghost function LastTaken(es: seq<Timed>, k: nat): Option<Taken>
    requires k <= |es|
  {
    if k == 0 then None
    else if es[k - 1].ev.NoteSpeed? then Some(Taken(es[k - 1].at, es[k - 1].ev.speed))
    else LastTaken(es, k - 1)
  }

  /** Taken at most 300 ms before `now`, mod 2^32; a sample at a multiple of 2^32 ms reads as none. */
  ghost predicate Recent(s: Option<Taken>, now: int)
  {
    s.Some? && Trunc32(s.value.at) != 0 && Trunc32(now - s.value.at) <= 300
  }

  lemma OthersKeepSample(s: State, now: int, ev: Event)
    requires !ev.NoteSpeed?
    ensures Step(s, now, ev).sample == s.sample
  {
    match ev
    case Wake(left, nowUs) => WakeKeepsSample(s, now, left, nowUs);
    case Timeout => ServeKeepsSample(s, now);
    case _ =>
  }

  lemma ServeKeepsSample(s: State, now: int)
    ensures Serve(s, now).sample == s.sample
  {
  }

  lemma {:induction false} JudgedKeepsSample(s: State, n: nat, now: int, left: nat, nowUs: int)
    requires n <= ROUTES
    ensures JudgeRoutes(s, n, now, left, nowUs).s.sample == s.sample
  {
    if n > 0 { JudgedKeepsSample(s, n - 1, now, left, nowUs); }
  }

  lemma WakeKeepsSample(s: State, now: int, left: nat, nowUs: int)
    ensures WakeStep(s, now, left, nowUs).sample == s.sample
  {
    var v := s.(thread := s.thread.(wake := false));
    JudgedKeepsSample(v, ROUTES, now, left, nowUs);
    ServeKeepsSample(React(v, now, left, nowUs), now);
  }

  /** The supervisor's sample is the last one taken. */
  lemma {:induction false} SampleIsLast(ss: seq<State>, es: seq<Timed>, k: nat)
    requires Behaviour(ss, es) && k <= |es|
    ensures match LastTaken(es, k)
            case None => ss[k].sample == Sample(0, 0)
            case Some(x) => ss[k].sample == Sample(x.speed, Trunc32(x.at))
  {
    if k > 0 {
      SampleIsLast(ss, es, k - 1);
      assert StepAt(ss, es, k - 1);
      if !es[k - 1].ev.NoteSpeed? { OthersKeepSample(ss[k - 1], es[k - 1].at, es[k - 1].ev); }
    }
  }

  /** What the judges read off the sample, said of the run. */
  lemma ReadingsAre(ss: seq<State>, es: seq<Timed>, k: nat, now: int)
    requires Behaviour(ss, es) && k <= |es|
    ensures Fresh(ss[k], now) <==> Recent(LastTaken(es, k), now)
    ensures Stopped(ss[k], now) <==> Recent(LastTaken(es, k), now) && LastTaken(es, k).value.speed == 0
    ensures Judge.Unseen(ss[k].sample.at) <==> LastTaken(es, k).None? || Trunc32(LastTaken(es, k).value.at) == 0
    ensures LastTaken(es, k).Some? ==> ss[k].sample.speed == LastTaken(es, k).value.speed
  {
    SampleIsLast(ss, es, k);
    if LastTaken(es, k).Some? { TruncDiff(now, LastTaken(es, k).value.at); }
  }
}
