/** The supervisor's verdicts, pure functions over the sample and the braking command's age. */
module Judge {
  import opened Words

  const STANDSTILL_FRESH_MS: nat := 300

  /** What the floor's armed due supervises. */
  datatype Stage = Idle | OperatorStage | DirectStage

  datatype Verdict = Met | Latch | VehicleFault | Wait

  predicate Standstill(now: int, speed: nat, at: nat)
  {
    at != 0 && Trunc32(now - at) <= STANDSTILL_FRESH_MS && speed == 0
  }

  predicate Stale(now: int, at: nat)
  {
    at == 0 || Trunc32(now - at) > STANDSTILL_FRESH_MS
  }

  predicate Unseen(at: nat)
  {
    at == 0
  }

  function Floor(standstill: bool, latched: bool, braked: nat, span: nat): Verdict
  {
    if standstill then Met
    else if !latched then Latch
    else if braked >= span then VehicleFault
    else Wait
  }

  predicate Responded(standstill: bool, isFresh: bool, ref: nat, speed: nat, drop: nat)
  {
    standstill || (isFresh && ref >= speed && ref - speed >= drop)
  }

  /** `alive` is the last report's truncated uptime; the limit is a 32-bit product. */
  predicate Resume(now: int, alive: nat, period: nat, periods: nat)
  {
    Trunc32(now - alive) >= Trunc32(period * periods)
  }
}
