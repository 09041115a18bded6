/**
 * The predicted end of playback. The clock is `Date.getTime()`, an integer count of
 * milliseconds; `now / 1000` seconds is taken as an exact rational, so every `Math.round`
 * of main.js becomes a RoundDiv on integers.
 */
module EndTime {
  import opened Js
  import opened Wrappers
  import opened Sessions

  const TicksPerMillisecond: int := 10000
  const MillisecondsPerSecond: int := 1000
  const TicksPerSecond: int := TicksPerMillisecond * MillisecondsPerSecond

  /**
   * `Math.round(((RunTimeTicks - PositionTicks) / 10000) / 1000)`: the seconds left, rounded once
   * to the nearest whole second (dividing by 10000 and then by 1000 is dividing by 10^7).
   */
  function RemainingSeconds(item: Item, ps: PlayState): (r: int)
    ensures 2 * TicksPerSecond * r - TicksPerSecond
            <= 2 * (item.runTimeTicks - ps.positionTicks)
            < 2 * TicksPerSecond * r + TicksPerSecond
  {
    RoundDiv(item.runTimeTicks - ps.positionTicks, TicksPerSecond)
  }

  /**
   * `calcEndTimestamp`, and the identical inline expression used for the payload:
   * `Math.round(now / 1000 + RemainingSeconds)`, in epoch seconds.
   */
  function CalcEndTimestamp(item: Item, ps: PlayState, nowMs: int): (r: int)
    ensures r == RoundDiv(nowMs, MillisecondsPerSecond) + RemainingSeconds(item, ps)
    ensures nowMs % MillisecondsPerSecond == 0 ==> r == nowMs / MillisecondsPerSecond + RemainingSeconds(item, ps)
  {
    var rem := RemainingSeconds(item, ps);
    RoundDivShift(nowMs, MillisecondsPerSecond, rem);
    RoundDiv(nowMs + MillisecondsPerSecond * rem, MillisecondsPerSecond)
  }

  /**
   * `endsIn = Math.round(calcEndTimestamp(...) - now / 1000)`, the number of seconds after which
   * the next refresh is scheduled. It is the remaining playback time, except that a clock sitting
   * exactly on half a second rounds the end up and so the delay gains one second.
   */
  function EndsIn(item: Item, ps: PlayState, nowMs: int): (r: int)
    ensures r == RemainingSeconds(item, ps) + (if nowMs % MillisecondsPerSecond == 500 then 1 else 0)
  {
    var end := CalcEndTimestamp(item, ps, nowMs);
    var rem := RemainingSeconds(item, ps);
    var q, m := nowMs / MillisecondsPerSecond, nowMs % MillisecondsPerSecond;
    assert nowMs == MillisecondsPerSecond * q + m;
    RoundDivShift(m, MillisecondsPerSecond, q);
    RoundDivShift(MillisecondsPerSecond * RoundDiv(m, MillisecondsPerSecond) - m, MillisecondsPerSecond, q + rem);
    RoundDiv(MillisecondsPerSecond * end - nowMs, MillisecondsPerSecond)
  }

  /**
   * The predicted end stays within one second of the exact end, (now in ticks + ticks left) / 10^7:
   * the two roundings each shift it by at most half a second.
   */
  lemma EndBracket(item: Item, ps: PlayState, nowMs: int)
    ensures var exact := TicksPerMillisecond * nowMs + item.runTimeTicks - ps.positionTicks;
            var e := CalcEndTimestamp(item, ps, nowMs);
            TicksPerSecond * (e - 1) <= exact < TicksPerSecond * (e + 1)
  {
  }

  /**
   * Two polls of the same playback that advanced exactly with the clock (no seek, no pause)
   * predict end timestamps at most one second apart.
   */
  lemma EndDriftAtMostOneSecond(item: Item, ps1: PlayState, ps2: PlayState, t1: int, t2: int)
    requires ps2.positionTicks - ps1.positionTicks == TicksPerMillisecond * (t2 - t1)
    ensures -1 <= CalcEndTimestamp(item, ps2, t2) - CalcEndTimestamp(item, ps1, t1) <= 1
  {
    EndBracket(item, ps1, t1);
    EndBracket(item, ps2, t2);
  }

  /**
   * The drift can go backwards: 10.5 s left at t = 0 ms predicts 11, and 10.4 s left 100 ms later
   * predicts 10. A later poll of unchanged playback can therefore move the end earlier.
   */
  lemma EndCanMoveEarlier()
    ensures var item := Item("Movie", "m", None, None, None, None, 105000000);
            CalcEndTimestamp(item, PlayState(false, 0), 0) == 11
            && CalcEndTimestamp(item, PlayState(false, 1000000), 100) == 10
  {
  }

  /**
   * main.js rounds the tick difference once. Rounding to milliseconds first and then to
   * seconds would give a different answer: 4999500 ticks (0.49995 s) is 0 seconds here but
   * would be 500 ms and then 1 second.
   */
  lemma SingleRounding()
    ensures var item := Item("Audio", "a", None, None, None, None, 4999500);
            RemainingSeconds(item, PlayState(false, 0)) == 0
            && RoundDiv(RoundDiv(4999500, TicksPerMillisecond), MillisecondsPerSecond) == 1
  {
  }
}
