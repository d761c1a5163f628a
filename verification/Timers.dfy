/** The millisecond timer every component polls. A timer is armed while both of its marks are
    non-zero, so a timer that is started at clock reading 0 never becomes valid. */
module Timers {
  // Differences of clock readings are cast to an unsigned type of 32 bits.
  const UNSIGNED_LONG := 0x1_0000_0000

  datatype TimerMarks = TimerMarks(startMs: int, endMs: int) {
    predicate Armed() {
      startMs != 0 && endMs != 0
    }

    function Remaining(now: int): (left: int)
      ensures 0 <= left < UNSIGNED_LONG
      ensures endMs == 0 || now >= endMs ==> left == 0
      ensures endMs != 0 && 0 < endMs - now < UNSIGNED_LONG ==> left == endMs - now
    {
      if endMs == 0 || now >= endMs then 0 else (endMs - now) % UNSIGNED_LONG
    }

    function Expired(now: int): (gone: int)
      ensures 0 <= gone < UNSIGNED_LONG
    {
      if startMs == 0 then 0
      else if Remaining(now) == 0 then (endMs - startMs) % UNSIGNED_LONG
      else (now - startMs) % UNSIGNED_LONG
    }

    /** The configured period: before a start the bare end mark, afterwards the distance. */
    function Time(): int {
      if startMs != 0 && startMs <= endMs then (endMs - startMs) % UNSIGNED_LONG else endMs % UNSIGNED_LONG
    }
  }

  const CLEARED := TimerMarks(0, 0)

  function Started(now: int, period: int): TimerMarks {
    TimerMarks(now, now + period)
  }

  class Timer {
    var startMs: int
    var endMs: int

    constructor ()
      ensures Marks() == CLEARED
    {
      startMs, endMs := 0, 0;
    }

    function Marks(): TimerMarks
      reads this
    {
      TimerMarks(startMs, endMs)
    }

    method Start(now: int, period: int)
      modifies this
      ensures Marks() == Started(now, period)
    {
      startMs := now;
      endMs := startMs + period;
    }

    method SetTime(period: int)
      modifies this
      ensures Marks() == TimerMarks(old(startMs), period)
    {
      endMs := period;
    }

    method Clear()
      modifies this
      ensures Marks() == CLEARED
    {
      startMs := 0;
      endMs := 0;
    }
  }

  /** Re-arming an expired timer with its own elapsed time keeps it armed: a state that timed out
      is asked again at the next dispatch. */
  lemma {:induction false} RestartKeepsArmed(t: TimerMarks, now1: int, now2: int)
    requires t.Armed() && t.endMs <= now1
    requires 0 < t.startMs <= t.endMs < t.startMs + UNSIGNED_LONG && now1 <= now2
    ensures Started(now2, t.Expired(now1)).Armed()
    ensures Started(now2, t.Expired(now1)).Time() == t.Time()
  {
  }
}
