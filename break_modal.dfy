/** The stand-alone break countdown: a break of a given number of minutes that
    counts down once a second while running, ends itself when it reaches zero,
    and can be paused, resumed, reset, stopped or skipped.  The parent's `onEnd`
    and `onClose` callbacks are recorded, in order, in `calls`. */
module BreakModal {
  import opened Text
  import Format

  datatype Callback = OnEnd | OnClose

  /** JavaScript's `a % b` for a positive divisor: the remainder takes the sign
      of the dividend (a zero remainder prints as 0 either way). */
  function JsRem(a: int, b: int): (r: int)
    requires b > 0
    ensures a >= 0 ==> r == a % b
    ensures a < 0 ==> -b < r <= 0
    ensures (a - r) % b == 0
  {
    if a < 0 && a % b != 0 then
      DivModUnique(a - (a % b - b), b, a / b + 1, 0);
      a % b - b
    else
      DivModUnique(a - a % b, b, a / b, 0);
      a % b
  }

  /** `formatTime`, which does not clamp: minutes by flooring division, seconds
      by the truncating remainder, each as `toString` padded to two characters.
      For a non-negative count it is the panel's clock face; a negative count
      shows a minus sign in front. */
  function FormatTime(s: int): (r: string)
    ensures s >= 0 ==> r == Format.FormatTime(s)
    ensures s < 0 ==> |r| >= 1 && r[0] == '-'
  {
    var m, sec := s / 60, JsRem(s, 60);
    var mm := IntString(m);
    assert s < 0 ==> PadStart2(mm) == mm by {
      if s < 0 {
        assert |Decimal(-m)| >= 1;
      }
    }
    PadStart2(mm) + " : " + PadStart2(IntString(sec))
  }

  class BreakCountdown {
    const minutes: int
    /** Whether the parent passed an `onClose` callback. */
    const hasOnClose: bool
    var secondsLeft: int
    var running: bool
    var calls: seq<Callback>

    /** Mounting: the full break, running; the end check runs once on mount, so a
        break of no length ends at once. */
    constructor (minutes: int, hasOnClose: bool)
      ensures this.minutes == minutes && this.hasOnClose == hasOnClose
      ensures secondsLeft == minutes * 60
      ensures minutes * 60 > 0 ==> running && calls == []
      ensures minutes * 60 <= 0 ==> !running && calls == [OnEnd]
    {
      this.minutes := minutes;
      this.hasOnClose := hasOnClose;
      secondsLeft := minutes * 60;
      running := true;
      calls := [];
      new;
      EndCheck();
    }

    /** The effect run whenever `secondsLeft` changes: at zero or below the
        countdown stops and `onEnd` fires. */
    method EndCheck()
      modifies this
      ensures secondsLeft == old(secondsLeft)
      ensures old(secondsLeft) <= 0 ==> !running && calls == old(calls) + [OnEnd]
      ensures old(secondsLeft) > 0 ==> running == old(running) && calls == old(calls)
    {
      if secondsLeft <= 0 {
        running := false;
        calls := calls + [OnEnd];
      }
    }

    /** One second of the interval, which exists only while running. */
    method Tick()
      modifies this
      ensures !old(running) ==> secondsLeft == old(secondsLeft) && running == old(running) && calls == old(calls)
      ensures old(running) ==> secondsLeft == old(secondsLeft) - 1
      ensures old(running) && secondsLeft <= 0 ==> !running && calls == old(calls) + [OnEnd]
      ensures old(running) && secondsLeft > 0 ==> running && calls == old(calls)
    {
      if running {
        secondsLeft := secondsLeft - 1;
        EndCheck();
      }
    }

    method Pause()
      modifies this
      ensures !running && secondsLeft == old(secondsLeft) && calls == old(calls)
    {
      running := false;
    }

    method Resume()
      modifies this
      ensures running && secondsLeft == old(secondsLeft) && calls == old(calls)
    {
      running := true;
    }

    /** Reset: the full break again, paused.  The end check runs only if the count
        actually changed. */
    method Reset()
      modifies this
      ensures secondsLeft == minutes * 60 && !running
      ensures old(secondsLeft) != minutes * 60 && minutes * 60 <= 0 ==> calls == old(calls) + [OnEnd]
      ensures !(old(secondsLeft) != minutes * 60 && minutes * 60 <= 0) ==> calls == old(calls)
    {
      var changed := secondsLeft != minutes * 60;
      secondsLeft := minutes * 60;
      running := false;
      if changed {
        EndCheck();
      }
    }

    /** Stop and Skip alike: `onEnd`, then `onClose` when there is one; the count is left as it is. */
    method StopOrSkip()
      modifies this
      ensures calls == old(calls) + [OnEnd] + (if hasOnClose then [OnClose] else [])
      ensures secondsLeft == old(secondsLeft) && running == old(running)
    {
      calls := calls + [OnEnd];
      if hasOnClose {
        calls := calls + [OnClose];
      }
    }
  }
}
