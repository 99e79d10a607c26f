/** The timer panel: one interval at a time, either a count-up focus interval or a
    count-down break, driven by the buttons and a one-second tick.  Every interval
    that ends (stop, skip or natural expiry of a break) yields exactly one record,
    which is appended both to today's list and to the stored history.

    React's state updates are applied here in the order the handler issues them,
    and only the last write to a field survives, as in a batched render.  Effects
    that React runs after a render are explicit calls: `BreakExpiry` is the effect
    watching the break countdown, and `Load` is the mount effect. */
module TimerPanel {
  import opened Wrappers
  import opened Text
  import opened Sessions
  import opened Totals
  import opened Format
  import opened Storage

  datatype Mode = Focus | Break

  /** The user's settings: break lengths in minutes and the long-break period. */
  datatype Settings = Settings(shortBreakMinutes: int, longBreakMinutes: int, flowsBeforeLongBreak: int)

  /** A snapshot of the panel's state, used to say what a handler leaves alone. */
  datatype Panel = Panel(
    mode: Mode, running: bool, seconds: int, breakSecondsLeft: int, breakMinutes: int,
    breakTitle: string, flowCount: int, settings: Settings, sessions: seq<Session>)

  /** Whether the break after the `flowNumber`-th flow of the day is a long one
      (src/components/TimerPanel.jsx:230): the flow number is a multiple of the
      period.  A period of zero makes the remainder NaN, which compares unequal
      to 0, so every break is short. */
  predicate IsLongBreak(flowsBeforeLongBreak: int, flowNumber: int) {
    flowsBeforeLongBreak != 0 && flowNumber % flowsBeforeLongBreak == 0
  }

  /** With a positive period k, the k-th, 2k-th, ... flows are followed by a long
      break and every other flow by a short one. */
  lemma LongBreakEveryKth(k: int, j: int, r: int)
    requires k > 0 && j >= 0 && 0 <= r < k
    ensures IsLongBreak(k, j * k + r) <==> r == 0
  {
    assert (j * k + r) / k == j && (j * k + r) % k == r by {
      DivModUnique(j * k + r, k, j, r);
    }
  }

  /** The title of the break that follows the `flowNumber`-th flow, and its length in minutes. */
  function NextBreak(s: Settings, flowNumber: int): (b: (string, int))
    ensures IsLongBreak(s.flowsBeforeLongBreak, flowNumber) ==> b == ("Big Break", s.longBreakMinutes)
    ensures !IsLongBreak(s.flowsBeforeLongBreak, flowNumber) ==> b == ("Break", s.shortBreakMinutes)
  {
    if IsLongBreak(s.flowsBeforeLongBreak, flowNumber) then ("Big Break", s.longBreakMinutes)
    else ("Break", s.shortBreakMinutes)
  }

  /** The kind a break record is stored with: `big_break` for a break titled
      "Big Break", `break` otherwise. */
  function BreakKind(title: string): (k: string)
    ensures k == "big_break" <==> title == "Big Break"
    ensures k == "break" <==> title != "Big Break"
  {
    if title == "Big Break" then "big_break" else "break"
  }

  /** The rows of a day returned by the backend, as the panel keeps them: id,
      seconds, kind and date only, so without a local day and never marked synced. */
  function FromApi(rows: seq<Session>): (ss: seq<Session>)
    ensures |ss| == |rows|
    ensures forall i :: 0 <= i < |rows| ==>
              ss[i].id == rows[i].id && !ss[i].synced && ss[i].entry.localDay == ""
              && ss[i].entry == rows[i].entry.(localDay := "")
  {
    seq(|rows|, i requires 0 <= i < |rows| => Session(rows[i].id, rows[i].entry.(localDay := ""), false))
  }

  class Timer {
    var mode: Mode
    var running: bool
    /** The focus interval's elapsed seconds, counting up. */
    var seconds: int
    /** The break's remaining seconds, counting down. */
    var breakSecondsLeft: int
    /** The length of the current (or next) break. */
    var breakMinutes: int
    /** "Break" or "Big Break". */
    var breakTitle: string
    var flowCount: int
    var settings: Settings
    /** Today's records, as shown in the total-time statistic. */
    var sessions: seq<Session>
    /** The stored history every finished interval is appended to. */
    const store: LocalStore

    function State(): Panel
      reads this
    {
      Panel(mode, running, seconds, breakSecondsLeft, breakMinutes, breakTitle, flowCount, settings, sessions)
    }

    /** The panel as first rendered: a paused focus interval at zero, the default
        settings and their short break. */
    constructor (defaults: Settings, store: LocalStore)
      ensures this.store == store
      ensures State() == Panel(Focus, false, 0, 0, defaults.shortBreakMinutes, "Break", 0, defaults, [])
    {
      mode, running, seconds, breakSecondsLeft := Focus, false, 0, 0;
      breakMinutes, breakTitle, flowCount := defaults.shortBreakMinutes, "Break", 0;
      settings, sessions := defaults, [];
      this.store := store;
    }

    /** The statistic under the clock: today's seconds added up, as a compact duration. */
    function TotalTime(): (r: string)
      reads this
      ensures ParseDuration(r).Some? && Describes(ParseDuration(r).value, Clamp(SumSeconds(sessions)))
    {
      FormatDuration(SumSeconds(sessions))
    }

    method Start()
      modifies this
      ensures State() == old(State()).(running := true)
    {
      running := true;
    }

    method Pause()
      modifies this
      ensures State() == old(State()).(running := false)
    {
      running := false;
    }

    /** Back to the start of the current interval, without pausing: zero elapsed in
        focus, the full break length in a break. */
    method Reset()
      modifies this
      ensures old(mode) == Focus ==> State() == old(State()).(seconds := 0)
      ensures old(mode) == Break ==> State() == old(State()).(breakSecondsLeft := old(breakMinutes) * 60)
    {
      if mode == Focus {
        seconds := 0;
      } else {
        breakSecondsLeft := breakMinutes * 60;
      }
    }

    /** One second of the interval timer: only while running, one counter moves by one. */
    method Tick()
      modifies this
      ensures !old(running) ==> State() == old(State())
      ensures old(running) && old(mode) == Focus ==> State() == old(State()).(seconds := old(seconds) + 1)
      ensures old(running) && old(mode) == Break ==>
                State() == old(State()).(breakSecondsLeft := old(breakSecondsLeft) - 1)
    {
      if running {
        if mode == Focus {
          seconds := seconds + 1;
        } else {
          breakSecondsLeft := breakSecondsLeft - 1;
        }
      }
    }

    /** The settings listener: new settings, and the next break back to the short length. */
    method OnSettings(s: Settings)
      modifies this
      ensures State() == old(State()).(settings := s, breakMinutes := s.shortBreakMinutes)
    {
      settings := s;
      breakMinutes := s.shortBreakMinutes;
    }

    /** `recordSession` (as intended) and `recordBreak`: build the record from the
        clamped duration and the clock reading, send it, and append what was kept
        to today's list and to the stored history. */
    method Record(secondsSpent: int, kind: string, now: Now, outcome: PostOutcome) returns (saved: Session)
      requires now.Valid()
      modifies this, store
      ensures saved == Saved(NewEntry(secondsSpent, kind, now), outcome, now.millis)
      ensures saved.entry.seconds >= 0 && saved.entry.kind == kind
      ensures State() == old(State()).(sessions := old(sessions) + [saved])
      ensures store.entries == old(store.entries) + [saved]
    {
      var entry := NewEntry(secondsSpent, kind, now);
      saved := store.Persist(entry, outcome, now.millis);
      sessions := sessions + [saved];
    }

    /** The focus branch of `stopOrSkip`: record the focus interval under the
        button's name, count one more flow and start, running, the break that flow
        earns. */
    method FinishFocus(action: string, now: Now, outcome: PostOutcome) returns (saved: Session)
      requires now.Valid()
      modifies this, store
      ensures saved == Saved(NewEntry(old(seconds), action, now), outcome, now.millis)
      ensures store.entries == old(store.entries) + [saved]
      ensures var next := NextBreak(old(settings), old(flowCount) + 1);
              State() == old(State()).(mode := Break, running := true, seconds := 0,
                                       flowCount := old(flowCount) + 1, breakTitle := next.0,
                                       breakMinutes := next.1, breakSecondsLeft := next.1 * 60,
                                       sessions := old(sessions) + [saved])
    {
      var next := NextBreak(settings, flowCount + 1);
      ghost var before := State();
      saved := Record(seconds, action, now, outcome);
      ghost var mid := State();
      assert mid == before.(sessions := before.sessions + [saved]);
      // `recordSession` also sets `running` to false, but the handler's later
      // `setRunning(true)` is the write that survives.
      flowCount, seconds, running, mode := flowCount + 1, 0, true, Break;
      breakMinutes, breakTitle, breakSecondsLeft := next.1, next.0, next.1 * 60;
      assert State() == mid.(mode := Break, running := true, seconds := 0, flowCount := mid.flowCount + 1,
                             breakTitle := next.0, breakMinutes := next.1, breakSecondsLeft := next.1 * 60);
    }

    /** The common tail of ending a break, early or at expiry: record the given
        time under the break's kind and start, running, a new focus interval. */
    method FinishBreak(elapsed: int, now: Now, outcome: PostOutcome) returns (saved: Session)
      requires now.Valid()
      modifies this, store
      ensures saved == Saved(NewEntry(elapsed, BreakKind(old(breakTitle)), now), outcome, now.millis)
      ensures store.entries == old(store.entries) + [saved]
      ensures State() == old(State()).(mode := Focus, running := true, seconds := 0, breakSecondsLeft := 0,
                                       sessions := old(sessions) + [saved])
    {
      ghost var before := State();
      saved := Record(elapsed, BreakKind(breakTitle), now, outcome);
      ghost var mid := State();
      assert mid == before.(sessions := before.sessions + [saved]);
      mode := Focus;
      breakSecondsLeft := 0;
      seconds := 0;
      running := true;
      assert State() == mid.(mode := Focus, running := true, seconds := 0, breakSecondsLeft := 0);
    }

    /** The Stop and Skip buttons: end the current interval early.  A focus
        interval is recorded under the button's name; a break records the time
        actually spent in it, its length less what was left. */
    method StopOrSkip(action: string, now: Now, outcome: PostOutcome) returns (saved: Session)
      requires now.Valid()
      modifies this, store
      ensures store.entries == old(store.entries) + [saved] && sessions == old(sessions) + [saved]
      ensures old(mode) == Focus ==> saved == Saved(NewEntry(old(seconds), action, now), outcome, now.millis)
      ensures old(mode) == Focus ==>
                var next := NextBreak(old(settings), old(flowCount) + 1);
                State() == old(State()).(mode := Break, running := true, seconds := 0,
                                         flowCount := old(flowCount) + 1, breakTitle := next.0,
                                         breakMinutes := next.1, breakSecondsLeft := next.1 * 60,
                                         sessions := old(sessions) + [saved])
      ensures old(mode) == Break ==>
                saved == Saved(NewEntry(old(breakMinutes) * 60 - old(breakSecondsLeft), BreakKind(old(breakTitle)), now),
                               outcome, now.millis)
      ensures old(mode) == Break ==>
                State() == old(State()).(mode := Focus, running := true, seconds := 0, breakSecondsLeft := 0,
                                         sessions := old(sessions) + [saved])
    {
      if mode == Focus {
        saved := FinishFocus(action, now, outcome);
      } else {
        saved := FinishBreak(breakMinutes * 60 - breakSecondsLeft, now, outcome);
      }
    }

    /** The handler as written: `recordSession` has no semicolon between the
        entry's object literal and the parenthesised async function after it, so
        the literal is called as a function and a TypeError is thrown before any
        state update.  Stop or skip in focus therefore does nothing at all; in a
        break it works as intended.  `StopOrSkip` is the intended handler. */
    method StopOrSkipAsWritten(action: string, now: Now, outcome: PostOutcome) returns (saved: Option<Session>)
      requires now.Valid()
      modifies this, store
      ensures old(mode) == Focus ==> saved == None && State() == old(State()) && store.entries == old(store.entries)
      ensures old(mode) == Break ==>
                saved.Some? && store.entries == old(store.entries) + [saved.value]
                && State() == old(State()).(mode := Focus, running := true, seconds := 0, breakSecondsLeft := 0,
                                            sessions := old(sessions) + [saved.value])
    {
      if mode == Focus {
        saved := None;
      } else {
        var s := StopOrSkip(action, now, outcome);
        saved := Some(s);
      }
    }

    /** A break that ran out: the full break length is recorded, then a new focus interval starts. */
    method OnBreakEnd(now: Now, outcome: PostOutcome) returns (saved: Session)
      requires now.Valid()
      modifies this, store
      ensures saved == Saved(NewEntry(old(breakMinutes) * 60, BreakKind(old(breakTitle)), now), outcome, now.millis)
      ensures store.entries == old(store.entries) + [saved]
      ensures State() == old(State()).(mode := Focus, running := true, seconds := 0, breakSecondsLeft := 0,
                                       sessions := old(sessions) + [saved])
    {
      saved := FinishBreak(breakMinutes * 60, now, outcome);
    }

    /** The effect watching the countdown: a break with no seconds left ends. */
    method BreakExpiry(now: Now, outcome: PostOutcome) returns (saved: Option<Session>)
      requires now.Valid()
      modifies this, store
      ensures !(old(mode) == Break && old(breakSecondsLeft) <= 0) ==>
                saved == None && State() == old(State()) && store.entries == old(store.entries)
      ensures old(mode) == Break && old(breakSecondsLeft) <= 0 ==>
                saved == Some(Saved(NewEntry(old(breakMinutes) * 60, BreakKind(old(breakTitle)), now), outcome, now.millis))
                && store.entries == old(store.entries) + [saved.value]
                && State() == old(State()).(mode := Focus, running := true, seconds := 0, breakSecondsLeft := 0,
                                            sessions := old(sessions) + [saved.value])
    {
      if mode == Break && breakSecondsLeft <= 0 {
        var s := OnBreakEnd(now, outcome);
        saved := Some(s);
      } else {
        saved := None;
      }
    }

    /** The mount effect.  Today's records come from the backend when it answers
        (`api`), otherwise from the stored history filtered to today, and in that
        case every unsynced stored record is re-sent, one POST outcome each.  The
        saved settings, if any, are applied as the settings listener does.  The
        flow count then follows the number of today's records. */
    method Load(api: Option<seq<Session>>, now: Now, outcomes: seq<PostOutcome>, savedSettings: Option<Settings>)
      requires now.Valid()
      requires api.None? ==> |outcomes| == Pending(store.entries)
      modifies this, store
      ensures var today := LocalDay(now.year, now.month0, now.day);
              sessions == (if api.Some? then FromApi(api.value) else ForDay(old(store.entries), today))
      ensures api.Some? ==> store.entries == old(store.entries)
      ensures api.None? ==> store.entries == SyncAll(old(store.entries), outcomes)
      ensures flowCount == |sessions|
      ensures savedSettings.Some? ==>
                settings == savedSettings.value && breakMinutes == savedSettings.value.shortBreakMinutes
      ensures savedSettings.None? ==> settings == old(settings) && breakMinutes == old(breakMinutes)
      ensures mode == old(mode) && running == old(running) && seconds == old(seconds)
      ensures breakSecondsLeft == old(breakSecondsLeft) && breakTitle == old(breakTitle)
    {
      if api.Some? {
        sessions := FromApi(api.value);
      } else {
        var today := LocalDay(now.year, now.month0, now.day);
        sessions := ForDay(store.entries, today);
        if Pending(store.entries) > 0 {
          store.SyncPass(outcomes);
        } else {
          SyncAllFailed(store.entries, outcomes);
        }
      }
      if savedSettings.Some? {
        OnSettings(savedSettings.value);
      }
      flowCount := |sessions|;
    }
  }

  /** Stop in focus, as written and as intended, on a fresh panel: the first
      records nothing, the second one record. */
  method FocusStopRecords(now: Now, outcome: PostOutcome) returns (asWritten: nat, intended: nat)
    requires now.Valid()
    ensures asWritten == 0 && intended == 1
  {
    var defaults := Settings(5, 15, 4);
    var store1 := new LocalStore([]);
    var t1 := new Timer(defaults, store1);
    var r1 := t1.StopOrSkipAsWritten("stop", now, outcome);
    asWritten := |store1.entries|;
    var store2 := new LocalStore([]);
    var t2 := new Timer(defaults, store2);
    var r2 := t2.StopOrSkip("stop", now, outcome);
    intended := |store2.entries|;
  }
}
