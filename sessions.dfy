/** Session records as the client builds, stores and filters them, and as the
    backend stores them as rows.  A JavaScript field that is missing, null or the
    empty string is falsy and is treated alike by every reader, so it is written
    here as "" (for `local_day` and `kind`) or false (for `synced`). */
module Sessions {
  import opened Text

  /** The fields of a finished interval: `{ seconds, kind, date, local_day }`. */
  datatype Entry = Entry(seconds: int, kind: string, date: string, localDay: string)

  /** A stored record: the entry together with its id and whether the backend has it. */
  datatype Session = Session(id: int, entry: Entry, synced: bool)

  /** What a POST of one record to the backend yields: the new row's id, or any
      failure (refused request, server error, unreachable network) alike. */
  datatype PostOutcome = Accepted(id: int) | Failed

  /** The clock readings a record is stamped with: the ISO-8601 instant, the local
      calendar date (month counted from 0, as `Date.getMonth` does) and
      `Date.now()`, which serves as a provisional id. */
  datatype Now = Now(iso: string, year: int, month0: int, day: int, millis: int) {
    predicate Valid() {
      0 <= month0 < 12 && 1 <= day <= 31
    }
  }

  /** `localDayForDate`: the local date as `YYYY-MM-DD`, the year as `toString`
      gives it and month and day padded to two digits. */
  function LocalDay(year: int, month0: int, day: int): (r: string)
    requires 0 <= month0 < 12 && 1 <= day <= 31
  {
    IntString(year) + "-" + TwoDigits(month0 + 1) + "-" + TwoDigits(day)
  }

  /** The label read back: the year's `toString`, then a dash, the month counted
      from 1 as two digits, a dash and the day as two digits. */
  lemma LocalDayShape(year: int, month0: int, day: int)
    requires 0 <= month0 < 12 && 1 <= day <= 31
    ensures var r := LocalDay(year, month0, day);
            |r| == |IntString(year)| + 6 && r[..|r| - 6] == IntString(year)
            && r[|r| - 6] == '-' && r[|r| - 3] == '-'
            && IsDigit(r[|r| - 5]) && IsDigit(r[|r| - 4])
            && DigitValue(r[|r| - 5]) * 10 + DigitValue(r[|r| - 4]) == month0 + 1
            && IsDigit(r[|r| - 2]) && IsDigit(r[|r| - 1])
            && DigitValue(r[|r| - 2]) * 10 + DigitValue(r[|r| - 1]) == day
  {
    var y := IntString(year);
    var r := LocalDay(year, month0, day);
    assert r[..|r| - 6] == y;
  }

  /** For a four-digit year the label is ten characters long, the length of the
      date prefix it is compared with. */
  lemma FourDigitYearLabel(year: int, month0: int, day: int)
    requires 1000 <= year <= 9999 && 0 <= month0 < 12 && 1 <= day <= 31
    ensures |LocalDay(year, month0, day)| == 10
  {
    LocalDayShape(year, month0, day);
    assert |Decimal(year / 100)| == 2;
    assert |Decimal(year / 10)| == 3;
    assert |Decimal(year)| == 4;
  }

  /** Two readings of the local date get the same label only if they are the same date. */
  lemma LocalDayInjective(y1: int, m1: int, d1: int, y2: int, m2: int, d2: int)
    requires 0 <= m1 < 12 && 1 <= d1 <= 31 && 0 <= m2 < 12 && 1 <= d2 <= 31
    requires LocalDay(y1, m1, d1) == LocalDay(y2, m2, d2)
    ensures y1 == y2 && m1 == m2 && d1 == d2
  {
    LocalDayShape(y1, m1, d1);
    LocalDayShape(y2, m2, d2);
    IntStringInjective(y1, y2);
  }

  lemma IntStringInjective(x: int, y: int)
    requires IntString(x) == IntString(y)
    ensures x == y
  {
    var s := IntString(x);
    if x < 0 {
      assert Value(Decimal(-x)) == Value(s[1..]) == Value(Decimal(-y));
    } else {
      assert Value(Decimal(x)) == Value(s) == Value(Decimal(y));
    }
  }

  /** The record a finished interval produces (`recordBreak`, and `recordSession`
      as intended): the duration clamped at zero, the instant, and the local day
      computed once from the same clock reading. */
  function NewEntry(secondsSpent: int, kind: string, now: Now): (e: Entry)
    requires now.Valid()
    ensures e.seconds >= 0
    ensures secondsSpent >= 0 ==> e.seconds == secondsSpent
    ensures secondsSpent < 0 ==> e.seconds == 0
    ensures e.kind == kind && e.date == now.iso
    ensures e.localDay == LocalDay(now.year, now.month0, now.day)
  {
    Entry(if secondsSpent < 0 then 0 else secondsSpent, kind, now.iso, LocalDay(now.year, now.month0, now.day))
  }

  /** `date.slice(0, 10)` (and SQL `substr(date, 1, 10)`): the first ten characters. */
  function DatePrefix(date: string): (p: string)
    ensures p <= date
    ensures |p| == if |date| < 10 then |date| else 10
  {
    if |date| <= 10 then date else date[..10]
  }

  /** The client's day rule: a record's own local day if it has one, and for a
      legacy record without one the calendar date of its instant. */
  predicate KeptForDay(s: Session, day: string) {
    if s.entry.localDay != "" then s.entry.localDay == day else DatePrefix(s.entry.date) == day
  }

  /** Under the client's rule a record belongs to exactly one day. */
  lemma KeptForOneDay(s: Session, day1: string, day2: string)
    requires KeptForDay(s, day1) && KeptForDay(s, day2)
    ensures day1 == day2
  {
  }

  /** The client's day filter (src/components/CalendarView.jsx:36): the records,
      in order, that the day rule keeps. */
  function ForDay(rs: seq<Session>, day: string): (kept: seq<Session>)
    ensures |kept| <= |rs|
    ensures forall s :: s in kept <==> s in rs && KeptForDay(s, day)
  {
    if rs == [] then []
    else
      var last := rs[|rs| - 1];
      ForDay(rs[..|rs| - 1], day) + (if KeptForDay(last, day) then [last] else [])
  }

  /** Filtering a list is filtering its two halves: the kept records stay in
      their original order, together with `ForDayOne` below. */
  lemma {:induction false} ForDayAppend(a: seq<Session>, b: seq<Session>, day: string)
    ensures ForDay(a + b, day) == ForDay(a, day) + ForDay(b, day)
    decreases |b|
  {
    if b == [] {
      assert a + b == a;
    } else {
      var init, last := b[..|b| - 1], b[|b| - 1];
      assert (a + b)[..|a + b| - 1] == a + init;
      assert (a + b)[|a + b| - 1] == last;
      ForDayAppend(a, init, day);
    }
  }

  /** A single record is kept exactly when the day rule keeps it. */
  lemma ForDayOne(s: Session, day: string)
    ensures ForDay([s], day) == if KeptForDay(s, day) then [s] else []
  {
    assert [s][..0] == [];
  }

  /** Each kept record is kept as often as it occurs, and no other is. */
  lemma {:induction false} ForDayCount(rs: seq<Session>, day: string, s: Session)
    ensures multiset(ForDay(rs, day))[s] == if KeptForDay(s, day) then multiset(rs)[s] else 0
    decreases |rs|
  {
    if rs != [] {
      var init, last := rs[..|rs| - 1], rs[|rs| - 1];
      assert rs == init + [last];
      ForDayCount(init, day, s);
    }
  }

  /** The number of records the backend has not acknowledged (the unsynced ones). */
  function Pending(es: seq<Session>): (n: nat)
    ensures n <= |es|
    ensures n == 0 <==> forall i :: 0 <= i < |es| ==> es[i].synced
  {
    if es == [] then 0 else (if es[0].synced then 0 else 1) + Pending(es[1..])
  }

  lemma {:induction false} PendingAppend(es: seq<Session>, s: Session)
    ensures Pending(es + [s]) == Pending(es) + (if s.synced then 0 else 1)
    decreases |es|
  {
    if es != [] {
      assert (es + [s])[1..] == es[1..] + [s];
      PendingAppend(es[1..], s);
    } else {
      assert ([] + [s])[1..] == [];
    }
  }
}
