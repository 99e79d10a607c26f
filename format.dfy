/** The timer's two duration renderings: the clock face `MM : SS` (`formatTime`)
    and the compact total `Hh Mm` / `Mm Ss` / `Ss` (`formatDuration`).  Each comes
    with a reader that takes the rendered text apart again, and the contracts say
    what the numbers read back mean. */
module Format {
  import opened Wrappers
  import opened Text

  /** Negative durations are shown as zero. */
  function Clamp(n: int): (c: nat)
    ensures n >= 0 ==> c == n
    ensures n < 0 ==> c == 0
  {
    if n < 0 then 0 else n
  }

  // ---------------------------------------------------------------- clock face

  /** Reads `MM : SS`: at least two digits of minutes (no leading zero beyond
      two), the separator, exactly two digits of seconds. */
  function ParseClock(t: string): (r: Option<(nat, nat)>) {
    var n := DigitRun(t);
    if 2 <= n && (n == 2 || t[0] != '0') && |t| == n + 5 && t[n..n + 3] == " : " && AllDigits(t[n + 3..]) then
      Some((Value(t[..n]), Value(t[n + 3..])))
    else
      None
  }

  /** `t` reads back as `c` seconds: whole minutes, then the seconds left over (below 60). */
  predicate ShowsClock(t: string, c: nat) {
    var p := ParseClock(t);
    p.Some? && p.value.1 < 60 && p.value.0 * 60 + p.value.1 == c
  }

  /** A clock face built from padded minutes and two-digit seconds reads back as those two numbers. */
  lemma ClockReadsBack(m: nat, s: nat)
    requires s < 100
    ensures ParseClock(PadStart2(Decimal(m)) + " : " + TwoDigits(s)) == Some((m, s))
  {
    DecimalCanonical(m);
    ClockFieldsReadBack(PadStart2(Decimal(m)), TwoDigits(s));
  }

  lemma ClockFieldsReadBack(mm: string, ss: string)
    requires |mm| >= 2 && AllDigits(mm) && (|mm| == 2 || mm[0] != '0') && |ss| == 2 && AllDigits(ss)
    ensures ParseClock(mm + " : " + ss) == Some((Value(mm), Value(ss)))
  {
    var t := mm + " : " + ss;
    assert t == mm + (" : " + ss) && t[0] == mm[0];
    DigitRunStops(mm, " : " + ss);
    var n := |mm|;
    assert t[n..n + 3] == " : " && t[n + 3..] == ss;
  }

  /** Zero minutes and zero seconds make the clock face "00 : 00". */
  lemma ZeroFace()
    ensures PadStart2(Decimal(0)) + " : " + PadStart2(Decimal(0)) == "00 : 00"
  {
    assert Decimal(0) == "0";
  }

  /** `formatTime`: minutes and seconds of the clamped count, each padded to two digits. */
  function FormatTime(n: int): (r: string)
    ensures ShowsClock(r, Clamp(n))
    ensures n <= 0 ==> r == "00 : 00"
  {
    var secs := Clamp(n);
    var m, s := secs / 60, secs % 60;
    TwoDigitsPadded(s);
    ClockReadsBack(m, s);
    assert n <= 0 ==> m == 0 && s == 0;
    ZeroFace();
    PadStart2(Decimal(m)) + " : " + PadStart2(Decimal(s))
  }

  /** The clock face is the only text that reads back as its count: whatever
      shows `c` seconds is exactly `formatTime(c)`. */
  lemma ClockFaceUnique(t: string, c: nat)
    requires ShowsClock(t, c)
    ensures t == FormatTime(c)
  {
    var n := DigitRun(t);
    var mm, ss := t[..n], t[n + 3..];
    assert t == mm + " : " + ss;
    PaddedForm(mm);
    PaddedForm(ss);
    var p := ParseClock(t).value;
    DivModUnique(c, 60, p.0, p.1);
  }

  // ---------------------------------------------------------- compact duration

  /** The three shapes of a compact duration, with the numbers each shows. */
  datatype Duration = HoursMinutes(h: nat, m: nat) | MinutesSeconds(m: nat, s: nat) | SecondsOnly(s: nat)

  /** `d` is the right rendering of `c` seconds: hours and minutes (seconds dropped)
      from one hour up, minutes and seconds from one minute up, seconds below that. */
  predicate Describes(d: Duration, c: nat) {
    match d
    case HoursMinutes(h, m) => c >= 3600 && m < 60 && h * 3600 + m * 60 <= c < h * 3600 + m * 60 + 60
    case MinutesSeconds(m, s) => 60 <= c < 3600 && s < 60 && m * 60 + s == c
    case SecondsOnly(s) => c < 60 && s == c
  }

  /** Reads `<h>h <m>m`, `<m>m <s>s` or `<s>s`. */
  function ParseDuration(t: string): (r: Option<Duration>) {
    var n := DigitRun(t);
    if n == 0 || (n > 1 && t[0] == '0') then None
    else
      var a, rest := Value(t[..n]), t[n..];
      if rest == "s" then Some(SecondsOnly(a))
      else if |rest| >= 3 && rest[1] == ' ' then SecondField(a, rest[0], rest[2..])
      else None
  }

  /** Reads the second number of a two-field duration and its unit, given the first number and unit. */
  function SecondField(a: nat, unit: char, tail: string): (r: Option<Duration>) {
    var k := DigitRun(tail);
    if k == 0 || (k > 1 && tail[0] == '0') then None
    else
      var b := Value(tail[..k]);
      if unit == 'h' && tail[k..] == "m" then Some(HoursMinutes(a, b))
      else if unit == 'm' && tail[k..] == "s" then Some(MinutesSeconds(a, b))
      else None
  }

  lemma OneFieldReadsBack(a: nat)
    ensures ParseDuration(Decimal(a) + "s") == Some(SecondsOnly(a))
  {
    DecimalCanonical(a);
    DigitRunStops(Decimal(a), "s");
  }

  lemma SecondFieldReadsBack(a: nat, unit1: char, d: string, unit2: string)
    requires Canonical(d)
    requires (unit1 == 'h' && unit2 == "m") || (unit1 == 'm' && unit2 == "s")
    ensures SecondField(a, unit1, d + unit2)
      == Some(if unit1 == 'h' then HoursMinutes(a, Value(d)) else MinutesSeconds(a, Value(d)))
  {
    DigitRunStops(d, unit2);
  }

  /** A digit run followed by a unit letter, a space and more text is read as a
      two-field duration whose first number is the run's value. */
  lemma FirstFieldReadsBack(d: string, rest: string)
    requires Canonical(d)
    requires |rest| >= 3 && !IsDigit(rest[0]) && rest[1] == ' '
    ensures ParseDuration(d + rest) == SecondField(Value(d), rest[0], rest[2..])
  {
    DigitRunStops(d, rest);
    assert rest != "s";
  }

  lemma TwoFieldsReadBack(d1: string, unit1: string, d2: string, unit2: string)
    requires Canonical(d1) && Canonical(d2)
    requires (unit1 == "h " && unit2 == "m") || (unit1 == "m " && unit2 == "s")
    ensures ParseDuration(d1 + unit1 + d2 + unit2)
      == Some(if unit1 == "h " then HoursMinutes(Value(d1), Value(d2)) else MinutesSeconds(Value(d1), Value(d2)))
  {
    var rest := unit1 + (d2 + unit2);
    Regroup(d1, unit1, d2, unit2);
    assert rest[2..] == d2 + unit2;
    FirstFieldReadsBack(d1, rest);
    SecondFieldReadsBack(Value(d1), unit1[0], d2, unit2);
  }

  /** `formatDuration`: the clamped count in the one shape that fits its size. */
  function FormatDuration(totalSeconds: int): (r: string)
    ensures ParseDuration(r).Some? && Describes(ParseDuration(r).value, Clamp(totalSeconds))
  {
    var s := Clamp(totalSeconds);
    if s >= 3600 then
      var h, m := s / 3600, (s % 3600) / 60;
      assert s == h * 3600 + s % 3600 && s % 3600 == m * 60 + s % 3600 % 60;
      DecimalCanonical(h);
      DecimalCanonical(m);
      TwoFieldsReadBack(Decimal(h), "h ", Decimal(m), "m");
      Decimal(h) + "h " + Decimal(m) + "m"
    else if s >= 60 then
      var m, sec := s / 60, s % 60;
      DecimalCanonical(m);
      DecimalCanonical(sec);
      TwoFieldsReadBack(Decimal(m), "m ", Decimal(sec), "s");
      Decimal(m) + "m " + Decimal(sec) + "s"
    else
      OneFieldReadsBack(s);
      Decimal(s) + "s"
  }

  /** Each count has exactly one rendering that describes it, so the reader recovers the shape and its numbers. */
  lemma DescribesUnique(d1: Duration, d2: Duration, c: nat)
    requires Describes(d1, c) && Describes(d2, c)
    ensures d1 == d2
  {
    match d1
    case HoursMinutes(h, m) =>
      var HoursMinutes(h2, m2) := d2;
      HoursMinutesOf(c, h, m);
      HoursMinutesOf(c, h2, m2);
    case MinutesSeconds(m, s) =>
      var MinutesSeconds(m2, s2) := d2;
      DivModUnique(c, 60, m, s);
      DivModUnique(c, 60, m2, s2);
    case SecondsOnly(s) =>
  }

  /** The hours and minutes a count is described by are its whole hours and the
      whole minutes of the rest. */
  lemma HoursMinutesOf(c: nat, h: nat, m: nat)
    requires Describes(HoursMinutes(h, m), c)
    ensures h == c / 3600 && m == (c % 3600) / 60
  {
    var x := c - h * 3600 - m * 60;
    DivModUnique(c, 3600, h, m * 60 + x);
    DivModUnique(c % 3600, 60, m, x);
  }

  /** A text the reader accepts is its numbers' decimal forms with the units and
      the separating space. */
  lemma DurationForm(t: string)
    requires ParseDuration(t).Some?
    ensures match ParseDuration(t).value
            case SecondsOnly(s) => t == Decimal(s) + "s"
            case HoursMinutes(h, m) => t == Decimal(h) + "h " + Decimal(m) + "m"
            case MinutesSeconds(m, s) => t == Decimal(m) + "m " + Decimal(s) + "s"
  {
    var n := DigitRun(t);
    var d, rest := t[..n], t[n..];
    assert t == d + rest;
    assert Canonical(d) by { assert d[0] == t[0]; }
    DurationFormParts(d, rest);
  }

  lemma DurationFormParts(d: string, rest: string)
    requires Canonical(d) && (rest == [] || !IsDigit(rest[0]))
    requires ParseDuration(d + rest).Some?
    ensures match ParseDuration(d + rest).value
            case SecondsOnly(s) => d + rest == Decimal(s) + "s"
            case HoursMinutes(h, m) => d + rest == Decimal(h) + "h " + Decimal(m) + "m"
            case MinutesSeconds(m, s) => d + rest == Decimal(m) + "m " + Decimal(s) + "s"
  {
    var t := d + rest;
    if rest == "s" {
      assert ParseDuration(t) == Some(SecondsOnly(Value(d))) && t == Decimal(Value(d)) + "s" by {
        DigitRunStops(d, rest);
        CanonicalIsDecimal(d);
      }
    } else {
      assert |rest| >= 3 && rest[1] == ' ' && ParseDuration(t) == SecondField(Value(d), rest[0], rest[2..]) by {
        DigitRunStops(d, rest);
      }
      var a, unit, tail := Value(d), rest[0], rest[2..];
      assert d == Decimal(a) by { CanonicalIsDecimal(d); }
      SplitTwo(rest);
      SecondFieldForm(a, unit, tail);
      match SecondField(a, unit, tail).value
      case HoursMinutes(_, m) =>
        Regroup(d, "h ", Decimal(m), "m");
      case MinutesSeconds(_, s) =>
        Regroup(d, "m ", Decimal(s), "s");
    }
  }

  lemma SplitTwo(s: string)
    requires |s| >= 2
    ensures s == [s[0], s[1]] + s[2..]
  {
  }

  lemma Regroup(a: string, b: string, c: string, e: string)
    ensures a + (b + (c + e)) == a + b + c + e
  {
  }

  /** The second field the reader accepts is its number's decimal form and the unit
      that goes with the first field's. */
  lemma SecondFieldForm(a: nat, unit: char, tail: string)
    requires SecondField(a, unit, tail).Some?
    ensures match SecondField(a, unit, tail).value
            case HoursMinutes(_, m) => unit == 'h' && tail == Decimal(m) + "m"
            case MinutesSeconds(_, s) => unit == 'm' && tail == Decimal(s) + "s"
            case SecondsOnly(_) => false
  {
    var k := DigitRun(tail);
    CanonicalIsDecimal(tail[..k]);
    assert tail == tail[..k] + tail[k..];
  }

  /** The compact duration is the only text that describes its count: whatever
      reads back as a right rendering of `c` seconds is exactly `formatDuration(c)`. */
  lemma DurationTextUnique(t: string, c: nat)
    requires ParseDuration(t).Some? && Describes(ParseDuration(t).value, c)
    ensures t == FormatDuration(c)
  {
    var r := FormatDuration(c);
    DescribesUnique(ParseDuration(t).value, ParseDuration(r).value, c);
    DurationForm(t);
    DurationForm(r);
  }
}
