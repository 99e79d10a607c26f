/** Decimal rendering and reading of numbers, as the client's string code uses
    them: `Number.prototype.toString` for integers and `padStart(2, '0')`. */
module Text {

  predicate IsDigit(c: char) {
    '0' <= c <= '9'
  }

  predicate AllDigits(s: string) {
    forall i :: 0 <= i < |s| ==> IsDigit(s[i])
  }

  function DigitChar(d: nat): (c: char)
    requires d < 10
    ensures IsDigit(c)
  {
    ('0' as int + d) as char
  }

  function DigitValue(c: char): (d: nat)
    requires IsDigit(c)
  {
    c as int - '0' as int
  }

  /** The number a string of decimal digits denotes, most significant digit first. */
  function Value(s: string): (n: nat)
    requires AllDigits(s)
  {
    if s == [] then 0 else Value(s[..|s| - 1]) * 10 + DigitValue(s[|s| - 1])
  }

  /** `n.toString()` for a non-negative integer: its shortest decimal form. */
  function Decimal(n: nat): (r: string)
    ensures 1 <= |r| && AllDigits(r) && Value(r) == n
    ensures r[0] == '0' ==> n == 0
    ensures n < 10 <==> |r| == 1
    ensures n < 100 ==> |r| <= 2
    decreases n
  {
    if n < 10 then [DigitChar(n)]
    else
      var r := Decimal(n / 10) + [DigitChar(n % 10)];
      assert r[..|r| - 1] == Decimal(n / 10);
      r
  }

  /** A digit string as `toString` writes it: not empty, and no leading zero
      unless it is the single digit 0. */
  predicate Canonical(s: string) {
    1 <= |s| && AllDigits(s) && (|s| == 1 || s[0] != '0')
  }

  lemma DecimalCanonical(n: nat)
    ensures Canonical(Decimal(n))
  {
  }

  /** A canonical digit string is the decimal form of the number it denotes. */
  lemma {:induction false} CanonicalIsDecimal(s: string)
    requires Canonical(s)
    ensures s == Decimal(Value(s))
    decreases |s|
  {
    var init, c := s[..|s| - 1], s[|s| - 1];
    if |s| == 1 {
      assert init == [];
      assert Decimal(Value(s)) == [DigitChar(DigitValue(c))];
    } else {
      assert init[0] == s[0];
      CanonicalIsDecimal(init);
      assert Decimal(0) == ['0'];
      assert Value(init) >= 1;
      var n := Value(s);
      assert n == Value(init) * 10 + DigitValue(c);
      DivModUnique(n, 10, Value(init), DigitValue(c));
      assert Decimal(n) == Decimal(n / 10) + [DigitChar(n % 10)];
      assert s == init + [c];
    }
  }

  /** A digit string of exactly two characters, or a longer one without a leading
      zero, is its value's decimal form padded to two characters. */
  lemma PaddedForm(s: string)
    requires AllDigits(s) && (|s| == 2 || (|s| > 2 && s[0] != '0'))
    ensures s == PadStart2(Decimal(Value(s)))
  {
    if |s| == 2 && s[0] == '0' {
      var d := s[1..];
      assert s == "0" + d;
      LeadingZero(d);
      CanonicalIsDecimal(d);
    } else {
      CanonicalIsDecimal(s);
    }
  }

  /** `x.toString()` for any integer: a minus sign before the digits of a negative number. */
  function IntString(x: int): (r: string)
    ensures 1 <= |r|
    ensures x < 0 <==> r[0] == '-'
    ensures x >= 0 ==> r == Decimal(x)
    ensures x < 0 ==> r[1..] == Decimal(-x)
  {
    if x < 0 then "-" + Decimal(-x) else Decimal(x)
  }

  /** `s.padStart(2, '0')`: zeros in front until the string is two characters long. */
  function PadStart2(s: string): (r: string)
    ensures |r| == if |s| < 2 then 2 else |s|
    ensures r[|r| - |s|..] == s
    ensures forall i :: 0 <= i < |r| - |s| ==> r[i] == '0'
    ensures AllDigits(s) ==> AllDigits(r) && Value(r) == Value(s)
  {
    if |s| >= 2 then s
    else if |s| == 1 then
      (if AllDigits(s) then LeadingZero(s); "0" + s else "0" + s)
    else
      assert Value("0") == 0;
      "00"
  }

  /** Two digits for a number below 100; the same string as padding its decimal
      form to two characters (`String(n).padStart(2, '0')`). */
  function TwoDigits(n: nat): (r: string)
    requires n < 100
    ensures |r| == 2 && AllDigits(r) && DigitValue(r[0]) * 10 + DigitValue(r[1]) == n
    ensures Value(r) == n
  {
    var r := [DigitChar(n / 10), DigitChar(n % 10)];
    assert r[..1] == [r[0]] && r[..1][..0] == [];
    assert Value(r[..1]) == DigitValue(r[0]);
    r
  }

  lemma TwoDigitsPadded(n: nat)
    requires n < 100
    ensures TwoDigits(n) == PadStart2(Decimal(n))
  {
    if n >= 10 {
      assert Decimal(n) == Decimal(n / 10) + [DigitChar(n % 10)];
    }
  }

  lemma {:induction false} LeadingZero(s: string)
    requires AllDigits(s)
    ensures AllDigits("0" + s) && Value("0" + s) == Value(s)
    decreases |s|
  {
    if s != [] {
      var z := "0" + s;
      assert z[..|z| - 1] == "0" + s[..|s| - 1];
      LeadingZero(s[..|s| - 1]);
    }
  }

  /** The length of the longest run of digits at the front of `s`. */
  function DigitRun(s: string): (n: nat)
    ensures n <= |s| && AllDigits(s[..n])
    ensures n < |s| ==> !IsDigit(s[n])
  {
    if s == [] || !IsDigit(s[0]) then 0
    else
      var n := 1 + DigitRun(s[1..]);
      assert s[..n] == [s[0]] + s[1..][..n - 1];
      n
  }

  /** Reading digits back stops exactly where a rendered number ends. */
  lemma {:induction false} DigitRunStops(d: string, rest: string)
    requires AllDigits(d)
    requires rest == [] || !IsDigit(rest[0])
    ensures DigitRun(d + rest) == |d|
    ensures (d + rest)[..|d|] == d && (d + rest)[|d|..] == rest
    decreases |d|
  {
    if d != [] {
      assert (d + rest)[1..] == d[1..] + rest;
      DigitRunStops(d[1..], rest);
    }
  }

  /** Euclidean division is determined by the quotient-remainder equation. */
  lemma DivModUnique(n: int, k: int, q: int, r: int)
    requires k > 0 && 0 <= r < k && n == q * k + r
    ensures n / k == q && n % k == r
  {
    var q', r' := n / k, n % k;
    assert (q - q') * k == r' - r;
    if q' < q {
      AtLeastOnce(q - q', k);
    } else if q' > q {
      AtLeastOnce(q' - q, k);
    }
  }

  lemma AtLeastOnce(d: int, k: int)
    requires d >= 1 && k > 0
    ensures d * k >= k
  {
    assert d * k == (d - 1) * k + k;
    assert (d - 1) * k >= 0;
  }
}
