/**
 * `formatTime` of `src/components/annotator/timer.tsx`: elapsed seconds as
 * `hh:mm:ss`, each field the `toString` of a floor/remainder, padded on the
 * left with '0' to two characters.
 */
module Timer {
  import opened Wrappers
  import opened Text

  /** JavaScript's `%` on integers: the remainder takes the sign of the dividend. */
  function JsRem(a: int, d: int): int
    requires d > 0
  {
    if a >= 0 then a % d else -((-a) % d)
  }

  /** `n.toString().padStart(2, '0')`. */
  function Pad2(n: int): string {
    PadStart(IntString(n), 2, '0')
  }

  /**
   * `formatTime(seconds)`. For a positive divisor Dafny's `/` rounds toward
   * negative infinity, as `Math.floor` of the quotient does.
   */
  function FormatTime(seconds: int): string {
    var h := seconds / 3600;
    var m := JsRem(seconds, 3600) / 60;
    var s := JsRem(seconds, 60);
    Pad2(h) + ":" + Pad2(m) + ":" + Pad2(s)
  }

  /** Hours, minutes and seconds as a number of seconds. */
  function Seconds(h: nat, m: nat, s: nat): nat {
    h * 3600 + m * 60 + s
  }

  /** Three fields of digits read as hours, minutes and seconds. */
  function ParseFields(parts: seq<string>): Option<nat> {
    if |parts| == 3 && AllDigits(parts[0]) && AllDigits(parts[1]) && AllDigits(parts[2]) then
      Some(Seconds(ParseDecimal(parts[0]), ParseDecimal(parts[1]), ParseDecimal(parts[2])))
    else None
  }

  /** Reads `hh:mm:ss` back as a number of seconds. */
  function ParseTime(t: string): Option<nat> {
    ParseFields(Split(t, ':'))
  }

  /** A padded natural number is digits only, at least two of them, exactly two below 100, and reads back as itself. */
  lemma Pad2Facts(n: nat)
    ensures AllDigits(Pad2(n)) && ParseDecimal(Pad2(n)) == n
    ensures |Pad2(n)| >= 2 && |Pad2(n)| >= |Decimal(n)|
    ensures n < 100 ==> |Pad2(n)| == 2
  {
    Pad2ReadsBack(n);
    if n < 100 {
      ShortDecimal(n);
    }
  }

  lemma Pad2ReadsBack(n: nat)
    ensures AllDigits(Pad2(n)) && ParseDecimal(Pad2(n)) == n
  {
    assert IntString(n) == Decimal(n);
    var d := Decimal(n);
    var p := PadStart(d, 2, '0');
    var zeros := p[..|p| - |d|];
    assert p == zeros + d;
    ParseDecimalLeadingZeros(zeros, d);
    ParseDecimalOfDecimal(n);
  }

  lemma ShortDecimal(n: nat)
    requires n < 100
    ensures |Decimal(n)| <= 2
  {
    if n >= 10 {
      assert Decimal(n) == Decimal(n / 10) + [DigitChar(n % 10)];
    }
  }

  /**
   * For a non-negative number of seconds the output has three fields
   * separated by ':', minutes and seconds of exactly two digits and below
   * 60, and hours of at least two digits (three or more from 100 hours on,
   * never cut).
   */
  lemma FormatTimeFields(seconds: nat)
    ensures var parts := Split(FormatTime(seconds), ':');
      && |parts| == 3
      && AllDigits(parts[0]) && AllDigits(parts[1]) && AllDigits(parts[2])
      && |parts[0]| >= 2 && |parts[1]| == 2 && |parts[2]| == 2
      && ParseDecimal(parts[1]) < 60 && ParseDecimal(parts[2]) < 60
      && (seconds >= 360000 ==> |parts[0]| >= 3)
  {
    var h, m, s := seconds / 3600, (seconds % 3600) / 60, seconds % 60;
    FormatTimeSplit(seconds);
    Pad2Facts(h);
    Pad2Facts(m);
    Pad2Facts(s);
    if seconds >= 360000 {
      DecimalLength(h, 2);
    }
  }

  /** Reading the output back gives the input. */
  lemma FormatTimeRoundTrip(seconds: nat)
    ensures ParseTime(FormatTime(seconds)) == Some(seconds)
  {
    var h, m, s := seconds / 3600, (seconds % 3600) / 60, seconds % 60;
    TimeFields(seconds);
    assert FormatTime(seconds) == Pad2(h) + ":" + Pad2(m) + ":" + Pad2(s);
    Pad2ReadsBack(h);
    Pad2ReadsBack(m);
    Pad2ReadsBack(s);
    ParseJoined(Pad2(h), Pad2(m), Pad2(s));
    assert Seconds(h, m, s) == seconds;
  }

  lemma ParseJoined(a: string, b: string, c: string)
    requires AllDigits(a) && AllDigits(b) && AllDigits(c)
    ensures ParseTime(a + ":" + b + ":" + c) == Some(Seconds(ParseDecimal(a), ParseDecimal(b), ParseDecimal(c)))
  {
    SplitThree(a, b, c);
  }

  lemma FormatTimeSplit(seconds: nat)
    ensures seconds == (seconds / 3600) * 3600 + ((seconds % 3600) / 60) * 60 + seconds % 60
    ensures (seconds % 3600) / 60 < 60
    ensures seconds >= 360000 ==> seconds / 3600 >= Pow10(2)
    ensures Split(FormatTime(seconds), ':') == [Pad2(seconds / 3600), Pad2((seconds % 3600) / 60), Pad2(seconds % 60)]
  {
    var h, m, s := seconds / 3600, (seconds % 3600) / 60, seconds % 60;
    TimeFields(seconds);
    assert FormatTime(seconds) == Pad2(h) + ":" + Pad2(m) + ":" + Pad2(s);
    Pad2ReadsBack(h);
    Pad2ReadsBack(m);
    Pad2ReadsBack(s);
    SplitThree(Pad2(h), Pad2(m), Pad2(s));
  }

  /** On non-negative input the JavaScript remainders are Dafny's, and the three fields recombine to the input. */
  lemma TimeFields(seconds: nat)
    ensures JsRem(seconds, 3600) / 60 == (seconds % 3600) / 60 && JsRem(seconds, 60) == seconds % 60
    ensures (seconds % 3600) / 60 < 60
    ensures seconds == (seconds / 3600) * 3600 + ((seconds % 3600) / 60) * 60 + seconds % 60
    ensures seconds >= 360000 ==> seconds / 3600 >= Pow10(2)
  {
    assert seconds % 3600 == ((seconds % 3600) / 60) * 60 + seconds % 60;
  }

  /** Three digit strings joined by ':' split back into themselves. */
  lemma SplitThree(a: string, b: string, c: string)
    requires AllDigits(a) && AllDigits(b) && AllDigits(c)
    ensures Split(a + ":" + b + ":" + c, ':') == [a, b, c]
  {
    assert a + ":" + b + ":" + c == a + [':'] + (b + [':'] + c);
    assert ':' !in a && ':' !in b && ':' !in c by {
      assert !IsDigit(':');
    }
    SplitField(a, ':', b + [':'] + c);
    SplitField(b, ':', c);
    SplitWhole(c, ':');
  }

  /** `formatTime(0)` is "00:00:00". */
  lemma FormatTimeZero()
    ensures FormatTime(0) == "00:00:00"
  {
    assert JsRem(0, 3600) / 60 == 0 && JsRem(0, 60) == 0;
    assert Decimal(0) == "0";
    assert Pad2(0) == "00";
    assert FormatTime(0) == Pad2(0) + ":" + Pad2(0) + ":" + Pad2(0);
  }
}
