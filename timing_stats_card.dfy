/**
 * `formatDuration` of `src/components/admin/TimingStatsCard.tsx`: a duration
 * in seconds shown as "<s>d" below a minute, "<m>m <s>d" below an hour and
 * "<h>j <m>m" from an hour on, and the two figures of the pilot timing card.
 *
 * The card passes the average time per item, which is in general not a whole
 * number, so the function is modelled over `real` as written; the corrected
 * form rounds to whole seconds before splitting into fields.
 */
module TimingStatsCard {
  import opened Text
  import opened AnnotatorsView

  /** `Math.round`: halves go up. */
  function Round(x: real): int {
    (x + 0.5).Floor
  }

  /** `formatDuration(totalSeconds)` as written. */
  function FormatDuration(x: real): string {
    if x < 60.0 then IntString(Round(x)) + "d"
    else
      var minutes := (x / 60.0).Floor;
      // `totalSeconds % 60` on a non-negative number
      var seconds := Round(x - 60.0 * minutes as real);
      if minutes < 60 then IntString(minutes) + "m " + IntString(seconds) + "d"
      else IntString(minutes / 60) + "j " + IntString(minutes % 60) + "m"
  }

  /** The same three forms over a whole number of seconds. */
  function FormatWhole(t: int): string {
    if t < 60 then IntString(t) + "d"
    else
      var minutes := t / 60;
      var seconds := t % 60;
      if minutes < 60 then IntString(minutes) + "m " + IntString(seconds) + "d"
      else IntString(minutes / 60) + "j " + IntString(minutes % 60) + "m"
  }

  /** `formatDuration` rounding to whole seconds first. */
  function FormatDurationFixed(x: real): string {
    FormatWhole(Round(x))
  }

  lemma RoundWhole(n: int)
    ensures Round(n as real) == n
  {
  }

  lemma FloorDiv60(n: int)
    ensures (n as real / 60.0).Floor == n / 60
  {
    var q, r := n / 60, n % 60;
    assert n == 60 * q + r;
    assert n as real / 60.0 == q as real + r as real / 60.0;
    assert 0.0 <= r as real / 60.0 < 1.0;
  }

  /** On a whole number of seconds the function as written and the corrected one agree. */
  lemma FormatDurationAgreesOnWhole(n: int)
    ensures FormatDuration(n as real) == FormatWhole(n)
    ensures FormatDuration(n as real) == FormatDurationFixed(n as real)
  {
    RoundWhole(n);
    if n >= 60 {
      FloorDiv60(n);
      var q := n / 60;
      assert n as real - 60.0 * q as real == (n % 60) as real;
      RoundWhole(n % 60);
    }
  }

  /** 119.5 seconds, an average over two items of 119 and 120 seconds, is shown with a seconds field of 60. */
  lemma FormatDurationShowsSixtySeconds()
    ensures FormatDuration(119.5) == "1m 60d"
    ensures FormatDurationFixed(119.5) == "2m 0d"
  {
    assert (119.5 / 60.0).Floor == 1 by {
      assert 1.0 <= 119.5 / 60.0 < 2.0;
    }
    assert Round(119.5 - 60.0) == 60;
    assert Decimal(60) == Decimal(6) + [DigitChar(0)];
    assert IntString(60) == "60";
    assert IntString(1) == "1";
    assert Round(119.5) == 120;
    assert IntString(2) == "2";
    assert IntString(0) == "0";
  }

  /**
   * The corrected output: a non-negative count below a minute is its seconds;
   * below an hour it is minutes and seconds with the seconds below 60 and the
   * two recombining to the input; from an hour on it is hours and minutes,
   * the minutes below 60, dropping only the seconds.
   */
  lemma FormatWholeShape(t: int)
    ensures 0 <= t < 60 ==> FormatWhole(t) == Decimal(t) + "d"
    ensures 60 <= t < 3600 ==> exists m: nat, s: nat {:trigger Decimal(m), Decimal(s)} ::
      1 <= m < 60 && s < 60 && m * 60 + s == t && FormatWhole(t) == Decimal(m) + "m " + Decimal(s) + "d"
    ensures t >= 3600 ==> exists h: nat, m: nat {:trigger Decimal(h), Decimal(m)} ::
      h >= 1 && m < 60 && (h * 60 + m) * 60 <= t < (h * 60 + m) * 60 + 60 && FormatWhole(t) == Decimal(h) + "j " + Decimal(m) + "m"
  {
    if 60 <= t < 3600 {
      MinutesShape(t);
    } else if t >= 3600 {
      HoursShape(t);
    }
  }

  lemma MinutesShape(t: int)
    requires 60 <= t < 3600
    ensures var m, s := t / 60, t % 60;
      1 <= m < 60 && s < 60 && m * 60 + s == t && FormatWhole(t) == Decimal(m) + "m " + Decimal(s) + "d"
  {
  }

  lemma HoursShape(t: int)
    requires t >= 3600
    ensures var h, m := t / 60 / 60, t / 60 % 60;
      && h >= 1 && m < 60 && (h * 60 + m) * 60 <= t < (h * 60 + m) * 60 + 60
      && FormatWhole(t) == Decimal(h) + "j " + Decimal(m) + "m"
  {
    var minutes := t / 60;
    var h, m := minutes / 60, minutes % 60;
    assert minutes == h * 60 + m;
  }

  /** The labels of the card's two figures. */
  const AverageLabel := "Waktu Rata-rata per Item"
  const TotalLabel := "Total Waktu Anotasi"

  /**
   * The two figures of the card as written: average time per item and total
   * time, each shown with `formatDuration`. The total is a whole number of
   * seconds, so its figure is the whole-second form.
   */
  function TimingItems(ts: TimingStats): (r: seq<(string, string)>)
    ensures |r| == 2 && r[0].0 == AverageLabel && r[1].0 == TotalLabel
    ensures r[0].1 == FormatDuration(ts.averageTimeInSeconds)
    ensures r[1].1 == FormatWhole(ts.totalTimeInSeconds)
  {
    FormatDurationAgreesOnWhole(ts.totalTimeInSeconds);
    [(AverageLabel, FormatDuration(ts.averageTimeInSeconds)),
     (TotalLabel, FormatDuration(ts.totalTimeInSeconds as real))]
  }

  /** The card with the corrected `formatDuration`. */
  function TimingItemsFixed(ts: TimingStats): (r: seq<(string, string)>)
    ensures |r| == 2 && r[0].0 == AverageLabel && r[1].0 == TotalLabel
    ensures r[0].1 == FormatWhole(Round(ts.averageTimeInSeconds))
  {
    [(AverageLabel, FormatDurationFixed(ts.averageTimeInSeconds)),
     (TotalLabel, FormatDurationFixed(ts.totalTimeInSeconds as real))]
  }

  /**
   * The corrected card differs from the card as written only in the
   * average's figure: the labels and the total's figure are the same, and
   * on a whole-second average the two cards are equal.
   */
  lemma TotalShownAsWritten(ts: TimingStats)
    ensures TimingItemsFixed(ts)[1] == TimingItems(ts)[1]
    ensures TimingItemsFixed(ts)[0].0 == TimingItems(ts)[0].0
    ensures ts.averageTimeInSeconds == Round(ts.averageTimeInSeconds) as real ==> TimingItemsFixed(ts) == TimingItems(ts)
  {
    FormatDurationAgreesOnWhole(ts.totalTimeInSeconds);
    var n := Round(ts.averageTimeInSeconds);
    if ts.averageTimeInSeconds == n as real {
      FormatDurationAgreesOnWhole(n);
    }
  }

  /** On an average of 119.5 seconds the card as written shows "1m 60d" and the corrected card "2m 0d". */
  lemma CardShowsSixtySeconds(total: int)
    ensures TimingItems(TimingStats(119.5, total))[0].1 == "1m 60d"
    ensures TimingItemsFixed(TimingStats(119.5, total))[0].1 == "2m 0d"
  {
    FormatDurationShowsSixtySeconds();
  }
}
