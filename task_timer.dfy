/** `formatElapsed` of the task timer
    (apps/tenant-insurance/components/task-timer.tsx): a duration in
    milliseconds as minutes and seconds, "mm:ss". */
module TaskTimer {
  import opened Wrappers
  import opened Text

  function Max(a: int, b: int): int { if a >= b then a else b }

  /** The whole seconds shown: negative durations show as zero. `/` on a
      positive divisor rounds toward negative infinity, as `Math.floor`
      after the division does. */
  function TotalSeconds(ms: int): nat {
    Max(0, ms / 1000)
  }

  /** `String(n).padStart(2, "0")` */
  function TwoDigits(n: nat): string {
    PadStart(NatToString(n), 2, '0')
  }

  /** The padded numeral is at least two digits long, exactly two below 100,
      and reads back as `n`. */
  lemma TwoDigitsSpec(n: nat)
    ensures |TwoDigits(n)| >= 2 && AllDigits(TwoDigits(n)) && ParseDigits(TwoDigits(n)) == n
    ensures n < 100 ==> |TwoDigits(n)| == 2
  {
    if n < 10 {
      TwoDigitsSmall(n);
      ParseTwo(DigitChar(0), DigitChar(n));
    } else {
      ParseNatToString(n);
    }
  }

  /** Below 100 the two characters are the tens and the units digit. */
  lemma TwoDigitsSmall(n: nat)
    requires n < 100
    ensures TwoDigits(n) == [DigitChar(n / 10), DigitChar(n % 10)]
  {
    if n < 10 {
      assert NatToString(n) == [DigitChar(n)];
      assert seq(1, _ => '0') == [DigitChar(0)];
    } else {
      assert NatToString(n) == [DigitChar(n / 10), DigitChar(n % 10)];
    }
  }

  lemma ParseTwo(a: char, b: char)
    requires AsciiDigit(a) && AsciiDigit(b)
    ensures ParseDigits([a, b]) == DigitValue(a) * 10 + DigitValue(b)
  {
    assert [a][..0] == [];
    assert ParseDigits([a]) == DigitValue(a);
    assert [a, b][..1] == [a];
  }

  /** `mm:ss` for a number of whole seconds. */
  function FormatSeconds(total: nat): string {
    TwoDigits(total / 60) + ":" + TwoDigits(total % 60)
  }

  function FormatElapsed(ms: int): string {
    FormatSeconds(TotalSeconds(ms))
  }

  /** Reads "mm:ss" back: at least one minutes digit, ':', and exactly two
      seconds digits; anything else is not a clock text. */
  function ParseClock(r: string): (t: Option<nat>)
    ensures t.Some? ==> |r| >= 4 && r[|r| - 3] == ':'
  {
    if |r| >= 4 then ClockParts(r[..|r| - 3], r[|r| - 3], r[|r| - 2], r[|r| - 1]) else None
  }

  function ClockParts(mm: string, colon: char, a: char, b: char): (t: Option<nat>)
    ensures t.Some? ==> colon == ':'
  {
    if colon == ':' && AllDigits(mm) && AsciiDigit(a) && AsciiDigit(b)
    then Some(ParseDigits(mm) * 60 + DigitValue(a) * 10 + DigitValue(b))
    else None
  }

  /** A text made of a digit field, ':' and two more digits reads back as
      minutes and seconds. */
  lemma ParseClockOf(r: string, mm: string, a: char, b: char)
    requires |r| >= 4 && r[..|r| - 3] == mm && r[|r| - 3] == ':' && r[|r| - 2] == a && r[|r| - 1] == b
    requires AllDigits(mm) && AsciiDigit(a) && AsciiDigit(b)
    ensures ParseClock(r) == Some(ParseDigits(mm) * 60 + DigitValue(a) * 10 + DigitValue(b))
  {
  }

  lemma DigitRoundTrip(d: nat)
    requires d < 10
    ensures DigitValue(DigitChar(d)) == d
  {
  }

  lemma ClockArithmetic(total: nat)
    ensures (total / 60) * 60 + (total % 60 / 10) * 10 + total % 60 % 10 == total
    ensures total % 60 / 10 < 6
  {
  }

  /** Reading the text back gives the whole seconds shown, and the tens
      digit of the seconds field is at most 5. */
  lemma FormatSecondsRoundTrip(total: nat)
    ensures ParseClock(FormatSeconds(total)) == Some(total)
    ensures var r := FormatSeconds(total); |r| >= 5 && AsciiDigit(r[|r| - 2]) && DigitValue(r[|r| - 2]) < 6
  {
    var m, s := total / 60, total % 60;
    TwoDigitsSpec(m);
    TwoDigitsSmall(s);
    var a, b := DigitChar(s / 10), DigitChar(s % 10);
    var r := FormatSeconds(total);
    assert r == TwoDigits(m) + [':', a, b];
    assert r[..|r| - 3] == TwoDigits(m);
    ParseClockOf(r, TwoDigits(m), a, b);
    DigitRoundTrip(s / 10);
    DigitRoundTrip(s % 10);
    ClockArithmetic(total);
  }

  /** The text shows the elapsed whole seconds. */
  lemma FormatElapsedRoundTrip(ms: int)
    ensures ParseClock(FormatElapsed(ms)) == Some(TotalSeconds(ms))
    ensures var r := FormatElapsed(ms); |r| >= 5 && AsciiDigit(r[|r| - 2]) && DigitValue(r[|r| - 2]) < 6
  {
    FormatSecondsRoundTrip(TotalSeconds(ms));
  }

  /** Negative and sub-second durations show as "00:00"; below an hour the
      minutes field has exactly two digits. */
  lemma FormatElapsedShort(ms: int)
    ensures ms < 1000 ==> FormatElapsed(ms) == "00:00"
    ensures ms < 3600000 ==> |FormatElapsed(ms)| == 5
  {
    var total := TotalSeconds(ms);
    TwoDigitsSmall(total % 60);
    if ms < 3600000 {
      assert total / 60 < 60;
      TwoDigitsSmall(total / 60);
    }
    if ms < 1000 {
      assert total == 0;
      assert DigitChar(0) == '0';
    }
  }
}
