/** Calendar dates and Python's `date.isoformat()`, which the request uses to
    write its date range. The text form is the extended calendar-date format
    of section 4.1.2.2 of ISO 8601:2004, `YYYY-MM-DD`. */
module Dates {
  import opened Results
  import opened Decimal

  datatype Date = Date(year: int, month: int, day: int)

  /** Leap years of the proleptic Gregorian calendar. */
  predicate IsLeapYear(y: int) {
    y % 4 == 0 && (y % 100 != 0 || y % 400 == 0)
  }

  function DaysInMonth(y: int, m: int): int
    requires 1 <= m <= 12
  {
    if m == 2 then (if IsLeapYear(y) then 29 else 28)
    else if m == 4 || m == 6 || m == 9 || m == 11 then 30
    else 31
  }

  /** A date a Python `datetime.date` can hold: years `MINYEAR` (1) to
      `MAXYEAR` (9999), and a day that exists in its month. */
  predicate Valid(d: Date) {
    && 1 <= d.year <= 9999
    && 1 <= d.month <= 12
    && 1 <= d.day <= DaysInMonth(d.year, d.month)
  }

  type CalendarDate = d: Date | Valid(d) witness Date(1, 1, 1)

  function Pow10(k: nat): (p: nat)
    ensures p > 0
  {
    if k == 0 then 1 else 10 * Pow10(k - 1)
  }

  /** The last `width` decimal digits of `n`, zero-padded on the left
      (`%0<width>d` for a value that fits). */
  function Pad(n: nat, width: nat): (s: string)
    ensures |s| == width && AllDigits(s)
  {
    if width == 0 then [] else Pad(n / 10, width - 1) + [DigitChar(n % 10)]
  }

  /** `date.isoformat()`: `YYYY-MM-DD`, each part zero-padded. */
  function IsoFormat(d: CalendarDate): (s: string)
    ensures |s| == 10 && s[4] == '-' && s[7] == '-'
    ensures forall i :: 0 <= i < 10 && i != 4 && i != 7 ==> IsDigit(s[i])
  {
    Pad(d.year, 4) + "-" + Pad(d.month, 2) + "-" + Pad(d.day, 2)
  }

  /** Reads `YYYY-MM-DD` back; `None` for text of another shape or a date
      that does not exist. */
  function ParseIsoDate(s: string): Option<CalendarDate>
  {
    if |s| == 10 && s[4] == '-' && s[7] == '-' && AllDigits(s[..4]) && AllDigits(s[5..7]) && AllDigits(s[8..]) then
      var d := Date(DecimalValue(s[..4]), DecimalValue(s[5..7]), DecimalValue(s[8..]));
      if Valid(d) then Some(d) else None
    else None
  }

  lemma {:induction false} PadValue(n: nat, width: nat)
    requires n < Pow10(width)
    ensures DecimalValue(Pad(n, width)) == n
  {
    if width > 0 {
      var s := Pad(n, width);
      assert s[..width - 1] == Pad(n / 10, width - 1);
      assert n / 10 < Pow10(width - 1);
      PadValue(n / 10, width - 1);
      assert DigitValue(s[width - 1]) == n % 10;
      assert DecimalValue(s) == (n / 10) * 10 + n % 10;
    }
  }

  lemma {:induction false} PadOfValue(ds: string)
    requires AllDigits(ds)
    ensures Pad(DecimalValue(ds), |ds|) == ds
  {
    if |ds| > 0 {
      var init := ds[..|ds| - 1];
      var v := DecimalValue(ds);
      assert v / 10 == DecimalValue(init);
      assert v % 10 == DigitValue(ds[|ds| - 1]);
      PadOfValue(init);
      assert ds == init + [ds[|ds| - 1]];
    }
  }

  /** Reading back what `isoformat()` wrote gives the same date. */
  lemma ParseIsoFormat(d: CalendarDate)
    ensures ParseIsoDate(IsoFormat(d)) == Some(d)
  {
    var s := IsoFormat(d);
    assert s[..4] == Pad(d.year, 4);
    assert s[5..7] == Pad(d.month, 2);
    assert s[8..] == Pad(d.day, 2);
    PadValue(d.year, 4);
    PadValue(d.month, 2);
    PadValue(d.day, 2);
  }

  /** Every text the reader accepts is exactly what `isoformat()` writes for
      the date it reads: the format has one spelling per date. */
  lemma IsoFormatOfParse(s: string, d: CalendarDate)
    requires ParseIsoDate(s) == Some(d)
    ensures IsoFormat(d) == s
  {
    PadOfValue(s[..4]);
    PadOfValue(s[5..7]);
    PadOfValue(s[8..]);
    assert s == s[..4] + "-" + s[5..7] + "-" + s[8..];
  }
}
