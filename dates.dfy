/**
 * `new Date(v)` and the `<` comparison of two dates, as the date rule of
 * both validators uses them. A date is its time value: milliseconds since
 * 1970-01-01T00:00:00Z, or `None` for an Invalid Date (whose comparisons
 * are all false).
 *
 * Only the date-only ISO 8601 form "YYYY-MM-DD" is parsed from strings; it
 * denotes UTC midnight of that day.
 */
module Dates {
  import opened Wrappers
  import opened JsText
  import opened JsValues

  const MsPerDay: int := 86400000
  /** The largest time value a Date may hold (ECMAScript TimeClip). */
  const MaxTimeValue: int := 8640000000000000

  predicate IsLeapYear(y: int) {
    y % 4 == 0 && (y % 100 != 0 || y % 400 == 0)
  }

  function DaysInMonth(y: int, m: int): int
    requires 1 <= m <= 12
  {
    if m == 2 then (if IsLeapYear(y) then 29 else 28)
    else if m == 4 || m == 6 || m == 9 || m == 11 then 30
    else 31
  }

  /** Days from 0000-01-01 to the first day of year `y`. */
  function DaysBeforeYear(y: nat): nat {
    365 * y + (y + 3) / 4 - (y + 99) / 100 + (y + 399) / 400
  }

  /** Days from the first of January to the first of month `m`. */
  function DaysBeforeMonth(y: int, m: int): int
    requires 1 <= m <= 12
  {
    [0, 31, 59, 90, 120, 151, 181, 212, 243, 273, 304, 334][m - 1]
    + (if m > 2 && IsLeapYear(y) then 1 else 0)
  }

  /** Days from 1970-01-01 to the given calendar date. */
  function EpochDay(y: nat, m: int, d: int): int
    requires 1 <= m <= 12
  {
    DaysBeforeYear(y) + DaysBeforeMonth(y, m) + d - 1 - DaysBeforeYear(1970)
  }

  /** `Date.parse(s)` for a "YYYY-MM-DD" string, as V8 reads it: the month
      must be 01 to 12 and the day 01 to 31, and a day past the month's end
      runs on into the next month ("2023-02-30" is the 2nd of March). Any
      other string is an Invalid Date. */
  function ParseIsoDate(s: string): (t: Option<int>)
    ensures t.Some? ==> |s| == 10 && s[4] == '-' && s[7] == '-'
  {
    if |s| == 10 && s[4] == '-' && s[7] == '-'
       && IsNumeral(s[..4], 10) && IsNumeral(s[5..7], 10) && IsNumeral(s[8..], 10)
    then
      var y := NumeralValue(s[..4], 10);
      var m := NumeralValue(s[5..7], 10);
      var d := NumeralValue(s[8..], 10);
      if 1 <= m <= 12 && 1 <= d <= 31 then Some(EpochDay(y, m, d) * MsPerDay)
      else None
    else None
  }

  /** The time value of `new Date(v)`. A number is taken as a time value, a
      boolean or `null` through `Number`, and an array through its string. */
  function DateValue(v: Value): Option<int> {
    match v
    case Missing => None
    case Null => Some(0)
    case Str(s) => ParseIsoDate(s)
    case Num(n) => if -MaxTimeValue <= n <= MaxTimeValue then Some(n) else None
    case Bool(b) => Some(if b then 1 else 0)
    case List(items) => ParseIsoDate(Join(items, ","))
    case NaN => None
  }

  /** `a < b` on two Dates: false when either is an Invalid Date. */
  predicate DateBefore(a: Option<int>, b: Option<int>) {
    a.Some? && b.Some? && a.value < b.value
  }

  /** The value of a two-digit and of a four-digit numeral. */
  lemma NumeralValue2(s: string)
    requires |s| == 2 && IsNumeral(s, 10)
    ensures NumeralValue(s, 10) == 10 * DigitValue(s[0], 10) + DigitValue(s[1], 10)
  {
    var p := s[..1];
    assert p[..0] == [] && p[0] == s[0];
    assert NumeralValue(p, 10) == DigitValue(s[0], 10);
  }

  lemma NumeralValue4(s: string)
    requires |s| == 4 && IsNumeral(s, 10)
    ensures NumeralValue(s, 10)
            == 1000 * DigitValue(s[0], 10) + 100 * DigitValue(s[1], 10)
               + 10 * DigitValue(s[2], 10) + DigitValue(s[3], 10)
  {
    var p := s[..3];
    assert p[..2] == s[..2] && p[2] == s[2];
    NumeralValue2(s[..2]);
    assert NumeralValue(p, 10) == 10 * NumeralValue(s[..2], 10) + DigitValue(s[2], 10);
  }

  /** The parts of a well-formed "YYYY-MM-DD" string. */
  lemma ParseIsoDateParts(s: string)
    requires |s| == 10 && s[4] == '-' && s[7] == '-'
    requires IsNumeral(s[..4], 10) && IsNumeral(s[5..7], 10) && IsNumeral(s[8..], 10)
    ensures NumeralValue(s[..4], 10)
            == 1000 * DigitValue(s[0], 10) + 100 * DigitValue(s[1], 10)
               + 10 * DigitValue(s[2], 10) + DigitValue(s[3], 10)
    ensures NumeralValue(s[5..7], 10) == 10 * DigitValue(s[5], 10) + DigitValue(s[6], 10)
    ensures NumeralValue(s[8..], 10) == 10 * DigitValue(s[8], 10) + DigitValue(s[9], 10)
  {
    NumeralValue4(s[..4]);
    NumeralValue2(s[5..7]);
    NumeralValue2(s[8..]);
  }

  /** A well-formed "YYYY-MM-DD" string whose month and day are in range is
      that day's UTC midnight, counted on from the first of the month. */
  lemma ParseIsoDateOf(s: string, y: nat, m: int, d: int)
    requires |s| == 10 && s[4] == '-' && s[7] == '-'
    requires IsNumeral(s[..4], 10) && IsNumeral(s[5..7], 10) && IsNumeral(s[8..], 10)
    requires NumeralValue(s[..4], 10) == y && NumeralValue(s[5..7], 10) == m && NumeralValue(s[8..], 10) == d
    requires 1 <= m <= 12 && 1 <= d <= 31
    ensures ParseIsoDate(s) == Some(EpochDay(y, m, d) * MsPerDay)
  {
  }

  /** Each month starts where the one before it ends. */
  lemma MonthsAdjoin(y: int, m: int)
    requires 1 <= m < 12
    ensures DaysBeforeMonth(y, m + 1) == DaysBeforeMonth(y, m) + DaysInMonth(y, m)
  {
  }

  /** A day past the end of a month other than December is the same instant
      as the matching day of the next month. */
  lemma DayRollsOver(y: nat, m: int, d: int)
    requires 1 <= m < 12 && DaysInMonth(y, m) < d <= 31
    ensures 1 <= d - DaysInMonth(y, m) <= 3
    ensures EpochDay(y, m, d) == EpochDay(y, m + 1, d - DaysInMonth(y, m))
  {
    MonthsAdjoin(y, m);
  }

  /** The Unix epoch is time value 0. */
  lemma EpochStart()
    ensures ParseIsoDate("1970-01-01") == Some(0)
  {
    EpochStartFields();
    ParseIsoDateOf("1970-01-01", 1970, 1, 1);
  }

  lemma EpochStartFields()
    ensures var s := "1970-01-01";
            |s| == 10 && s[4] == '-' && s[7] == '-'
            && IsNumeral(s[..4], 10) && IsNumeral(s[5..7], 10) && IsNumeral(s[8..], 10)
            && NumeralValue(s[..4], 10) == 1970 && NumeralValue(s[5..7], 10) == 1 && NumeralValue(s[8..], 10) == 1
  {
    ParseIsoDateParts("1970-01-01");
  }
}
