/**
 * Calendar dates as day numbers (0 is 1970-01-01) and their rendering in the
 * ISO 8601 extended calendar-date form YYYY-MM-DD (section 5.2.1.1 of
 * ISO 8601:2004), which is what `strftime("%Y-%m-%d")` writes.
 */
module Calendar {
  import opened Wrappers
  import Text

  /** A day number: 0 is 1970-01-01 and each step is one day, so `timedelta(days=i)` is `+ i`. */
  type Date = int

  /** Days before year `yoe` of a 400-year cycle whose years start on March 1. */
  function DaysBeforeYear(yoe: int): int {
    365 * yoe + yoe / 4 - yoe / 100
  }

  /**
   * Splits a day of a 400-year cycle (counted from March 1) into the year of
   * the cycle and the day of that year.
   */
  function YearOfCycle(doe: int): (r: (int, int))
    requires 0 <= doe < 146097
    ensures 0 <= r.0 < 400 && 0 <= r.1 <= 365
    ensures doe == DaysBeforeYear(r.0) + r.1
  {
    var century := if doe / 36524 < 3 then doe / 36524 else 3;
    var inCentury := doe - 36524 * century;
    var quad := inCentury / 1461;
    var inQuad := inCentury % 1461;
    var year := if inQuad / 365 < 3 then inQuad / 365 else 3;
    var yoe := 100 * century + 4 * quad + year;
    assert quad <= 24;
    assert yoe / 4 == 25 * century + quad;
    assert yoe / 100 == century;
    (yoe, inQuad - 365 * year)
  }

  /** Splits a day of a March-based year into a month (1..12) and a day of the month (1..31). */
  function MonthAndDay(doy: int): (r: (int, int))
    requires 0 <= doy <= 365
    ensures 1 <= r.0 <= 12 && 1 <= r.1 <= 31
    ensures var mp := if r.0 > 2 then r.0 - 3 else r.0 + 9; (153 * mp + 2) / 5 + r.1 - 1 == doy
  {
    var mp := (5 * doy + 2) / 153;
    (if mp < 10 then mp + 3 else mp - 9, doy - (153 * mp + 2) / 5 + 1)
  }

  /** The proleptic Gregorian year, month and day of a day number. */
  function CivilFromDays(z: Date): (ymd: (int, int, int))
    ensures 1 <= ymd.1 <= 12 && 1 <= ymd.2 <= 31
  {
    var shifted := z + 719468;          // day number counted from 0000-03-01
    var era := shifted / 146097;
    var yd := YearOfCycle(shifted % 146097);
    var md := MonthAndDay(yd.1);
    var y := era * 400 + yd.0;
    (if md.0 <= 2 then y + 1 else y, md.0, md.1)
  }

  /** The day number of a proleptic Gregorian calendar date. */
  function DaysFromCivil(y: int, m: int, d: int): Date {
    var y' := if m <= 2 then y - 1 else y;
    var mp := if m > 2 then m - 3 else m + 9;
    (y' / 400) * 146097 + DaysBeforeYear(y' % 400) + (153 * mp + 2) / 5 + d - 1 - 719468
  }

  /** Dividing `era * 400 + yoe` by 400 gives back `era` and `yoe`. */
  lemma SplitFourHundred(era: int, yoe: int)
    requires 0 <= yoe < 400
    ensures (era * 400 + yoe) / 400 == era && (era * 400 + yoe) % 400 == yoe
  {
  }

  /** The day number of a date whose March-based year is year `yoe` of cycle `era`. */
  lemma DaysFromCivilInCycle(era: int, yoe: int, m: int, d: int)
    requires 0 <= yoe < 400
    ensures var mp := if m > 2 then m - 3 else m + 9;
            DaysFromCivil(if m <= 2 then era * 400 + yoe + 1 else era * 400 + yoe, m, d)
              == era * 146097 + DaysBeforeYear(yoe) + (153 * mp + 2) / 5 + d - 1 - 719468
  {
    SplitFourHundred(era, yoe);
  }

  /** Converting a day number to a calendar date and back gives the same day. */
  lemma CivilRoundTrip(z: Date)
    ensures var ymd := CivilFromDays(z); DaysFromCivil(ymd.0, ymd.1, ymd.2) == z
  {
    var shifted := z + 719468;
    var era := shifted / 146097;
    var doe := shifted % 146097;
    CivilFromDaysInCycle(z, era, doe);
    var yd := YearOfCycle(doe);
    var md := MonthAndDay(yd.1);
    DaysFromCivilInCycle(era, yd.0, md.0, md.1);
  }

  /** `n` written with at least `width` digits, padded with zeros on the left. */
  function ZeroPad(n: nat, width: nat): (r: string)
    ensures Text.IsDigits(r) && |r| >= width
    ensures |Text.NatToString(n)| <= width ==> |r| == width
  {
    var digits := Text.NatToString(n);
    if |digits| >= width then digits else seq(width - |digits|, _ => '0') + digits
  }

  /** Ten to the power `k`. */
  function Pow10(k: nat): nat {
    if k == 0 then 1 else 10 * Pow10(k - 1)
  }

  /** A number below 10^k has at most `k` digits. */
  lemma {:induction false} NatToStringShort(n: nat, k: nat)
    requires 1 <= k && n < Pow10(k)
    ensures |Text.NatToString(n)| <= k
  {
    if n >= 10 {
      NatToStringShort(n / 10, k - 1);
    }
  }

  /** Year, month and day written as `YYYY-MM-DD`. */
  function CivilText(y: nat, m: nat, d: nat): string {
    ZeroPad(y, 4) + "-" + ZeroPad(m, 2) + "-" + ZeroPad(d, 2)
  }

  /** `strftime("%Y-%m-%d")`: the ISO 8601 extended form of a calendar date. */
  function IsoDate(z: Date): string {
    var ymd := CivilFromDays(z);
    if ymd.0 >= 0 then CivilText(ymd.0, ymd.1, ymd.2)
    else "-" + CivilText(-ymd.0, ymd.1, ymd.2)
  }

  /** For the years 0 to 9999 the text is ten characters, YYYY-MM-DD, with the dashes in place. */
  lemma IsoDateShape(z: Date)
    requires 0 <= CivilFromDays(z).0 <= 9999
    ensures |IsoDate(z)| == 10 && IsoDate(z)[4] == '-' && IsoDate(z)[7] == '-'
    ensures forall i | 0 <= i < 10 && i != 4 && i != 7 :: '0' <= IsoDate(z)[i] <= '9'
  {
    var ymd := CivilFromDays(z);
    NatToStringShort(ymd.0, 4);
    NatToStringShort(ymd.1, 2);
    NatToStringShort(ymd.2, 2);
  }

  predicate IsLeapYear(y: int) {
    y % 4 == 0 && (y % 100 != 0 || y % 400 == 0)
  }

  /** The length of month `m` of year `y` in the Gregorian calendar. */
  function DaysInMonth(y: int, m: int): int
    requires 1 <= m <= 12
  {
    if m == 2 then (if IsLeapYear(y) then 29 else 28)
    else if m == 4 || m == 6 || m == 9 || m == 11 then 30
    else 31
  }

  /** A date `datetime` accepts: years 1 to 9999, and a day that exists in its month. */
  predicate ValidCivil(y: int, m: int, d: int) {
    1 <= y <= 9999 && 1 <= m <= 12 && 1 <= d <= DaysInMonth(y, m)
  }

  /** Day 365 of a March-based year exists only when the February it ends with is a leap one. */
  lemma YearOfCycleLastDay(doe: int)
    requires 0 <= doe < 146097
    ensures var r := YearOfCycle(doe); r.1 == 365 ==> (r.0 + 1) % 4 == 0 && ((r.0 + 1) % 100 != 0 || r.0 == 399)
  {
    var century := if doe / 36524 < 3 then doe / 36524 else 3;
    var inCentury := doe - 36524 * century;
    var quad := inCentury / 1461;
    var inQuad := inCentury % 1461;
    var year := if inQuad / 365 < 3 then inQuad / 365 else 3;
    assert YearOfCycle(doe) == (100 * century + 4 * quad + year, inQuad - 365 * year);
    if inQuad - 365 * year == 365 {
      assert year == 3 && inQuad == 1460;
      if quad == 24 {
        assert inCentury == 36524;
        assert century == 3;
      }
    }
  }

  /** Whether a year of cycle `era` is a leap year depends only on its place in the cycle. */
  lemma LeapInCycle(era: int, k: int)
    requires 0 <= k <= 400
    ensures IsLeapYear(era * 400 + k) <==> k % 4 == 0 && (k % 100 != 0 || k % 400 == 0)
  {
    var n := era * 400 + k;
    assert n == 4 * (era * 100) + k;
    assert n == 100 * (era * 4) + k;
    assert n % 4 == k % 4;
    assert n % 100 == k % 100;
    assert n % 400 == k % 400;
  }

  /** Every month but February has its length whatever the year; February has 28 days but on day 365. */
  lemma MonthAndDayInMonth(doy: int)
    requires 0 <= doy <= 365
    ensures var r := MonthAndDay(doy);
            && (r.0 != 2 ==> r.1 <= DaysInMonth(1, r.0))
            && (r.0 == 2 ==> r.1 <= 28 || (doy == 365 && r.1 == 29))
  {
    var mp := (5 * doy + 2) / 153;
    assert 0 <= mp <= 11;
  }

  /** Every day number falls on a date that exists, for the years `datetime` supports. */
  lemma CivilFromDaysValid(z: Date)
    requires 1 <= CivilFromDays(z).0 <= 9999
    ensures var ymd := CivilFromDays(z); ValidCivil(ymd.0, ymd.1, ymd.2)
  {
    var shifted := z + 719468;
    var era := shifted / 146097;
    var doe := shifted % 146097;
    var yd := YearOfCycle(doe);
    var md := MonthAndDay(yd.1);
    assert CivilFromDays(z) == (if md.0 <= 2 then era * 400 + yd.0 + 1 else era * 400 + yd.0, md.0, md.1);
    MonthAndDayInMonth(yd.1);
    if md.0 == 2 && md.1 == 29 {
      YearOfCycleLastDay(doe);
      LeapInCycle(era, yd.0 + 1);
    }
  }

  /** A later year of the cycle starts at least one whole year, leap day included, after an earlier one. */
  lemma YearsApart(a: int, a2: int)
    requires 0 <= a < a2 < 400
    ensures DaysBeforeYear(a2) >= DaysBeforeYear(a) + 365 + (if (a + 1) % 4 == 0 && (a + 1) % 100 != 0 then 1 else 0)
  {
    assert (a + 1) / 4 == a / 4 + (if (a + 1) % 4 == 0 then 1 else 0);
    assert (a + 1) / 100 == a / 100 + (if (a + 1) % 100 == 0 then 1 else 0);
    assert a2 / 4 >= (a + 1) / 4;
    assert a2 / 100 - (a + 1) / 100 <= a2 - (a + 1);
  }

  /** A day of the cycle is split into one year and one day of that year only. */
  lemma YearOfCycleUnique(doe: int, a: int, b: int)
    requires 0 <= doe < 146097 && 0 <= a < 400 && 0 <= b <= 365
    requires b == 365 ==> (a + 1) % 4 == 0 && ((a + 1) % 100 != 0 || a == 399)
    requires doe == DaysBeforeYear(a) + b
    ensures YearOfCycle(doe) == (a, b)
  {
    var r := YearOfCycle(doe);
    YearOfCycleLastDay(doe);
    if r.0 < a {
      YearsApart(r.0, a);
    } else if a < r.0 {
      YearsApart(a, r.0);
    }
  }

  /** The day of the March-based year on which day `d` of month `m` falls is split back into `m` and `d`. */
  lemma MonthAndDayOf(m: int, d: int)
    requires 1 <= m <= 12 && 1 <= d <= DaysInMonth(0, m)
    ensures var mp := if m > 2 then m - 3 else m + 9;
            var doy := (153 * mp + 2) / 5 + d - 1;
            && 0 <= doy <= 365 && (doy == 365 ==> m == 2 && d == 29)
            && MonthAndDay(doy) == (m, d)
  {
    var mp := if m > 2 then m - 3 else m + 9;
    var doy := (153 * mp + 2) / 5 + d - 1;
    assert (5 * doy + 2) / 153 == mp;
  }

  /** Dividing `era * 146097 + doe` by the length of a cycle gives back `era` and `doe`. */
  lemma SplitCycle(era: int, doe: int)
    requires 0 <= doe < 146097
    ensures (era * 146097 + doe) / 146097 == era && (era * 146097 + doe) % 146097 == doe
  {
  }

  /** The day of the cycle of a day of year `yoe`, the last day of the last year included. */
  lemma DayOfCycleBound(yoe: int, doy: int)
    requires 0 <= yoe < 400 && 0 <= doy <= 365 && (doy == 365 ==> (yoe + 1) % 100 != 0 || yoe == 399)
    ensures 0 <= DaysBeforeYear(yoe) + doy < 146097
  {
    if yoe < 399 {
      assert DaysBeforeYear(yoe) <= 365 * 398 + 99;
    }
  }

  /** The calendar date of a day number given as a cycle and a day of that cycle. */
  lemma CivilFromDaysInCycle(z: Date, era: int, doe: int)
    requires 0 <= doe < 146097 && z + 719468 == era * 146097 + doe
    ensures var yd := YearOfCycle(doe);
            var md := MonthAndDay(yd.1);
            CivilFromDays(z) == (if md.0 <= 2 then era * 400 + yd.0 + 1 else era * 400 + yd.0, md.0, md.1)
  {
    SplitCycle(era, doe);
  }

  /**
   * Where a date that exists falls in its 400-year cycle: the year of the
   * cycle, and a day of that year that splits back into the month and day.
   */
  lemma DayOfYearOf(y: int, m: int, d: int)
    requires ValidCivil(y, m, d)
    ensures var y' := if m <= 2 then y - 1 else y;
            var yoe := y' % 400;
            var mp := if m > 2 then m - 3 else m + 9;
            var doy := (153 * mp + 2) / 5 + d - 1;
            && 0 <= doy <= 365 && MonthAndDay(doy) == (m, d)
            && (doy == 365 ==> (yoe + 1) % 100 != 0 || yoe == 399)
  {
    var y' := if m <= 2 then y - 1 else y;
    var yoe := y' % 400;
    var mp := if m > 2 then m - 3 else m + 9;
    var doy := (153 * mp + 2) / 5 + d - 1;
    assert DaysInMonth(y, m) <= DaysInMonth(0, m);
    MonthAndDayOf(m, d);
    if doy == 365 {
      assert y == y' / 400 * 400 + yoe + 1;
      LeapInCycle(y' / 400, yoe + 1);
    }
  }

  /** A day number whose cycle day splits into `yoe`, `doy`, and then `m`, `d`, falls on that date. */
  lemma CivilOfSplit(z: Date, era: int, doe: int, yoe: int, doy: int, y: int, m: int, d: int)
    requires 0 <= doe < 146097 && z + 719468 == era * 146097 + doe
    requires YearOfCycle(doe) == (yoe, doy) && MonthAndDay(doy) == (m, d)
    requires y == (if m <= 2 then era * 400 + yoe + 1 else era * 400 + yoe)
    ensures CivilFromDays(z) == (y, m, d)
  {
    CivilFromDaysInCycle(z, era, doe);
  }

  /** Converting a date that exists to a day number and back gives the same date. */
  lemma DaysCivilRoundTrip(y: int, m: int, d: int)
    requires ValidCivil(y, m, d)
    ensures CivilFromDays(DaysFromCivil(y, m, d)) == (y, m, d)
  {
    var y' := if m <= 2 then y - 1 else y;
    var era := y' / 400;
    var yoe := y' % 400;
    var mp := if m > 2 then m - 3 else m + 9;
    var doy := (153 * mp + 2) / 5 + d - 1;
    DayOfYearOf(y, m, d);
    DayOfCycleBound(yoe, doy);
    var doe := DaysBeforeYear(yoe) + doy;
    assert y == (if m <= 2 then era * 400 + yoe + 1 else era * 400 + yoe);
    DaysFromCivilInCycle(era, yoe, m, d);
    var z := DaysFromCivil(y, m, d);
    assert z + 719468 == era * 146097 + doe;
    YearOfCycleUnique(doe, yoe, doy);
    CivilOfSplit(z, era, doe, yoe, doy, y, m, d);
  }

  /**
   * What `strptime` accepted: four digits, a month field and a day field
   * that end the text, forming a date that exists, and the day number of
   * exactly that date.
   */
  lemma ParseDateMeaning(s: string)
    requires ParseDate(s).Some?
    ensures IsDigitAt(s, 0) && IsDigitAt(s, 1) && IsDigitAt(s, 2) && IsDigitAt(s, 3) && s[4] == '-'
    ensures MonthField(s, 5).Some? && DayField(s, MonthField(s, 5).value.1).Some?
    ensures var y := 1000 * DigitAt(s, 0) + 100 * DigitAt(s, 1) + 10 * DigitAt(s, 2) + DigitAt(s, 3);
            var month := MonthField(s, 5).value;
            var day := DayField(s, month.1).value;
            && day.1 == |s| && ValidCivil(y, month.0, day.0)
            && CivilFromDays(ParseDate(s).value) == (y, month.0, day.0)
  {
    var y := 1000 * DigitAt(s, 0) + 100 * DigitAt(s, 1) + 10 * DigitAt(s, 2) + DigitAt(s, 3);
    var month := MonthField(s, 5).value;
    var day := DayField(s, month.1).value;
    DaysCivilRoundTrip(y, month.0, day.0);
  }

  /** `strptime` reads back what `strftime` writes, for the years `datetime` supports. */
  lemma IsoDateRoundTrip(z: Date)
    requires 1 <= CivilFromDays(z).0 <= 9999
    ensures ParseDate(IsoDate(z)) == Some(z)
  {
    var ymd := CivilFromDays(z);
    CivilFromDaysValid(z);
    ParseCivilText(ymd.0, ymd.1, ymd.2);
    CivilRoundTrip(z);
  }

  predicate IsDigitAt(s: string, i: int) {
    0 <= i < |s| && '0' <= s[i] <= '9'
  }

  function DigitAt(s: string, i: int): int
    requires IsDigitAt(s, i)
  {
    s[i] as int - '0' as int
  }

  /**
   * The `%m-` of the `strptime` pattern at `i`: the first of the
   * alternatives `1[0-2]`, `0[1-9]`, `[1-9]` that is followed by `-`. The
   * month and where the day starts.
   */
  function MonthField(s: string, i: nat): (r: Option<(int, nat)>)
    ensures r.Some? ==> 1 <= r.value.0 <= 12 && i < r.value.1 <= |s|
  {
    if i + 2 < |s| && s[i] == '1' && '0' <= s[i + 1] <= '2' && s[i + 2] == '-' then Some((10 + DigitAt(s, i + 1), i + 3))
    else if i + 2 < |s| && s[i] == '0' && '1' <= s[i + 1] <= '9' && s[i + 2] == '-' then Some((DigitAt(s, i + 1), i + 3))
    else if i + 1 < |s| && '1' <= s[i] <= '9' && s[i + 1] == '-' then Some((DigitAt(s, i), i + 2))
    else None
  }

  /**
   * The `%d` of the `strptime` pattern at `j`: the first of the
   * alternatives `3[01]`, `[12]\d`, `0[1-9]`, `[1-9]`, ` [1-9]` that
   * matches. The day and where the match ends.
   */
  function DayField(s: string, j: nat): (r: Option<(int, nat)>)
    ensures r.Some? ==> 1 <= r.value.0 <= 31 && j < r.value.1 <= |s|
  {
    if j + 1 < |s| && s[j] == '3' && '0' <= s[j + 1] <= '1' then Some((30 + DigitAt(s, j + 1), j + 2))
    else if j + 1 < |s| && '1' <= s[j] <= '2' && IsDigitAt(s, j + 1) then Some((10 * DigitAt(s, j) + DigitAt(s, j + 1), j + 2))
    else if j + 1 < |s| && s[j] == '0' && '1' <= s[j + 1] <= '9' then Some((DigitAt(s, j + 1), j + 2))
    else if j < |s| && '1' <= s[j] <= '9' then Some((DigitAt(s, j), j + 1))
    else if j + 1 < |s| && s[j] == ' ' && '1' <= s[j + 1] <= '9' then Some((DigitAt(s, j + 1), j + 2))
    else None
  }

  /**
   * `datetime.strptime(s, "%Y-%m-%d")`: four digits, `-`, a month, `-`, a
   * day, nothing after it, and a date that exists. `None` where it raises
   * `ValueError`.
   */
  function ParseDate(s: string): (r: Option<Date>)
    ensures r.Some? ==> 8 <= |s| <= 10 && s[4] == '-'
  {
    if !(IsDigitAt(s, 0) && IsDigitAt(s, 1) && IsDigitAt(s, 2) && IsDigitAt(s, 3) && 4 < |s| && s[4] == '-') then None
    else
      match MonthField(s, 5)
      case None => None
      case Some(month) =>
        match DayField(s, month.1)
        case None => None
        case Some(day) =>
          var y := 1000 * DigitAt(s, 0) + 100 * DigitAt(s, 1) + 10 * DigitAt(s, 2) + DigitAt(s, 3);
          if day.1 == |s| && ValidCivil(y, month.0, day.0) then Some(DaysFromCivil(y, month.0, day.0)) else None
  }

  /** Zeros in front of a numeral do not change its value. */
  lemma {:induction false} LeadingZerosValue(k: nat, t: string)
    requires Text.IsDigits(t)
    ensures Text.IsDigits(seq(k, _ => '0') + t)
    ensures Text.DigitsValue(seq(k, _ => '0') + t) == Text.DigitsValue(t)
    decreases |t| + k
  {
    var z: string := seq(k, _ => '0');
    var u := z + t;
    if t == [] {
      assert u == z;
      if k > 0 {
        assert u[..|u| - 1] == seq(k - 1, _ => '0') + [];
        LeadingZerosValue(k - 1, []);
      }
    } else {
      assert u[..|u| - 1] == z + t[..|t| - 1];
      LeadingZerosValue(k, t[..|t| - 1]);
    }
  }

  /** A padded numeral still denotes its number. */
  lemma ZeroPadValue(n: nat, width: nat)
    ensures Text.DigitsValue(ZeroPad(n, width)) == n
  {
    Text.NatToStringValue(n);
    var digits := Text.NatToString(n);
    if |digits| < width {
      LeadingZerosValue(width - |digits|, digits);
    }
  }

  /** The value of four digits. */
  lemma FourDigits(t: string)
    requires |t| == 4 && Text.IsDigits(t)
    ensures Text.DigitsValue(t) == 1000 * DigitAt(t, 0) + 100 * DigitAt(t, 1) + 10 * DigitAt(t, 2) + DigitAt(t, 3)
  {
    assert t[..3][..2] == t[..2] && t[..2][..1] == t[..1] && t[..1][..0] == [] && t[..4] == t;
    assert Text.DigitsValue(t[..1]) == DigitAt(t, 0);
    assert Text.DigitsValue(t[..2]) == 10 * DigitAt(t, 0) + DigitAt(t, 1);
    assert Text.DigitsValue(t[..3]) == 100 * DigitAt(t, 0) + 10 * DigitAt(t, 1) + DigitAt(t, 2);
  }

  /** The value of two digits. */
  lemma TwoDigits(t: string)
    requires |t| == 2 && Text.IsDigits(t)
    ensures Text.DigitsValue(t) == 10 * DigitAt(t, 0) + DigitAt(t, 1)
  {
    assert t[..1][..0] == [];
    assert Text.DigitsValue(t[..1]) == DigitAt(t, 0);
  }

  /** A number below 10000 padded to four digits. */
  lemma ZeroPadFour(n: nat)
    requires n < 10000
    ensures var t := ZeroPad(n, 4);
            |t| == 4 && Text.IsDigits(t)
            && 1000 * DigitAt(t, 0) + 100 * DigitAt(t, 1) + 10 * DigitAt(t, 2) + DigitAt(t, 3) == n
  {
    assert Pow10(4) == 10000;
    NatToStringShort(n, 4);
    ZeroPadValue(n, 4);
    FourDigits(ZeroPad(n, 4));
  }

  /** A number below 100 padded to two digits. */
  lemma ZeroPadTwo(n: nat)
    requires n < 100
    ensures var t := ZeroPad(n, 2);
            |t| == 2 && Text.IsDigits(t) && 10 * DigitAt(t, 0) + DigitAt(t, 1) == n
  {
    assert Pow10(2) == 100;
    NatToStringShort(n, 2);
    ZeroPadValue(n, 2);
    TwoDigits(ZeroPad(n, 2));
  }

  /** A two-digit month followed by `-` is read by the first or second alternative of `%m`. */
  lemma MonthFieldPadded(s: string, i: nat, m: int)
    requires i + 2 < |s| && IsDigitAt(s, i) && IsDigitAt(s, i + 1) && s[i + 2] == '-'
    requires 1 <= m <= 12 && 10 * DigitAt(s, i) + DigitAt(s, i + 1) == m
    ensures MonthField(s, i) == Some((m, i + 3))
  {
  }

  /** A two-digit day at the end of the text is read by one of the first three alternatives of `%d`. */
  lemma DayFieldPadded(s: string, j: nat, d: int)
    requires j + 2 == |s| && IsDigitAt(s, j) && IsDigitAt(s, j + 1)
    requires 1 <= d <= 31 && 10 * DigitAt(s, j) + DigitAt(s, j + 1) == d
    ensures DayField(s, j) == Some((d, j + 2))
  {
  }

  /** Ten characters `YYYY-MM-DD` whose digits denote a valid date parse as that date. */
  lemma ParsePadded(s: string, y: int, m: int, d: int)
    requires |s| == 10 && s[4] == '-' && s[7] == '-' && ValidCivil(y, m, d)
    requires forall i | 0 <= i < 10 && i != 4 && i != 7 :: IsDigitAt(s, i)
    requires 1000 * DigitAt(s, 0) + 100 * DigitAt(s, 1) + 10 * DigitAt(s, 2) + DigitAt(s, 3) == y
    requires 10 * DigitAt(s, 5) + DigitAt(s, 6) == m && 10 * DigitAt(s, 8) + DigitAt(s, 9) == d
    ensures ParseDate(s) == Some(DaysFromCivil(y, m, d))
  {
    MonthFieldPadded(s, 5, m);
    DayFieldPadded(s, 8, d);
  }

  /** Joining four and two and two digits with dashes puts each digit at its place. */
  lemma JoinedDigits(ty: string, tm: string, td: string)
    requires |ty| == 4 && |tm| == 2 && |td| == 2 && Text.IsDigits(ty) && Text.IsDigits(tm) && Text.IsDigits(td)
    ensures var s := ty + "-" + tm + "-" + td;
            && |s| == 10 && s[4] == '-' && s[7] == '-'
            && (forall i | 0 <= i < 10 && i != 4 && i != 7 :: IsDigitAt(s, i))
            && DigitAt(s, 0) == DigitAt(ty, 0) && DigitAt(s, 1) == DigitAt(ty, 1)
            && DigitAt(s, 2) == DigitAt(ty, 2) && DigitAt(s, 3) == DigitAt(ty, 3)
            && DigitAt(s, 5) == DigitAt(tm, 0) && DigitAt(s, 6) == DigitAt(tm, 1)
            && DigitAt(s, 8) == DigitAt(td, 0) && DigitAt(s, 9) == DigitAt(td, 1)
  {
    var s := ty + "-" + tm + "-" + td;
    assert s[0] == ty[0] && s[1] == ty[1] && s[2] == ty[2] && s[3] == ty[3] && s[4] == '-';
    assert s[5] == tm[0] && s[6] == tm[1] && s[7] == '-' && s[8] == td[0] && s[9] == td[1];
  }

  /** `strptime` reads `YYYY-MM-DD`, as `strftime` writes it, back as the same date. */
  lemma ParseCivilText(y: nat, m: nat, d: nat)
    requires ValidCivil(y, m, d)
    ensures ParseDate(CivilText(y, m, d)) == Some(DaysFromCivil(y, m, d))
  {
    ZeroPadFour(y);
    ZeroPadTwo(m);
    ZeroPadTwo(d);
    JoinedDigits(ZeroPad(y, 4), ZeroPad(m, 2), ZeroPad(d, 2));
    ParsePadded(CivilText(y, m, d), y, m, d);
  }

  /** Dates that `strptime` accepts: a leap day, and a month and day without their zeros. */
  lemma ParseDateAccepts()
    ensures ParseDate("2024-02-29") == Some(DaysFromCivil(2024, 2, 29))
    ensures ParseDate("2024-1-5") == Some(DaysFromCivil(2024, 1, 5))
  {
    assert MonthField("2024-02-29", 5) == Some((2, 8));
    assert DayField("2024-02-29", 8) == Some((29, 10));
    assert ValidCivil(2024, 2, 29);
    assert MonthField("2024-1-5", 5) == Some((1, 7));
    assert DayField("2024-1-5", 7) == Some((5, 8));
  }

  /** Dates that `strptime` refuses: a day the month lacks, a thirteenth month, year 0. */
  lemma ParseDateRejects()
    ensures ParseDate("2023-02-29").None?
    ensures ParseDate("2024-13-01").None?
    ensures ParseDate("0000-01-01").None?
  {
    assert MonthField("2023-02-29", 5) == Some((2, 8));
    assert DayField("2023-02-29", 8) == Some((29, 10));
    assert !ValidCivil(2023, 2, 29);
    assert MonthField("2024-13-01", 5).None?;
    assert !ValidCivil(0, 1, 1);
  }

  /** Text that is not a date: trailing characters, the empty string. */
  lemma ParseDateRejectsText()
    ensures ParseDate("2024-01-05x").None?
    ensures ParseDate("").None?
  {
  }
}
