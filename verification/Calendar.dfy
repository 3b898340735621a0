/**
 Proleptic Gregorian dates as Go's `time` package reads, prints and moves them:
 the `full-date` of section 5.6 of RFC 3339 and `AddDate(0, 0, n)`.
 */
module Calendar {
  import opened Wrappers
  import opened Decimal

  datatype Date = Date(year: int, month: int, day: int)

  predicate IsLeap(year: int) {
    year % 4 == 0 && (year % 100 != 0 || year % 400 == 0)
  }

  function DaysIn(month: int, year: int): int {
    if month == 2 then (if IsLeap(year) then 29 else 28)
    else if month == 4 || month == 6 || month == 9 || month == 11 then 30
    else 31
  }

  predicate Valid(d: Date) {
    1 <= d.month <= 12 && 1 <= d.day <= DaysIn(d.month, d.year)
  }

  // --------------------------------------------------------------- moving by days

  function NextDay(d: Date): Date {
    if d.day < DaysIn(d.month, d.year) then d.(day := d.day + 1)
    else if d.month < 12 then Date(d.year, d.month + 1, 1)
    else Date(d.year + 1, 1, 1)
  }

  function PreviousDay(d: Date): Date {
    if d.day > 1 then d.(day := d.day - 1)
    else if d.month > 1 then Date(d.year, d.month - 1, DaysIn(d.month - 1, d.year))
    else Date(d.year - 1, 12, 31)
  }

  /** `AddDate(0, 0, n)`: n steps forward, or -n steps back. */
  function AddDays(d: Date, n: int): (r: Date)
    requires Valid(d)
    ensures Valid(r)
    decreases if n < 0 then -n else n
  {
    if n == 0 then d
    else if n > 0 then AddDays(NextDay(d), n - 1)
    else AddDays(PreviousDay(d), n + 1)
  }

  // ------------------------------------------------------------------ day numbers

  function YearLength(year: int): int { if IsLeap(year) then 366 else 365 }

  /** Days from the start of year 0 to the start of `year`. */
  function YearStart(year: int): int
    decreases if year < 0 then -year else year
  {
    if year == 0 then 0
    else if year > 0 then YearStart(year - 1) + YearLength(year - 1)
    else YearStart(year + 1) - YearLength(year)
  }

  function DaysBefore(month: int, year: int): int {
    var leap := if IsLeap(year) then 1 else 0;
    if month <= 1 then 0
    else if month == 2 then 31
    else if month == 3 then 59 + leap
    else if month == 4 then 90 + leap
    else if month == 5 then 120 + leap
    else if month == 6 then 151 + leap
    else if month == 7 then 181 + leap
    else if month == 8 then 212 + leap
    else if month == 9 then 243 + leap
    else if month == 10 then 273 + leap
    else if month == 11 then 304 + leap
    else 334 + leap
  }

  /** Days since 0000-01-01. */
  function DayNumber(d: Date): int {
    YearStart(d.year) + DaysBefore(d.month, d.year) + d.day - 1
  }

  lemma YearStep(year: int)
    ensures YearStart(year + 1) == YearStart(year) + YearLength(year)
  {
  }

  lemma NextDayNumber(d: Date)
    requires Valid(d)
    ensures Valid(NextDay(d)) && DayNumber(NextDay(d)) == DayNumber(d) + 1
    ensures PreviousDay(NextDay(d)) == d
  {
    YearStep(d.year);
  }

  lemma PreviousDayNumber(d: Date)
    requires Valid(d)
    ensures Valid(PreviousDay(d)) && DayNumber(PreviousDay(d)) == DayNumber(d) - 1
  {
    YearStep(d.year - 1);
  }

  /** Walking day by day agrees with counting. */
  lemma {:induction false} AddDaysNumber(d: Date, n: int)
    requires Valid(d)
    ensures DayNumber(AddDays(d, n)) == DayNumber(d) + n
    decreases if n < 0 then -n else n
  {
    if n > 0 {
      NextDayNumber(d);
      AddDaysNumber(NextDay(d), n - 1);
    } else if n < 0 {
      PreviousDayNumber(d);
      AddDaysNumber(PreviousDay(d), n + 1);
    }
  }

  lemma {:induction false} YearStartMonotone(y: int, z: int)
    requires y <= z
    ensures YearStart(y) + 365 * (z - y) <= YearStart(z)
    decreases z - y
  {
    if y < z {
      YearStep(y);
      YearStartMonotone(y + 1, z);
    }
  }

  lemma DayInYear(d: Date)
    requires Valid(d)
    ensures YearStart(d.year) <= DayNumber(d) < YearStart(d.year + 1)
  {
    YearStep(d.year);
  }

  /** Different dates have different numbers. */
  lemma DayNumberInjective(a: Date, b: Date)
    requires Valid(a) && Valid(b) && DayNumber(a) == DayNumber(b)
    ensures a == b
  {
    DayInYear(a);
    DayInYear(b);
    if a.year < b.year {
      YearStartMonotone(a.year + 1, b.year);
    } else if b.year < a.year {
      YearStartMonotone(b.year + 1, a.year);
    }
  }

  /** The date `n` days after `d` is the only one with that number. */
  lemma AddDaysIs(d: Date, n: int, r: Date)
    requires Valid(d) && Valid(r) && DayNumber(r) == DayNumber(d) + n
    ensures AddDays(d, n) == r
  {
    AddDaysNumber(d, n);
    DayNumberInjective(AddDays(d, n), r);
  }

  /** The inverse of `DayNumber`, counted from any date. */
  function FromDayNumber(origin: Date, n: int): Date
    requires Valid(origin)
  {
    AddDays(origin, n - DayNumber(origin))
  }

  /** Dates and integers correspond one to one. */
  lemma DayNumberBijection(origin: Date, d: Date, n: int)
    requires Valid(origin) && Valid(d)
    ensures Valid(FromDayNumber(origin, n)) && DayNumber(FromDayNumber(origin, n)) == n
    ensures FromDayNumber(origin, DayNumber(d)) == d
  {
    AddDaysNumber(origin, n - DayNumber(origin));
    AddDaysIs(origin, DayNumber(d) - DayNumber(origin), d);
  }

  /** The days of each month, in words. */
  lemma MonthsMean(d: Date)
    ensures Valid(d) <==>
            && 1 <= d.month <= 12 && 1 <= d.day
            && d.day <= (if d.month == 2 then (if d.year % 4 == 0 && (d.year % 100 != 0 || d.year % 400 == 0) then 29 else 28)
                         else if d.month in {4, 6, 9, 11} then 30 else 31)
  {
  }

  /** The Gregorian cycle: 400 years are 146097 days. */
  lemma {:induction false} GregorianCycle(year: int, cycle: nat)
    requires cycle == 400
    ensures YearStart(year + cycle) == YearStart(year) + 146097
    decreases if year < 0 then -year else year
  {
    if year > 0 {
      GregorianCycle(year - 1, cycle);
      CycleStep(year - 1, cycle);
    } else if year < 0 {
      GregorianCycle(year + 1, cycle);
      CycleStep(year, cycle);
    } else {
      CenturyFromZero(cycle);
    }
  }

  lemma CycleStep(year: int, cycle: nat)
    requires cycle == 400
    ensures YearStart(year + 1) - YearStart(year) == YearStart(year + cycle + 1) - YearStart(year + cycle)
  {
    YearStep(year);
    YearStep(year + cycle);
    assert year % 4 == (year + 400) % 4 && year % 100 == (year + 400) % 100 && year % 400 == (year + 400) % 400;
  }

  /** Within the first cycle: 365 days a year and one more every fourth year but the first three centuries. */
  lemma {:induction false} CenturyFromZero(n: nat)
    requires n <= 400
    ensures YearStart(n) == 365 * n + (n + 3) / 4 - (n + 99) / 100 + (n + 399) / 400
  {
    if n > 0 {
      CenturyFromZero(n - 1);
      YearStep(n - 1);
      LeapStep(n - 1);
    }
  }

  lemma LeapStep(n: nat)
    requires n < 400
    ensures YearLength(n) - 365 ==
            ((n + 4) / 4 - (n + 3) / 4) - ((n + 100) / 100 - (n + 99) / 100) + ((n + 400) / 400 - (n + 399) / 400)
  {
    assert (n + 4) / 4 - (n + 3) / 4 == if n % 4 == 0 then 1 else 0;
    assert (n + 100) / 100 - (n + 99) / 100 == if n % 100 == 0 then 1 else 0;
    assert (n + 400) / 400 - (n + 399) / 400 == if n % 400 == 0 then 1 else 0;
  }

  // ------------------------------------------------------------ reading and printing

  /** `Format("2006-01-02")`: a year outside 0..9999 takes a sign or more digits. */
  function Format(d: Date): string
    requires Valid(d)
  {
    (if d.year < 0 then "-" + Padded(-d.year, 4) else Padded(d.year, 4))
    + "-" + Padded(d.month, 2) + "-" + Padded(d.day, 2)
  }

  predicate HasShape(s: string) {
    |s| == 10 && s[4] == '-' == s[7] && AllDigits(s[..4]) && AllDigits(s[5..7]) && AllDigits(s[8..])
  }

  /** `time.Parse("2006-01-02", s)`. */
  function Parse(s: string): (r: Option<Date>)
    ensures r.Some? ==> Valid(r.value)
  {
    if !HasShape(s) then None
    else
      var d := Date(Value(s[..4]), Value(s[5..7]), Value(s[8..]));
      if Valid(d) then Some(d) else None
  }

  /** The years a four-digit date can name. */
  predicate Printable(d: Date) { 0 <= d.year <= 9999 }

  lemma SmallPowers()
    ensures Pow10(2) == 100 && Pow10(4) == 10000
  {
    assert Pow10(1) == 10;
    assert Pow10(3) == 10 * Pow10(2);
  }

  /** A printed date reads back exactly when its year has four digits and no sign. */
  lemma ParseFormat(d: Date)
    requires Valid(d)
    ensures if Printable(d) then Parse(Format(d)) == Some(d) else Parse(Format(d)) == None
  {
    SmallPowers();
    var s := Format(d);
    var month, day := Padded(d.month, 2), Padded(d.day, 2);
    if d.year < 0 {
      assert s[0] == '-' && (|s| >= 4 ==> s[..4][0] == '-');
    } else {
      var year := Padded(d.year, 4);
      assert s == year + ['-'] + month + ['-'] + day;
      if d.year <= 9999 {
        assert s[..4] == year && s[5..7] == month && s[8..] == day;
      }
    }
  }

  /** A text that reads as a date is the way that date is printed. */
  lemma FormatParse(s: string)
    requires Parse(s).Some?
    ensures Printable(Parse(s).value) && Format(Parse(s).value) == s
  {
    SmallPowers();
    var d := Parse(s).value;
    ValueBound(s[..4]);
    ValueInjective(s[..4], Padded(d.year, 4));
    ValueInjective(s[5..7], Padded(d.month, 2));
    ValueInjective(s[8..], Padded(d.day, 2));
    assert s == s[..4] + "-" + s[5..7] + "-" + s[8..];
  }

  /** The layout: four digits of the year, two of the month, two of the day, hyphens between. */
  lemma FormatMeans(d: Date)
    requires Valid(d) && Printable(d)
    ensures var s := Format(d);
            && |s| == 10 && s[4] == '-' && s[7] == '-'
            && AllDigits(s[..4]) && Value(s[..4]) == d.year
            && AllDigits(s[5..7]) && Value(s[5..7]) == d.month
            && AllDigits(s[8..]) && Value(s[8..]) == d.day
  {
    SmallPowers();
    var year, month, day := Padded(d.year, 4), Padded(d.month, 2), Padded(d.day, 2);
    var s := Format(d);
    assert s == year + "-" + month + "-" + day;
    assert s[..4] == year && s[5..7] == month && s[8..] == day;
  }
}
