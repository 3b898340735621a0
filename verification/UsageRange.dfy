/**
 The date range of the usage detail page (internal/http/handlers/usage.go):
 defaults, ordering and the 366-day limit.
 */
module UsageRange {
  import opened Wrappers
  import opened Calendar

  const DEFAULT_DAYS := 30
  const MAX_RANGE_DAYS := 366
  const DAY_NANOS := 86_400_000_000_000
  const MAX_DURATION := 0x7FFF_FFFF_FFFF_FFFF

  datatype RangeError = BadTo | BadFrom | Reversed | TooLong(days: int)

  datatype Range = Range(from: string, to: string)

  /** Whole days in `to.Sub(from)`, a duration that saturates at about 292 years. */
  function ElapsedDays(from: Date, to: Date): int {
    var exact := (DayNumber(to) - DayNumber(from)) * DAY_NANOS;
    (if exact > MAX_DURATION then MAX_DURATION else exact) / DAY_NANOS
  }

  function ToDate(toRaw: string, today: Date): Option<Date> {
    if toRaw == "" then Some(today) else Parse(toRaw)
  }

  function FromDate(fromRaw: string, to: Date): Option<Date>
    requires Valid(to)
  {
    if fromRaw == "" then Some(AddDays(to, -(DEFAULT_DAYS - 1))) else Parse(fromRaw)
  }

  function Resolve(fromRaw: string, toRaw: string, today: Date): Result<Range, RangeError>
    requires Valid(today)
  {
    match ToDate(toRaw, today)
    case None => Err(BadTo)
    case Some(to) =>
      match FromDate(fromRaw, to)
      case None => Err(BadFrom)
      case Some(from) => Span(from, to)
  }

  function Span(from: Date, to: Date): Result<Range, RangeError>
    requires Valid(from) && Valid(to)
  {
    if DayNumber(from) > DayNumber(to) then Err(Reversed)
    else if ElapsedDays(from, to) + 1 > MAX_RANGE_DAYS then Err(TooLong(ElapsedDays(from, to) + 1))
    else Ok(Range(Format(from), Format(to)))
  }

  method ResolveUsageRange(fromRaw: string, toRaw: string, today: Date)
    returns (r: Result<Range, RangeError>)
    requires Valid(today)
    ensures r == Resolve(fromRaw, toRaw, today)
  {
    var toDate := today;
    if toRaw != "" {
      var t := Parse(toRaw);
      if t.None? {
        return Err(BadTo);
      }
      toDate := t.value;
    }
    var fromDate := AddDays(toDate, -(DEFAULT_DAYS - 1));
    if fromRaw != "" {
      var f := Parse(fromRaw);
      if f.None? {
        return Err(BadFrom);
      }
      fromDate := f.value;
    }
    r := CheckSpan(fromDate, toDate);
  }

  method CheckSpan(fromDate: Date, toDate: Date) returns (r: Result<Range, RangeError>)
    requires Valid(fromDate) && Valid(toDate)
    ensures r == Span(fromDate, toDate)
  {
    if DayNumber(fromDate) > DayNumber(toDate) {
      return Err(Reversed);
    }
    var days := ElapsedDays(fromDate, toDate) + 1;
    if days > MAX_RANGE_DAYS {
      return Err(TooLong(days));
    }
    return Ok(Range(Format(fromDate), Format(toDate)));
  }

  /** Each refusal has its cause, and the causes are looked at in this order. */
  lemma RefusedExactly(fromRaw: string, toRaw: string, today: Date)
    requires Valid(today)
    ensures var r := Resolve(fromRaw, toRaw, today);
            && (r == Err(BadTo) <==> toRaw != "" && Parse(toRaw) == None)
            && (r == Err(BadFrom) <==> r != Err(BadTo) && fromRaw != "" && Parse(fromRaw) == None)
            && (r != Err(BadTo) && r != Err(BadFrom) ==>
                  var to := if toRaw == "" then today else Parse(toRaw).value;
                  var from := if fromRaw == "" then AddDays(to, -29) else Parse(fromRaw).value;
                  var days := DayNumber(to) - DayNumber(from) + 1;
                  r == if days < 1 then Err(Reversed)
                       else if days <= 366 then Ok(Range(Format(from), Format(to)))
                       else Err(TooLong(if days <= 106752 then days else 106752)))
  {
    if ToDate(toRaw, today).Some? {
      var to := ToDate(toRaw, today).value;
      var from := FromDate(fromRaw, to);
      if from.Some? {
        SpanSays(from.value, to);
      }
    }
  }

  lemma ElapsedIs(from: Date, to: Date)
    requires DayNumber(from) <= DayNumber(to)
    ensures var n := DayNumber(to) - DayNumber(from); ElapsedDays(from, to) == if n <= 106751 then n else 106751
  {
    WholeDays(DayNumber(to) - DayNumber(from));
  }

  lemma SpanReversed(from: Date, to: Date)
    requires Valid(from) && Valid(to)
    ensures Span(from, to) == Err(Reversed) <==> DayNumber(from) > DayNumber(to)
  {
  }

  lemma SpanOk(from: Date, to: Date)
    requires Valid(from) && Valid(to) && DayNumber(from) <= DayNumber(to)
    ensures var n := DayNumber(to) - DayNumber(from);
            Span(from, to) ==
            if n <= 365 then Ok(Range(Format(from), Format(to)))
            else Err(TooLong(if n <= 106751 then n + 1 else 106752))
  {
    ElapsedIs(from, to);
  }

  /** The day count of a refusal is exact up to the 292 years at which the duration saturates. */
  lemma SpanSays(from: Date, to: Date)
    requires Valid(from) && Valid(to)
    ensures var days := DayNumber(to) - DayNumber(from) + 1;
            Span(from, to) ==
            if days < 1 then Err(Reversed)
            else if days <= 366 then Ok(Range(Format(from), Format(to)))
            else Err(TooLong(if days <= 106752 then days else 106752))
  {
    SpanReversed(from, to);
    if DayNumber(from) <= DayNumber(to) {
      SpanOk(from, to);
    }
  }

  lemma WholeDays(n: nat)
    ensures (if n * DAY_NANOS > MAX_DURATION then MAX_DURATION else n * DAY_NANOS) / DAY_NANOS == if n <= 106751 then n else 106751
  {
    assert n * DAY_NANOS / DAY_NANOS == n;
  }

  /** The saturating subtraction decides the limit as the exact one would. */
  lemma SaturationIsHarmless(from: Date, to: Date)
    requires DayNumber(from) <= DayNumber(to)
    ensures ElapsedDays(from, to) + 1 > MAX_RANGE_DAYS
            <==> DayNumber(to) - DayNumber(from) + 1 > MAX_RANGE_DAYS
  {
    var n := DayNumber(to) - DayNumber(from);
    assert n * DAY_NANOS / DAY_NANOS == n;
  }

  /** Accepted means: both ends are dates, in order, at most 366 days counting both. */
  lemma AcceptedExactly(fromRaw: string, toRaw: string, today: Date)
    requires Valid(today)
    ensures Resolve(fromRaw, toRaw, today).Ok? <==>
            && ToDate(toRaw, today).Some?
            && var to := ToDate(toRaw, today).value;
            && FromDate(fromRaw, to).Some?
            && var from := FromDate(fromRaw, to).value;
            && 1 <= DayNumber(to) - DayNumber(from) + 1 <= 366
  {
    if ToDate(toRaw, today).Some? {
      var to := ToDate(toRaw, today).value;
      var from := FromDate(fromRaw, to);
      if from.Some? && DayNumber(from.value) <= DayNumber(to) {
        SaturationIsHarmless(from.value, to);
      }
    }
  }

  /** Without a start the range is accepted and has exactly 30 days, over any month or leap-year end. */
  lemma DefaultIsThirtyDays(toRaw: string, today: Date)
    requires Valid(today) && ToDate(toRaw, today).Some?
    ensures var to := ToDate(toRaw, today).value;
            exists from: Date :: Valid(from) && AddDays(from, 29) == to
              && Resolve("", toRaw, today) == Ok(Range(Format(from), Format(to)))
  {
    var to := ToDate(toRaw, today).value;
    var from := AddDays(to, -29);
    AddDaysNumber(to, -29);
    AddDaysNumber(from, 29);
    DayNumberInjective(AddDays(from, 29), to);
    SaturationIsHarmless(from, to);
  }

  /** The inputs whose accepted range has only four-digit years. */
  predicate StaysPrintable(fromRaw: string, to: Date) {
    to.year <= 9999 && (fromRaw == "" ==> DayNumber(to) >= DayNumber(Date(0, 1, 30)))
  }

  lemma YearOrder(d: Date)
    requires Valid(d)
    ensures d.year >= 0 <==> DayNumber(d) >= 0
  {
    DayInYear(d);
    if d.year >= 0 {
      YearStartMonotone(0, d.year);
    } else {
      YearStartMonotone(d.year + 1, 0);
    }
  }

  /** A printed range reads back as itself exactly when both of its years have four digits. */
  lemma Reread(from: Date, to: Date, later: Date)
    requires Valid(from) && Valid(to) && Valid(later) && Span(from, to).Ok?
    ensures var r := Span(from, to).value;
            Resolve(r.from, r.to, later) == Ok(r) <==> Printable(from) && Printable(to)
  {
    ParseFormat(to);
    ParseFormat(from);
    assert Format(from) != "" && Format(to) != "";
  }

  lemma StartsBefore(from: Date, to: Date)
    requires Valid(from) && Valid(to) && DayNumber(from) <= DayNumber(to)
    ensures from.year <= to.year
  {
    DayInYear(from);
    DayInYear(to);
    if to.year < from.year {
      YearStartMonotone(to.year + 1, from.year);
    }
  }

  /** The default start has a sign exactly when the end is within the first 29 days of year 0, or before. */
  lemma DefaultStartYear(to: Date)
    requires Valid(to)
    ensures AddDays(to, -29).year >= 0 <==> DayNumber(to) >= DayNumber(Date(0, 1, 30))
  {
    AddDaysNumber(to, -29);
    YearOrder(AddDays(to, -29));
  }

  /**
   An accepted range handed back is accepted unchanged, whatever today is by then,
   exactly when its end is before year 10000 and a defaulted start is not pushed
   into a negative year.
   */
  lemma FeedBack(fromRaw: string, toRaw: string, today: Date, later: Date)
    requires Valid(today) && Valid(later) && Resolve(fromRaw, toRaw, today).Ok?
    ensures var r := Resolve(fromRaw, toRaw, today).value;
            Resolve(r.from, r.to, later) == Ok(r) <==> StaysPrintable(fromRaw, ToDate(toRaw, today).value)
  {
    var to := ToDate(toRaw, today).value;
    var from := FromDate(fromRaw, to).value;
    Reread(from, to, later);
    BothPrintable(fromRaw, from, to);
  }

  lemma BothPrintable(fromRaw: string, from: Date, to: Date)
    requires Valid(to) && FromDate(fromRaw, to) == Some(from) && Valid(from) && Span(from, to).Ok?
    ensures Printable(from) && Printable(to) <==> StaysPrintable(fromRaw, to)
  {
    StartsBefore(from, to);
    if fromRaw != "" {
      FormatParse(fromRaw);
    } else {
      DefaultStartYear(to);
    }
  }

  lemma DefaultStart(toRaw: string, today: Date)
    requires Valid(today) && Parse(toRaw).Some?
    ensures var from := AddDays(Parse(toRaw).value, -29);
            && DayNumber(from) == DayNumber(Parse(toRaw).value) - 29
            && Resolve("", toRaw, today) == Ok(Range(Format(from), toRaw))
  {
    var to := Parse(toRaw).value;
    AddDaysNumber(to, -29);
    SaturationIsHarmless(AddDays(to, -29), to);
    FormatParse(toRaw);
  }

  lemma SignedStart(from: Date, toRaw: string, today: Date)
    requires Valid(today) && Parse(toRaw).Some? && Valid(from) && from.year < 0
    ensures Resolve(Format(from), toRaw, today) == Err(BadFrom)
  {
    ParseFormat(from);
    assert Format(from)[0] == '-';
  }

  /**
   The other side: any end from 0000-01-01 to 0000-01-29 with the default start is
   accepted, and its own answer is then refused because the start has a sign.
   */
  lemma FeedBackFails(to: Date, today: Date)
    requires Valid(to) && Valid(today) && to.year == 0 && to.month == 1 && to.day <= 29
    ensures exists r: Range :: Resolve("", Format(to), today) == Ok(r)
              && Resolve(r.from, r.to, today) == Err(BadFrom)
  {
    ParseFormat(to);
    DefaultStart(Format(to), today);
    var from := AddDays(to, -29);
    YearOrder(from);
    SignedStart(from, Format(to), today);
    var r := Range(Format(from), Format(to));
    assert Resolve("", Format(to), today) == Ok(r);
  }
}
