/** Proleptic Gregorian calendar dates, their day numbers, adding days, and the
    ISO 8601 extended calendar-date form `YYYY-MM-DD` (section 4.1.2.2 of
    ISO 8601:2004) in which the application stores every date. */
module Calendar {
  import opened Wrappers
  import opened Digits
  import Text

  /** A calendar date; `Valid` says whether it exists. */
  datatype Date = Date(year: nat, month: nat, day: nat)

  predicate IsLeapYear(y: nat) {
    y % 4 == 0 && (y % 100 != 0 || y % 400 == 0)
  }

  function DaysInMonth(y: nat, m: nat): nat
    requires 1 <= m <= 12
  {
    if m == 2 then (if IsLeapYear(y) then 29 else 28)
    else if m == 4 || m == 6 || m == 9 || m == 11 then 30
    else 31
  }

  function DaysInYear(y: nat): nat {
    if IsLeapYear(y) then 366 else 365
  }

  predicate Valid(d: Date) {
    1 <= d.month <= 12 && 1 <= d.day <= DaysInMonth(d.year, d.month)
  }

  /** Days from 0000-01-01 to the first day of year `y`. */
  function DaysBeforeYear(y: nat): nat {
    if y == 0 then 0 else DaysBeforeYear(y - 1) + DaysInYear(y - 1)
  }

  /** Days from the first of January of `y` to the first day of month `m`
      (`m == 13` stands for the next first of January). */
  function DaysBeforeMonth(y: nat, m: nat): nat
    requires 1 <= m <= 13
  {
    if m == 1 then 0 else DaysBeforeMonth(y, m - 1) + DaysInMonth(y, m - 1)
  }

  /** The months of a year add up to the year. */
  lemma YearLength(y: nat)
    ensures DaysBeforeMonth(y, 13) == DaysInYear(y)
  {
    assert DaysBeforeMonth(y, 2) == 31;
    assert DaysBeforeMonth(y, 3) == 31 + DaysInMonth(y, 2);
    assert DaysBeforeMonth(y, 4) == DaysBeforeMonth(y, 3) + 31;
    assert DaysBeforeMonth(y, 5) == DaysBeforeMonth(y, 4) + 30;
    assert DaysBeforeMonth(y, 6) == DaysBeforeMonth(y, 5) + 31;
    assert DaysBeforeMonth(y, 7) == DaysBeforeMonth(y, 6) + 30;
    assert DaysBeforeMonth(y, 8) == DaysBeforeMonth(y, 7) + 31;
    assert DaysBeforeMonth(y, 9) == DaysBeforeMonth(y, 8) + 31;
    assert DaysBeforeMonth(y, 10) == DaysBeforeMonth(y, 9) + 30;
    assert DaysBeforeMonth(y, 11) == DaysBeforeMonth(y, 10) + 31;
    assert DaysBeforeMonth(y, 12) == DaysBeforeMonth(y, 11) + 30;
    assert DaysBeforeMonth(y, 13) == DaysBeforeMonth(y, 12) + 31;
  }

  /** Whole days from 0000-01-01 to `d`: subtracting two day numbers gives the
      number of calendar days between the dates. */
  function DayNumber(d: Date): nat
    requires Valid(d)
  {
    DaysBeforeYear(d.year) + DaysBeforeMonth(d.year, d.month) + d.day - 1
  }

  /** Calendar order: by year, then month, then day. */
  predicate Before(a: Date, b: Date) {
    || a.year < b.year
    || (a.year == b.year && a.month < b.month)
    || (a.year == b.year && a.month == b.month && a.day < b.day)
  }

  lemma {:induction false} DaysBeforeYearMonotone(y1: nat, y2: nat)
    requires y1 <= y2
    ensures DaysBeforeYear(y1) <= DaysBeforeYear(y2)
    decreases y2 - y1
  {
    if y1 < y2 {
      DaysBeforeYearMonotone(y1, y2 - 1);
    }
  }

  lemma {:induction false} DaysBeforeMonthMonotone(y: nat, m1: nat, m2: nat)
    requires 1 <= m1 <= m2 <= 13
    ensures DaysBeforeMonth(y, m1) <= DaysBeforeMonth(y, m2)
    decreases m2 - m1
  {
    if m1 < m2 {
      DaysBeforeMonthMonotone(y, m1, m2 - 1);
    }
  }

  /** A date's day number lies inside its month, and its month inside its year. */
  lemma DayNumberBounds(d: Date)
    requires Valid(d)
    ensures DaysBeforeYear(d.year) + DaysBeforeMonth(d.year, d.month) <= DayNumber(d)
    ensures DayNumber(d) < DaysBeforeYear(d.year) + DaysBeforeMonth(d.year, d.month + 1)
    ensures DayNumber(d) < DaysBeforeYear(d.year + 1)
  {
    YearLength(d.year);
    DaysBeforeMonthMonotone(d.year, d.month + 1, 13);
  }

  /** Day numbers follow calendar order. */
  lemma DayNumberOrder(a: Date, b: Date)
    requires Valid(a) && Valid(b)
    ensures DayNumber(a) < DayNumber(b) <==> Before(a, b)
    ensures DayNumber(a) == DayNumber(b) <==> a == b
  {
    DayNumberBounds(a);
    DayNumberBounds(b);
    if a.year < b.year {
      DaysBeforeYearMonotone(a.year + 1, b.year);
    } else if b.year < a.year {
      DaysBeforeYearMonotone(b.year + 1, a.year);
    } else if a.month < b.month {
      DaysBeforeMonthMonotone(a.year, a.month + 1, b.month);
    } else if b.month < a.month {
      DaysBeforeMonthMonotone(a.year, b.month + 1, a.month);
    }
  }

  /** The first day of the month after `d`'s. */
  function NextMonthStart(d: Date): Date
    requires Valid(d)
  {
    if d.month == 12 then Date(d.year + 1, 1, 1) else Date(d.year, d.month + 1, 1)
  }

  /** `addDays(d, n)` for a calendar date: the date `n` days later. */
  function AddDays(d: Date, n: nat): (r: Date)
    requires Valid(d)
    ensures Valid(r)
    ensures DayNumber(r) == DayNumber(d) + n
    decreases n
  {
    var dim := DaysInMonth(d.year, d.month);
    if d.day + n <= dim then Date(d.year, d.month, d.day + n)
    else
      NextMonthStartNumber(d);
      AddDays(NextMonthStart(d), n - (dim - d.day + 1))
  }

  lemma NextMonthStartNumber(d: Date)
    requires Valid(d)
    ensures Valid(NextMonthStart(d))
    ensures DayNumber(NextMonthStart(d)) == DayNumber(d) + DaysInMonth(d.year, d.month) - d.day + 1
  {
    if d.month == 12 {
      YearLength(d.year);
    }
  }

  /** `formatISO(d, { representation: 'date' })`: the year padded to four
      digits, month and day to two, separated by '-'. */
  function FormatIso(d: Date): string {
    Decimal(d.year, 4) + "-" + Decimal(d.month, 2) + "-" + Decimal(d.day, 2)
  }

  /** Reads a `YYYY-MM-DD` string; `None` stands for JavaScript's Invalid Date:
      a string of another shape, or a month or day that does not exist. */
  function ParseIso(s: string): (r: Option<Date>)
    ensures r.Some? ==> Valid(r.value) && r.value.year < 10000
    ensures r.Some? ==> |s| == 10 && s[4] == '-' && s[7] == '-'
  {
    if |s| == 10 && AllDigits(s[0..4]) && s[4] == '-' && AllDigits(s[5..7]) && s[7] == '-'
       && AllDigits(s[8..10])
    then
      var d := Date(Value(s[0..4]), Value(s[5..7]), Value(s[8..10]));
      ValueBound(s[0..4]);
      if Valid(d) then Some(d) else None
    else None
  }

  lemma FormatIsoParts(d: Date)
    requires Valid(d) && d.year < 10000
    ensures |FormatIso(d)| == 10
    ensures FormatIso(d)[0..4] == Decimal(d.year, 4)
    ensures FormatIso(d)[5..7] == Decimal(d.month, 2)
    ensures FormatIso(d)[8..10] == Decimal(d.day, 2)
    ensures FormatIso(d)[4] == '-' && FormatIso(d)[7] == '-'
  {
    assert Pow10(4) == 10000 && Pow10(2) == 100;
    DecimalLength(d.year, 4);
    DecimalLength(d.month, 2);
    DecimalLength(d.day, 2);
  }

  /** Every date of a four-digit year survives formatting and parsing. */
  lemma IsoRoundTrip(d: Date)
    requires Valid(d) && d.year < 10000
    ensures ParseIso(FormatIso(d)) == Some(d)
  {
    FormatIsoParts(d);
    ValueOfDecimal(d.year, 4);
    ValueOfDecimal(d.month, 2);
    ValueOfDecimal(d.day, 2);
  }

  /** A string that parses is the canonical rendering of its date. */
  lemma IsoCanonical(s: string)
    requires ParseIso(s).Some?
    ensures FormatIso(ParseIso(s).value) == s
  {
    var d := ParseIso(s).value;
    DecimalOfValue(s[0..4]);
    DecimalOfValue(s[5..7]);
    DecimalOfValue(s[8..10]);
    assert s == s[0..4] + [s[4]] + s[5..7] + [s[7]] + s[8..10];
  }

  /** Fixed-width renderings compare as their numbers do. */
  lemma DecimalOrder(x: nat, y: nat, w: nat)
    requires 1 <= w && x < Pow10(w) && y < Pow10(w)
    ensures Text.Less(Decimal(x, w), Decimal(y, w)) <==> x < y
    ensures Decimal(x, w) == Decimal(y, w) <==> x == y
  {
    DecimalLength(x, w);
    DecimalLength(y, w);
    ValueOfDecimal(x, w);
    ValueOfDecimal(y, w);
    LessIffValueLess(Decimal(x, w), Decimal(y, w));
  }

  lemma LessAfterDash(a: string, b: string)
    ensures Text.Less("-" + a, "-" + b) <==> Text.Less(a, b)
  {
    assert ("-" + a)[1..] == a && ("-" + b)[1..] == b;
  }

  /** The `-MM-DD` part of two renderings compares by month, then day. */
  lemma MonthDayOrder(a: Date, b: Date)
    requires Valid(a) && Valid(b)
    ensures Text.Less("-" + Decimal(a.month, 2) + "-" + Decimal(a.day, 2),
                      "-" + Decimal(b.month, 2) + "-" + Decimal(b.day, 2))
        <==> a.month < b.month || (a.month == b.month && a.day < b.day)
  {
    var ma, da, mb, db := Decimal(a.month, 2), Decimal(a.day, 2), Decimal(b.month, 2), Decimal(b.day, 2);
    assert Pow10(2) == 100;
    DecimalOrder(a.month, b.month, 2);
    DecimalOrder(a.day, b.day, 2);
    DecimalLength(a.month, 2);
    DecimalLength(b.month, 2);
    assert "-" + ma + "-" + da == "-" + (ma + ("-" + da));
    assert "-" + mb + "-" + db == "-" + (mb + ("-" + db));
    LessAfterDash(ma + ("-" + da), mb + ("-" + db));
    Text.LessConcat(ma, "-" + da, mb, "-" + db);
    LessAfterDash(da, db);
  }

  /** Renderings of four-digit-year dates compare in calendar order. */
  lemma FormatIsoOrder(a: Date, b: Date)
    requires Valid(a) && Valid(b) && a.year < 10000 && b.year < 10000
    ensures Text.Less(FormatIso(a), FormatIso(b)) <==> Before(a, b)
  {
    var ya, yb := Decimal(a.year, 4), Decimal(b.year, 4);
    var ta := "-" + Decimal(a.month, 2) + "-" + Decimal(a.day, 2);
    var tb := "-" + Decimal(b.month, 2) + "-" + Decimal(b.day, 2);
    assert FormatIso(a) == ya + ta && FormatIso(b) == yb + tb;
    assert Pow10(4) == 10000;
    DecimalOrder(a.year, b.year, 4);
    DecimalLength(a.year, 4);
    DecimalLength(b.year, 4);
    Text.LessConcat(ya, ta, yb, tb);
    MonthDayOrder(a, b);
  }

  /** Comparing two parsable date strings as strings compares the dates:
      sorting by the stored text is sorting by date. */
  lemma IsoOrder(s1: string, s2: string)
    requires ParseIso(s1).Some? && ParseIso(s2).Some?
    ensures Text.Less(s1, s2) <==> DayNumber(ParseIso(s1).value) < DayNumber(ParseIso(s2).value)
  {
    var a, b := ParseIso(s1).value, ParseIso(s2).value;
    IsoCanonical(s1);
    IsoCanonical(s2);
    FormatIsoOrder(a, b);
    DayNumberOrder(a, b);
  }
}
