/**
 * Python's proleptic Gregorian `datetime.date`: validity, `toordinal()`,
 * `weekday()`, and adding or subtracting days with `timedelta(days=n)`,
 * which raises OverflowError outside years 1..9999.
 */
module Calendar {
  import opened Wrappers

  datatype Date = Date(year: int, month: int, day: int)

  /** A `datetime`: a calendar date and a time of day in microseconds since midnight. */
  datatype DateTime = DateTime(date: Date, micros: nat)

  const MinYear := 1
  const MaxYear := 9999

  predicate IsLeap(y: int) {
    y % 4 == 0 && (y % 100 != 0 || y % 400 == 0)
  }

  function DaysInMonth(y: int, m: int): int
    requires 1 <= m <= 12
  {
    if m == 2 then (if IsLeap(y) then 29 else 28)
    else if m == 4 || m == 6 || m == 9 || m == 11 then 30
    else 31
  }

  function DaysInYear(y: int): int {
    if IsLeap(y) then 366 else 365
  }

  /** The dates `datetime.date` can represent. */
  predicate Valid(d: Date) {
    MinYear <= d.year <= MaxYear && 1 <= d.month <= 12 && 1 <= d.day <= DaysInMonth(d.year, d.month)
  }

  /** Days in the years before `y`, counting from year 1. */
  function DaysBeforeYear(y: int): int
    requires y >= 1
  {
    if y == 1 then 0 else DaysBeforeYear(y - 1) + DaysInYear(y - 1)
  }

  /** Days in the months of year `y` before month `m`. */
  function DaysBeforeMonth(y: int, m: int): int
    requires 1 <= m <= 12
  {
    var leap := if IsLeap(y) then 1 else 0;
    match m
    case 1 => 0
    case 2 => 31
    case 3 => 59 + leap
    case 4 => 90 + leap
    case 5 => 120 + leap
    case 6 => 151 + leap
    case 7 => 181 + leap
    case 8 => 212 + leap
    case 9 => 243 + leap
    case 10 => 273 + leap
    case 11 => 304 + leap
    case _ => 334 + leap
  }

  /** `date.toordinal()`: 1 for 0001-01-01. */
  function Ordinal(d: Date): int
    requires Valid(d)
  {
    DaysBeforeYear(d.year) + DaysBeforeMonth(d.year, d.month) + d.day
  }

  /** `date.weekday()`: Monday is 0 and Sunday is 6. */
  function Weekday(d: Date): int
    requires Valid(d)
  {
    (Ordinal(d) + 6) % 7
  }

  /** The following day, or None after 9999-12-31. */
  function NextDay(d: Date): (r: Option<Date>)
    requires Valid(d)
    ensures r.Some? ==> Valid(r.value) && Ordinal(r.value) == Ordinal(d) + 1
    ensures r.None? <==> d == Date(MaxYear, 12, 31)
  {
    if d.day < DaysInMonth(d.year, d.month) then Some(d.(day := d.day + 1))
    else if d.month < 12 then Some(Date(d.year, d.month + 1, 1))
    else if d.year < MaxYear then Some(Date(d.year + 1, 1, 1))
    else None
  }

  /** The preceding day, or None before 0001-01-01. */
  function PrevDay(d: Date): (r: Option<Date>)
    requires Valid(d)
    ensures r.Some? ==> Valid(r.value) && Ordinal(r.value) + 1 == Ordinal(d)
    ensures r.None? <==> d == Date(MinYear, 1, 1)
  {
    if d.day > 1 then Some(d.(day := d.day - 1))
    else if d.month > 1 then Some(Date(d.year, d.month - 1, DaysInMonth(d.year, d.month - 1)))
    else if d.year > MinYear then Some(Date(d.year - 1, 12, 31))
    else None
  }

  /** `d + timedelta(days=n)`, or None where Python raises OverflowError. */
  function AddDays(d: Date, n: int): (r: Option<Date>)
    requires Valid(d)
    ensures r.Some? ==> Valid(r.value) && Ordinal(r.value) == Ordinal(d) + n
    decreases if n < 0 then -n else n
  {
    if n == 0 then Some(d)
    else if n > 0 then
      match NextDay(d)
      case None => None
      case Some(e) => AddDays(e, n - 1)
    else
      match PrevDay(d)
      case None => None
      case Some(e) => AddDays(e, n + 1)
  }

  /** Python's date comparison `a <= b`: by year, then month, then day. */
  predicate DateLe(a: Date, b: Date) {
    a.year < b.year || (a.year == b.year && (a.month < b.month || (a.month == b.month && a.day <= b.day)))
  }

  lemma DaysBeforeYearGrows(a: int, b: int)
    requires 1 <= a < b
    ensures DaysBeforeYear(a) + DaysInYear(a) <= DaysBeforeYear(b)
    decreases b - a
  {
    if a + 1 < b {
      DaysBeforeYearGrows(a + 1, b);
    }
  }

  lemma DaysBeforeMonthGrows(y: int, m: int, n: int)
    requires 1 <= m < n <= 12
    ensures DaysBeforeMonth(y, m) + DaysInMonth(y, m) <= DaysBeforeMonth(y, n)
    decreases n - m
  {
    if m + 1 < n {
      DaysBeforeMonthGrows(y, m + 1, n);
    }
  }

  /** The last day of a year is `DaysInYear` days into it. */
  lemma DaysBeforeDecember(y: int)
    ensures DaysBeforeMonth(y, 12) + 31 == DaysInYear(y)
  {
  }

  /** A date earlier in Python's order has a smaller ordinal. */
  lemma {:induction false} OrdinalIncreases(a: Date, b: Date)
    requires Valid(a) && Valid(b) && DateLe(a, b) && a != b
    ensures Ordinal(a) < Ordinal(b)
  {
    if a.year < b.year {
      DaysBeforeDecember(a.year);
      if a.month < 12 {
        DaysBeforeMonthGrows(a.year, a.month, 12);
      }
      DaysBeforeYearGrows(a.year, b.year);
    } else if a.month < b.month {
      DaysBeforeMonthGrows(a.year, a.month, b.month);
    }
  }

  /** Python's date order and the order of ordinals agree. */
  lemma OrdinalOrder(a: Date, b: Date)
    requires Valid(a) && Valid(b)
    ensures DateLe(a, b) <==> Ordinal(a) <= Ordinal(b)
  {
    if DateLe(a, b) && a != b {
      OrdinalIncreases(a, b);
    }
    if !DateLe(a, b) {
      OrdinalIncreases(b, a);
    }
  }
}
