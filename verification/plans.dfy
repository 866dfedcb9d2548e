/**
 * `Plan.calculate_progress` and `Plan.is_overspent`: the date window of a
 * budget plan's period, the spending inside it on the plan's wallets and
 * labels, and that spending as a percentage of the plan's amount rounded
 * to two decimals.
 *
 * Money is counted in cents, and progress in hundredths of a percent, so
 * `round(progress, 2)` is a rounding to a whole number. Today's date is a
 * parameter; the settings put the server clock in UTC.
 */
module Plans {
  import opened Wrappers
  import opened Calendar

  /** The dates a plan counts: all of them, or those from `start` to `end`. */
  datatype Window = Unbounded | Between(start: Date, end: Date)

  /** `ValueError` from `date.replace` with month 13, and `OverflowError` from date arithmetic. */
  datatype PlanError = MonthOutOfRange | DateOverflow

  /** Whether the window holds the date, in Python's date order. */
  predicate Contains(w: Window, d: Date) {
    w.Unbounded? || (DateLe(w.start, d) && DateLe(d, w.end))
  }

  /*
   * Period windows (lines 49-61).
   */

  /**
   * The whole month of `today`, from its first to its last day. This is
   * the window the monthly branch means to build.
   */
  function MonthOf(today: Date): (w: Window)
    requires Valid(today)
    ensures w.Between? && Valid(w.start) && Valid(w.end)
    ensures forall d :: Valid(d) ==> (Contains(w, d) <==> d.year == today.year && d.month == today.month)
  {
    Between(Date(today.year, today.month, 1), Date(today.year, today.month, DaysInMonth(today.year, today.month)))
  }

  /**
   * The monthly branch as written: the first of the month, then the first
   * of the month after (`replace(month=month + 1)`), less one day. Month
   * 13 does not exist, so in December `replace` raises.
   */
  function MonthlyWindow(today: Date): (r: Result<Window, PlanError>)
    requires Valid(today)
    ensures r.Failure? <==> today.month == 12
    ensures r.Success? ==> r.value == MonthOf(today)
  {
    var start := today.(day := 1);
    if start.month + 1 > 12 then Failure(MonthOutOfRange)
    else
      var end := PrevDay(start.(month := start.month + 1, day := 1)).value;
      Success(Between(start, end))
  }

  /** A monthly plan asked for its progress in December fails. */
  lemma DecemberHasNoMonthlyWindow(year: int, day: int)
    requires Valid(Date(year, 12, day))
    ensures MonthlyWindow(Date(year, 12, day)) == Failure(MonthOutOfRange)
  {
  }

  /** The monthly window corrected: the first to the last day of the month, December included. */
  function MonthlyWindowFixed(today: Date): (r: Result<Window, PlanError>)
    requires Valid(today)
    ensures r == Success(MonthOf(today))
  {
    var start := today.(day := 1);
    var end := if start.month == 12 then start.(day := 31)
               else PrevDay(start.(month := start.month + 1, day := 1)).value;
    Success(Between(start, end))
  }

  /** `date.weekday()` of the day `o - (o + 6) % 7` is 0: it is a Monday. */
  lemma MondayOnOrBefore(o: int)
    ensures (o - (o + 6) % 7 + 6) % 7 == 0
  {
    var k := (o + 6) % 7;
    assert o + 6 == 7 * ((o + 6) / 7) + k;
    assert o - k + 6 == 7 * ((o + 6) / 7);
  }

  /** The Monday `Weekday(today)` days back and the Sunday six days later surround today. */
  lemma WeekAround(today: Date, start: Date, end: Date)
    requires Valid(today) && Valid(start) && Valid(end)
    requires Ordinal(start) == Ordinal(today) - Weekday(today)
    requires Ordinal(end) == Ordinal(start) + 6
    ensures Weekday(start) == 0 && DateLe(start, today) && DateLe(today, end)
  {
    MondayOnOrBefore(Ordinal(today));
    OrdinalOrder(start, today);
    OrdinalOrder(today, end);
  }

  /**
   * The weekly branch: back to the Monday of this week, then six days on.
   * Date arithmetic that leaves years 1..9999 raises.
   */
  function WeeklyWindow(today: Date): (r: Result<Window, PlanError>)
    requires Valid(today)
    ensures r.Success? ==> && r.value.Between?
                           && Valid(r.value.start) && Valid(r.value.end)
                           && Weekday(r.value.start) == 0
                           && Ordinal(r.value.end) == Ordinal(r.value.start) + 6
                           && DateLe(r.value.start, today) && DateLe(today, r.value.end)
  {
    match AddDays(today, -Weekday(today))
    case None => Failure(DateOverflow)
    case Some(start) =>
      match AddDays(start, 6)
      case None => Failure(DateOverflow)
      case Some(end) =>
        WeekAround(today, start, end);
        Success(Between(start, end))
  }

  /** Two ordinals lie in the same Monday-to-Sunday week iff they share a Monday. */
  lemma SameWeek(m: int, x: int)
    requires (m + 6) % 7 == 0
    ensures m <= x <= m + 6 <==> x - (x + 6) % 7 == m
  {
    var q := (m + 6) / 7;
    assert m + 6 == 7 * q;
    if m <= x <= m + 6 {
      assert x + 6 == 7 * q + (x - m);
    }
  }

  /** A Monday-to-Sunday window around today holds a date iff the date has today's Monday. */
  lemma WeekHolds(start: Date, end: Date, today: Date, d: Date)
    requires Valid(start) && Valid(end) && Valid(today) && Valid(d)
    requires Weekday(start) == 0 && Ordinal(end) == Ordinal(start) + 6
    requires DateLe(start, today) && DateLe(today, end)
    ensures Contains(Between(start, end), d) <==> Ordinal(d) - Weekday(d) == Ordinal(today) - Weekday(today)
  {
    var m := Ordinal(start);
    OrdinalOrder(start, d);
    OrdinalOrder(d, end);
    OrdinalOrder(start, today);
    OrdinalOrder(today, end);
    SameWeek(m, Ordinal(d));
    SameWeek(m, Ordinal(today));
  }

  /** A date falls in the weekly window iff it has the same Monday as today. */
  lemma WeeklyWindowIsTheWeek(today: Date, d: Date)
    requires Valid(today) && Valid(d) && WeeklyWindow(today).Success?
    ensures Contains(WeeklyWindow(today).value, d) <==> Ordinal(d) - Weekday(d) == Ordinal(today) - Weekday(today)
  {
    var w := WeeklyWindow(today).value;
    WeekHolds(w.start, w.end, today, d);
  }

  /** The yearly branch: 1 January to 31 December of this year. */
  function YearlyWindow(today: Date): (w: Window)
    requires Valid(today)
    ensures w.Between? && Valid(w.start) && Valid(w.end)
    ensures forall d :: Valid(d) ==> (Contains(w, d) <==> d.year == today.year)
  {
    Between(today.(month := 1, day := 1), today.(month := 12, day := 31))
  }

  /** The window of a period name; "one-time" and any other name count every date. */
  function PlanWindow(period: string, today: Date): (r: Result<Window, PlanError>)
    requires Valid(today)
    ensures period !in {"monthly", "weekly", "yearly"} ==> r == Success(Unbounded)
    ensures r.Success? && r.value.Unbounded? ==> period !in {"monthly", "weekly", "yearly"}
    ensures r.Failure? ==> (period == "monthly" && today.month == 12) || period == "weekly"
    ensures period == "monthly" && r.Success? ==> r.value == MonthOf(today)
    ensures period == "yearly" ==> r == Success(YearlyWindow(today))
  {
    if period == "monthly" then MonthlyWindow(today)
    else if period == "weekly" then WeeklyWindow(today)
    else if period == "yearly" then Success(YearlyWindow(today))
    else Success(Unbounded)
  }

  /*
   * The transaction filter (lines 63-70).
   */

  /** `DateTime` order: by date, then by time of day. */
  predicate DateTimeLe(a: DateTime, b: DateTime) {
    (DateLe(a.date, b.date) && a.date != b.date) || (a.date == b.date && a.micros <= b.micros)
  }

  /**
   * `transaction_date__range=(start, end)` as written: the field holds date
   * and time, so Django turns each date bound into midnight of that day.
   */
  predicate InRange(t: DateTime, w: Window) {
    w.Unbounded? || (DateTimeLe(DateTime(w.start, 0), t) && DateTimeLe(t, DateTime(w.end, 0)))
  }

  /** The filter corrected: every moment of the window's days. */
  predicate InRangeFixed(t: DateTime, w: Window) {
    Contains(w, t.date)
  }

  /** The range drops exactly the moments after midnight of the window's last day. */
  lemma RangeDropsLastDay(t: DateTime, w: Window)
    ensures InRange(t, w) ==> InRangeFixed(t, w)
    ensures InRangeFixed(t, w) && !InRange(t, w) <==> w.Between? && t.date == w.end && t.micros > 0 && DateLe(w.start, w.end)
  {
  }

  /** A purchase at noon on 31 May is missing from May's monthly progress. */
  lemma MonthEndPurchaseMissed()
    ensures var w := MonthlyWindow(Date(2024, 5, 15));
      var noon := DateTime(Date(2024, 5, 31), 12 * 3600 * 1000000);
      w.Success? && !InRange(noon, w.value) && InRangeFixed(noon, w.value)
  {
  }

  /*
   * Spending (lines 63-66 and 72-74).
   */

  /** A transaction: its wallet, its labels, its amount in cents and when it happened. */
  datatype Transaction = Transaction(wallet: nat, labels: set<nat>, amount: int, at: DateTime)

  /** A plan: its wallets and labels, its amount in cents, and its period name. */
  datatype Plan = Plan(wallets: set<nat>, labels: set<nat>, amount: int, period: string)

  /**
   * The rows the query yields for one transaction as written: the filter on
   * `labels__in` joins the label table, so a transaction appears once per
   * plan label it carries.
   */
  function JoinRows(t: Transaction, p: Plan, w: Window): nat {
    if t.wallet in p.wallets && InRange(t.at, w) then |t.labels * p.labels| else 0
  }

  /**
   * `Sum("amount")` over the rows, or 0 when there are none (`or 0`
   * turns the aggregate's `None` into 0).
   */
  function Spent(ts: seq<Transaction>, p: Plan, w: Window): (s: int)
    ensures (forall i :: 0 <= i < |ts| ==> JoinRows(ts[i], p, w) == 0) ==> s == 0
  {
    if |ts| == 0 then 0 else JoinRows(ts[0], p, w) * ts[0].amount + Spent(ts[1..], p, w)
  }

  /** Whether a transaction belongs to the plan: its wallet, one of its labels and its date. */
  predicate Counted(t: Transaction, p: Plan, w: Window) {
    t.wallet in p.wallets && t.labels * p.labels != {} && InRangeFixed(t.at, w)
  }

  /** The spending as intended: each counted transaction once, over whole days. */
  function SpentFixed(ts: seq<Transaction>, p: Plan, w: Window): (s: int)
    ensures (forall i :: 0 <= i < |ts| ==> !Counted(ts[i], p, w)) ==> s == 0
  {
    if |ts| == 0 then 0 else (if Counted(ts[0], p, w) then ts[0].amount else 0) + SpentFixed(ts[1..], p, w)
  }

  /**
   * The two agree when no transaction carries two of the plan's labels and
   * none falls on the last day after midnight.
   */
  lemma {:induction false} SpentAgrees(ts: seq<Transaction>, p: Plan, w: Window)
    requires forall i :: 0 <= i < |ts| ==> |ts[i].labels * p.labels| <= 1
    requires forall i :: 0 <= i < |ts| ==> (InRange(ts[i].at, w) <==> InRangeFixed(ts[i].at, w))
    ensures Spent(ts, p, w) == SpentFixed(ts, p, w)
  {
    if |ts| > 0 {
      var t := ts[0];
      assert |t.labels * p.labels| == 0 <==> t.labels * p.labels == {};
      assert JoinRows(t, p, w) == (if Counted(t, p, w) then 1 else 0);
      SpentAgrees(ts[1..], p, w);
    }
  }

  /**
   * As written the sum weighs each transaction by its join rows: a
   * transaction alone contributes its amount once per plan label it
   * carries, and the sum over a list is the sum over its parts. The
   * corrected sum weighs each counted transaction once.
   */
  lemma {:induction false} SpentSplits(a: seq<Transaction>, b: seq<Transaction>, t: Transaction, p: Plan, w: Window)
    ensures Spent([], p, w) == 0 && SpentFixed([], p, w) == 0
    ensures Spent([t], p, w) == JoinRows(t, p, w) * t.amount
    ensures SpentFixed([t], p, w) == if Counted(t, p, w) then t.amount else 0
    ensures Spent(a + b, p, w) == Spent(a, p, w) + Spent(b, p, w)
    ensures SpentFixed(a + b, p, w) == SpentFixed(a, p, w) + SpentFixed(b, p, w)
  {
    if |a| > 0 {
      assert (a + b)[1..] == a[1..] + b;
      SpentSplits(a[1..], b, t, p, w);
    } else {
      assert a + b == b;
    }
  }

  /** A transaction the as-written query joins at least once. */
  predicate Joined(t: Transaction, p: Plan, w: Window) {
    JoinRows(t, p, w) > 0
  }

  /** The amount counted more than once: each joined transaction's amount, once per plan label beyond the first. */
  function Excess(ts: seq<Transaction>, p: Plan, w: Window): int {
    if |ts| == 0 then 0
    else
      (if Joined(ts[0], p, w) then (|ts[0].labels * p.labels| - 1) * ts[0].amount else 0) + Excess(ts[1..], p, w)
  }

  /**
   * Where the two date filters agree, the as-written sum exceeds the
   * intended one by exactly the repeated rows' amounts.
   */
  lemma {:induction false} SpentOvercounts(ts: seq<Transaction>, p: Plan, w: Window)
    requires forall i :: 0 <= i < |ts| ==> (InRange(ts[i].at, w) <==> InRangeFixed(ts[i].at, w))
    ensures Spent(ts, p, w) == SpentFixed(ts, p, w) + Excess(ts, p, w)
  {
    if |ts| > 0 {
      var t := ts[0];
      assert |t.labels * p.labels| == 0 <==> t.labels * p.labels == {};
      assert JoinRows(t, p, w) * t.amount == (if Counted(t, p, w) then t.amount + (|t.labels * p.labels| - 1) * t.amount else 0);
      assert forall i :: 0 <= i < |ts| - 1 ==> ts[1..][i] == ts[i + 1];
      SpentOvercounts(ts[1..], p, w);
    }
  }

  /** A 25.00 purchase labelled both "food" (1) and "daily" (2) counts twice toward a plan holding both labels. */
  lemma TwoLabelsCountTwice()
    ensures var t := Transaction(0, {1, 2}, 2500, DateTime(Date(2024, 5, 2), 0));
      var p := Plan({0}, {1, 2}, 10000, "monthly");
      var w := MonthOf(Date(2024, 5, 15));
      Spent([t], p, w) == 5000 && SpentFixed([t], p, w) == 2500
  {
    var t := Transaction(0, {1, 2}, 2500, DateTime(Date(2024, 5, 2), 0));
    assert t.labels * {1, 2} == {1, 2};
  }

  /*
   * Progress (lines 75-79).
   */

  /** Decimal `round` to a whole number: the nearest integer to `n / d`, ties to the even one. */
  function RoundHalfEven(n: int, d: int): (p: int)
    requires d > 0
    ensures -d <= 2 * (p * d - n) <= d
    ensures 2 * (p * d - n) == d || 2 * (p * d - n) == -d ==> p % 2 == 0
  {
    var q := n / d;
    var r := n % d;
    assert n == q * d + r;
    assert (q + 1) * d - n == d - r;
    if 2 * r < d then q
    else if 2 * r > d then q + 1
    else if q % 2 == 0 then q
    else q + 1
  }

  /** A multiple `k * d` of a positive `d` within `d` of zero has `k` among -1, 0 and 1. */
  lemma MultipleBound(k: int, d: int)
    requires d > 0 && -d <= k * d <= d
    ensures -1 <= k <= 1
  {
    assert k >= 2 ==> k * d >= 2 * d;
    assert k <= -2 ==> k * d <= -2 * d;
  }

  /** A non-zero multiple of a positive number is at least that number away from zero. */
  lemma {:induction false} MultipleSign(x: int, a: int)
    requires a > 0
    ensures x >= 1 ==> x * a >= a
    ensures x <= -1 ==> x * a <= -a
    decreases if x < 0 then -x else x
  {
    if x > 1 {
      MultipleSign(x - 1, a);
      assert x * a == (x - 1) * a + a;
    } else if x < -1 {
      MultipleSign(x + 1, a);
      assert x * a == (x + 1) * a - a;
    }
  }

  /** Multiplying by a positive number keeps the order. */
  lemma Scale(p: int, k: int, a: int)
    requires a > 0
    ensures p <= k <==> p * a <= k * a
    ensures p >= k <==> p * a >= k * a
  {
    MultipleSign(p - k, a);
    assert p * a - k * a == (p - k) * a;
  }

  /** The rounding is determined: only one integer is nearest with ties to even. */
  lemma {:induction false} RoundHalfEvenUnique(n: int, d: int, p: int)
    requires d > 0
    requires -d <= 2 * (p * d - n) <= d
    requires 2 * (p * d - n) == d || 2 * (p * d - n) == -d ==> p % 2 == 0
    ensures p == RoundHalfEven(n, d)
  {
    var r := RoundHalfEven(n, d);
    assert 2 * (p * d - n) - 2 * (r * d - n) == 2 * ((p - r) * d);
    MultipleBound(p - r, d);
    assert p - r == 1 ==> (p - r) * d == d;
    assert p - r == -1 ==> (p - r) * d == -d;
  }

  /** Progress in hundredths of a percent: spent/amount·100, rounded to two decimals; 0 for a non-positive amount. */
  function Progress(spent: int, amount: int): (p: int)
    ensures amount <= 0 ==> p == 0
    ensures amount > 0 ==> -amount <= 2 * (p * amount - spent * 10000) <= amount
  {
    if amount > 0 then RoundHalfEven(spent * 10000, amount) else 0
  }

  /** `is_overspent`: progress above 100.00 percent. */
  predicate Overspent(progress: int) {
    progress > 10000
  }

  /**
   * A plan is overspent exactly when the spending exceeds the amount by
   * more than half a hundredth of a percent: a tie at 100.005 rounds to
   * the even 100.00.
   */
  lemma OverspentIff(spent: int, amount: int)
    ensures Overspent(Progress(spent, amount)) <==> amount > 0 && 20000 * spent > 20001 * amount
  {
    if amount > 0 {
      var p := Progress(spent, amount);
      Scale(p, 10000, amount);
      Scale(p, 10001, amount);
    }
  }

  /** Overspending needs more spent than planned. */
  lemma OverspentSpendsMore(spent: int, amount: int)
    requires Overspent(Progress(spent, amount))
    ensures amount > 0 && spent > amount
  {
    OverspentIff(spent, amount);
  }

  /** `calculate_progress` as written, for the plan's transactions and today's date. */
  function CalculateProgress(p: Plan, ts: seq<Transaction>, today: Date): (r: Result<int, PlanError>)
    requires Valid(today)
    ensures r.Failure? <==> PlanWindow(p.period, today).Failure?
    ensures r.Success? && p.amount <= 0 ==> r.value == 0
    ensures r.Success? ==> r.value == Progress(Spent(ts, p, PlanWindow(p.period, today).value), p.amount)
  {
    match PlanWindow(p.period, today)
    case Failure(e) => Failure(e)
    case Success(w) => Success(Progress(Spent(ts, p, w), p.amount))
  }

  /** `is_overspent` as written: fails where `calculate_progress` fails. */
  function IsOverspent(p: Plan, ts: seq<Transaction>, today: Date): (r: Result<bool, PlanError>)
    requires Valid(today)
    ensures r.Failure? <==> PlanWindow(p.period, today).Failure?
    ensures r.Success? ==>
      (r.value <==> p.amount > 0 && 20000 * Spent(ts, p, PlanWindow(p.period, today).value) > 20001 * p.amount)
  {
    match CalculateProgress(p, ts, today)
    case Failure(e) => Failure(e)
    case Success(progress) =>
      OverspentIff(Spent(ts, p, PlanWindow(p.period, today).value), p.amount);
      Success(Overspent(progress))
  }

  /** `calculate_progress` corrected: whole months and days, each transaction once. */
  function CalculateProgressFixed(p: Plan, ts: seq<Transaction>, today: Date): (r: Result<int, PlanError>)
    requires Valid(today)
    ensures p.period != "weekly" ==> r.Success?
    ensures p.period == "monthly" ==> r == Success(Progress(SpentFixed(ts, p, MonthOf(today)), p.amount))
  {
    var window := if p.period == "monthly" then MonthlyWindowFixed(today) else PlanWindow(p.period, today);
    match window
    case Failure(e) => Failure(e)
    case Success(w) => Success(Progress(SpentFixed(ts, p, w), p.amount))
  }

  /** A monthly plan of 100.00 with 25.00 spent on 31 May shows 25.00 percent once fixed and 0 as written. */
  lemma MonthEndProgress()
    ensures var t := Transaction(0, {1}, 2500, DateTime(Date(2024, 5, 31), 12 * 3600 * 1000000));
      var p := Plan({0}, {1}, 10000, "monthly");
      CalculateProgress(p, [t], Date(2024, 5, 15)) == Success(0) &&
      CalculateProgressFixed(p, [t], Date(2024, 5, 15)) == Success(2500)
  {
    var t := Transaction(0, {1}, 2500, DateTime(Date(2024, 5, 31), 12 * 3600 * 1000000));
    assert t.labels * {1} == {1};
    assert Progress(2500, 10000) == 2500;
  }
}
