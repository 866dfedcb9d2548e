/**
 * The date reading shared by the two classifier-based engines: a regular
 * expression finds the first date-shaped substring, then a fixed list of
 * `strptime` formats is tried in order. The regular-expression search,
 * `datetime.strptime` and the current time are passed in.
 */
module DateParsing {
  import opened Wrappers
  import opened Text
  import opened Numbers
  import opened Calendar

  /** The entries of the format list, in the `strptime` notation of the comments. */
  datatype DateFormat =
    | YmdDash       // %Y-%m-%d
    | DmySlash      // %d/%m/%Y
    | DFullMonthY   // %d %B %Y
    | MdyDash       // %m-%d-%Y
    | DAbbrMonthY   // %d %b %Y
    | YmdDot        // %Y.%m.%d
    | DmyDash       // %d-%m-%Y
    | MdySlash      // %m/%d/%Y
    | DmyDashShort  // %d-%m-%y
    | DmySlashShort // %d/%m/%y
    | DmyDotShort   // %d.%m.%y

  /** The formats tried, in order; two entries appear twice, as in the source. */
  const Formats: seq<DateFormat> := [
    YmdDash, DmySlash, DFullMonthY, MdyDash, DAbbrMonthY, YmdDot,
    DmyDash, MdySlash, DAbbrMonthY, YmdDot, DmyDashShort, DmySlashShort, DmyDotShort
  ]

  predicate ShortYear(f: DateFormat) {
    f == DmyDashShort || f == DmySlashShort || f == DmyDotShort
  }

  /** `datetime.strptime(s, format)`, None where it raises ValueError. */
  type Strptime = (string, DateFormat) -> Option<DateTime>

  /** `date_pattern.search(text).group(0)`, None when nothing matches. */
  type DateSearch = string -> Option<string>

  /**
   * One pass of the format loop's body: parse, then move a two-digit year
   * into the current century. None where the body raises ValueError (the
   * parse fails, or the moved date does not exist).
   */
  function TryFormat(s: string, f: DateFormat, strptime: Strptime, now: DateTime): Option<DateTime> {
    match strptime(s, f)
    case None => None
    case Some(parsed) =>
      if ShortYear(f) && parsed.date.year < 100 then
        var moved := parsed.(date := parsed.date.(year := now.date.year / 100 * 100 + parsed.date.year));
        if Valid(moved.date) then Some(moved) else None
      else Some(parsed)
  }

  /** The first format of `formats` whose pass succeeds, with its result. */
  function FirstParse(s: string, formats: seq<DateFormat>, strptime: Strptime, now: DateTime): (r: Option<(nat, DateTime)>)
    ensures r.Some? ==> r.value.0 < |formats| && TryFormat(s, formats[r.value.0], strptime, now) == Some(r.value.1)
    ensures r.Some? ==> forall j :: 0 <= j < r.value.0 ==> TryFormat(s, formats[j], strptime, now).None?
    ensures r.None? ==> forall j :: 0 <= j < |formats| ==> TryFormat(s, formats[j], strptime, now).None?
  {
    if |formats| == 0 then None
    else match TryFormat(s, formats[0], strptime, now)
      case Some(d) => Some((0, d))
      case None =>
        match FirstParse(s, formats[1..], strptime, now)
        case None => None
        case Some(found) => Some((found.0 + 1, found.1))
  }

  /**
   * `extract_date` before formatting: the first format that parses the first date-shaped
   * substring wins; with no such substring, or none parsing, the current time.
   */
  function ExtractDate(text: string, search: DateSearch, strptime: Strptime, now: DateTime): (r: DateTime)
    ensures search(text).None? ==> r == now
    ensures forall s, k ::
      (&& search(text) == Some(s) && 0 <= k < |Formats|
       && TryFormat(s, Formats[k], strptime, now).Some?
       && (forall j :: 0 <= j < k ==> TryFormat(s, Formats[j], strptime, now).None?))
      ==> r == TryFormat(s, Formats[k], strptime, now).value
    ensures forall s ::
      (search(text) == Some(s) && (forall j :: 0 <= j < |Formats| ==> TryFormat(s, Formats[j], strptime, now).None?))
      ==> r == now
  {
    match search(text)
    case None => now
    case Some(s) =>
      match FirstParse(s, Formats, strptime, now)
      case None => now
      case Some(found) => found.1
  }

  /** "%m-%d-%Y" is tried before "%d-%m-%Y", so a string both accept is read month first. */
  lemma MonthFirstWins(text: string, s: string, search: DateSearch, strptime: Strptime, now: DateTime)
    requires search(text) == Some(s)
    requires strptime(s, MdyDash).Some? && strptime(s, DmyDash).Some?
    requires strptime(s, YmdDash).None? && strptime(s, DmySlash).None? && strptime(s, DFullMonthY).None?
    ensures ExtractDate(text, search, strptime, now) == strptime(s, MdyDash).value
  {
    assert Formats[3] == MdyDash;
    assert forall j :: 0 <= j < 3 ==> TryFormat(s, Formats[j], strptime, now).None?;
  }

  /**
   * `strptime`'s `%y` maps a two-digit year into 1969-2068, so a parser
   * whose short-year formats never yield a year below 100 never triggers
   * the century adjustment: each pass returns the parser's own output, and
   * `extract_date` returns what the first accepting format parsed. Four-digit
   * `%Y` formats may yield a year below 100; they are never adjusted.
   */
  lemma CenturyAdjustmentUnreachable(text: string, search: DateSearch, strptime: Strptime, now: DateTime)
    requires forall t, g :: ShortYear(g) && strptime(t, g).Some? ==> strptime(t, g).value.date.year >= 100
    ensures forall t, f :: TryFormat(t, f, strptime, now) == strptime(t, f)
    ensures forall s, k ::
      (&& search(text) == Some(s) && 0 <= k < |Formats| && strptime(s, Formats[k]).Some?
       && (forall j :: 0 <= j < k ==> strptime(s, Formats[j]).None?))
      ==> ExtractDate(text, search, strptime, now) == strptime(s, Formats[k]).value
  {
  }

  /** Two decimal digits, zero-padded, as `%d` and `%m` write them. */
  function Pad2(n: nat): (r: string)
    requires n < 100
    ensures |r| == 2 && AllDigits(r) && DigitsValue(r) == n
  {
    var r := [DigitChar(n / 10), DigitChar(n % 10)];
    assert r[..1] == [DigitChar(n / 10)] && r[..1][..0] == "";
    assert DigitsValue(r[..1]) == n / 10;
    r
  }

  /** `r` reads as "DD/MM/YYYY" for the date `d`: two digits of day, two of month, then the year's digits. */
  predicate ShowsDate(r: string, d: Date) {
    && |r| >= 7 && r[2] == '/' && r[5] == '/'
    && AllDigits(r[..2]) && DigitsValue(r[..2]) == d.day
    && AllDigits(r[3..5]) && DigitsValue(r[3..5]) == d.month
    && AllDigits(r[6..]) && DigitsValue(r[6..]) == d.year
  }

  /** `strftime("%d/%m/%Y")` of a valid date. */
  function FormatDayMonthYear(d: Date): (r: string)
    requires Valid(d)
    ensures ShowsDate(r, d)
  {
    var r := Pad2(d.day) + "/" + Pad2(d.month) + "/" + NatToString(d.year);
    assert r[..2] == Pad2(d.day) && r[3..5] == Pad2(d.month) && r[6..] == NatToString(d.year);
    NatToStringRoundTrip(d.year);
    r
  }
}
