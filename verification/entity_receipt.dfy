/**
 * The oldest receipt engine (`receipt_processor_old.py`), built on a
 * named-entity recogniser: each line of the text comes back as a list of
 * (text, label) entities. Implausible ITEM_PRICE and ITEM_NAME entities are
 * filtered out, the total and the date are read from the raw text, the
 * address is the first entity of the first line holding an ADDRESS-like
 * label, and items pair the last name and last price of a line.
 */
module EntityReceipt {
  import opened Wrappers
  import opened Text
  import opened Numbers
  import opened Calendar
  import opened DateParsing
  import opened Seqs
  import opened DatePattern
  import Totals

  /** One entity the recogniser found: its text and its label, such as "ITEM_NAME" or "ITEM_PRICE". */
  datatype Entity = Entity(text: string, kind: string)

  datatype Item = Item(name: string, price: int)

  /** The ValueError `int(...)` raises on an item price. */
  datatype Fault = NotAnInteger(text: string)

  // ----------------------------------------------------------- filters

  /** The text a `$`-anchored pattern sees: `$` also matches before one final newline. */
  function BeforeFinalNewline(s: string): (r: string)
    ensures r == s || (|s| > 0 && s[|s| - 1] == '\n' && r == s[..|s| - 1])
  {
    if |s| > 0 && s[|s| - 1] == '\n' then s[..|s| - 1] else s
  }

  /**
   * `re.match(r"^\d+(00|000)$", s)`, read as the pattern is written: some
   * digits, then "00" or "000", then the end.
   */
  predicate PricePattern(s: string) {
    var b := BeforeFinalNewline(s);
    exists n :: (1 <= n <= |b| && AllDigits(b[..n]) && (b[n..] == "00" || b[n..] == "000"))
  }

  /** Three or more digits ending in "00". */
  predicate RoundPrice(s: string) {
    var b := BeforeFinalNewline(s);
    |b| >= 3 && AllDigits(b) && b[|b| - 2] == '0' && b[|b| - 1] == '0'
  }

  lemma RoundPriceMatches(s: string)
    requires RoundPrice(s)
    ensures PricePattern(s)
  {
    var b := BeforeFinalNewline(s);
    var n := |b| - 2;
    assert forall k :: 0 <= k < n ==> b[..n][k] == b[k];
    assert b[n..] == [b[n], b[n + 1]] == "00";
  }

  lemma MatchIsRoundPrice(s: string)
    requires PricePattern(s)
    ensures RoundPrice(s)
  {
    var b := BeforeFinalNewline(s);
    var n :| 1 <= n <= |b| && AllDigits(b[..n]) && (b[n..] == "00" || b[n..] == "000");
    assert |b| - n >= 2;
    assert b[|b| - 1] == b[n..][|b| - 1 - n] == '0';
    assert b[|b| - 2] == b[n..][|b| - 2 - n] == '0';
    forall k | 0 <= k < |b|
      ensures IsDigit(b[k])
    {
      if k < n {
        assert b[k] == b[..n][k];
      } else {
        assert b[k] == b[n..][k - n];
      }
    }
  }

  /** The pattern accepts exactly the digit strings of length three or more that end in "00". */
  lemma PricePatternIsRoundPrice(s: string)
    ensures PricePattern(s) <==> RoundPrice(s)
  {
    if RoundPrice(s) {
      RoundPriceMatches(s);
    }
    if PricePattern(s) {
      MatchIsRoundPrice(s);
    }
  }

  /** A price that passes the filter is read by `int()` as the digits it is written with. */
  lemma RoundPriceIsInteger(s: string)
    requires RoundPrice(s)
    ensures IntLiteral(s) && IntValue(s) == DigitsValue(BeforeFinalNewline(s))
  {
    var b := BeforeFinalNewline(s);
    if b == s {
      DigitStringIsNumeric(b);
    } else {
      assert s[..|b|] == b && s[|b|] == '\n';
      DigitsScanOn(s, b, 1);
      assert DigitsValue(b[..1]) == DigitValue(b[0]) by {
        assert b[..1][..0] == [];
      }
      assert s[0] == b[0];
    }
  }

  /** From a point inside the digits of `b`, the scan of `b + t` reads on to the value of all of `b`. */
  lemma {:induction false} DigitsScanOn(s: string, b: string, i: nat)
    requires |b| > 0 && AllDigits(b) && 0 < i <= |b| && |s| > |b|
    requires s[..|b|] == b && forall k :: |b| <= k < |s| ==> IsSpace(s[k])
    ensures IntScan(s, i, IntDigits)
    ensures IntRead(s, i, IntDigits, DigitsValue(b[..i]), false) == DigitsValue(b)
    decreases |s| - i
  {
    if i < |b| {
      assert s[i] == b[i];
      assert b[..i + 1][..i] == b[..i];
      DigitsScanOn(s, b, i + 1);
    } else {
      assert b[..i] == b;
      TrailScan(s, i + 1, DigitsValue(b));
    }
  }

  /** Trailing whitespace is accepted and leaves the value alone. */
  lemma {:induction false} TrailScan(s: string, i: nat, acc: nat)
    requires 0 < i <= |s| && forall k :: i - 1 <= k < |s| ==> IsSpace(s[k])
    ensures IntScan(s, i, IntTrail) && IntRead(s, i, IntTrail, acc, false) == acc
    decreases |s| - i
  {
    if i < |s| {
      TrailScan(s, i + 1, acc);
    }
  }

  /** An entity `filter_item_prices` keeps: anything but an ITEM_PRICE, or a price the pattern accepts. */
  predicate PriceKept(e: Entity) {
    e.kind != "ITEM_PRICE" || PricePattern(e.text)
  }

  /** `filter_item_prices`: drops the ITEM_PRICE entities that are not round digit strings. */
  function FilterItemPrices(entities: seq<Entity>): (r: seq<Entity>)
    ensures forall k :: 0 <= k < |r| ==> r[k] in entities
    ensures forall k :: 0 <= k < |r| && r[k].kind == "ITEM_PRICE" ==> RoundPrice(r[k].text)
    ensures forall k :: 0 <= k < |entities| && entities[k].kind != "ITEM_PRICE" ==> entities[k] in r
    ensures forall k :: 0 <= k < |entities| && RoundPrice(entities[k].text) ==> entities[k] in r
  {
    var r := Filter(entities, PriceKept);
    forall k | 0 <= k < |r| && r[k].kind == "ITEM_PRICE"
      ensures RoundPrice(r[k].text)
    {
      MatchIsRoundPrice(r[k].text);
    }
    forall k | 0 <= k < |entities| && RoundPrice(entities[k].text)
      ensures PriceKept(entities[k])
    {
      RoundPriceMatches(entities[k].text);
    }
    r
  }

  /** The words whose presence, anywhere in the lower-cased text, disqualifies an item name. */
  const ExcludedKeywords: set<string> := {
    "total", "cash", "bayar", "kembali", "terima", "kasih", "jual", "harga",
    "beli", "uang", "kembalian", "tunai", "pulsa", "saldo", "voucher",
    "pembayaran", "pembelian", "belanja", "change"
  }

  predicate HasExcludedKeyword(text: string) {
    exists w :: w in ExcludedKeywords && Contains(Lower(text), w)
  }

  /** An entity `filter_item_names` keeps: anything but an ITEM_NAME, or a name with no excluded keyword that is not a quantity such as "2x". */
  predicate NameKept(e: Entity) {
    e.kind != "ITEM_NAME" || (!HasExcludedKeyword(e.text) && !QuantityWord(e.text, true))
  }

  /** `filter_item_names`. */
  function FilterItemNames(entities: seq<Entity>): (r: seq<Entity>)
    ensures forall k :: 0 <= k < |r| ==> r[k] in entities
    ensures forall k :: 0 <= k < |r| && r[k].kind == "ITEM_NAME" ==> !HasExcludedKeyword(r[k].text) && !QuantityWord(r[k].text, true)
    ensures forall k :: 0 <= k < |entities| && entities[k].kind != "ITEM_NAME" ==> entities[k] in r
    ensures forall k :: (0 <= k < |entities| && entities[k].kind == "ITEM_NAME"
      && !HasExcludedKeyword(entities[k].text) && !QuantityWord(entities[k].text, true)) ==> entities[k] in r
  {
    Filter(entities, NameKept)
  }

  /** An entity neither filter drops: no failing ITEM_PRICE and no failing ITEM_NAME. */
  predicate PassesBoth(e: Entity) {
    (e.kind != "ITEM_PRICE" || RoundPrice(e.text))
    && (e.kind != "ITEM_NAME" || (!HasExcludedKeyword(e.text) && !QuantityWord(e.text, true)))
  }

  /** Both filters, as `process_receipt` applies them to every line. */
  function FilterLine(entities: seq<Entity>): (r: seq<Entity>)
    ensures forall k :: 0 <= k < |r| ==> r[k] in entities
    ensures forall k :: 0 <= k < |r| && r[k].kind == "ITEM_PRICE" ==> RoundPrice(r[k].text)
    ensures forall k :: 0 <= k < |r| && r[k].kind == "ITEM_NAME" ==> !HasExcludedKeyword(r[k].text) && !QuantityWord(r[k].text, true)
    ensures forall k :: 0 <= k < |entities| && PassesBoth(entities[k]) ==> entities[k] in r
  {
    FilterItemNames(FilterItemPrices(entities))
  }

  /**
   * `filter_item_prices` keeps order and decides every entity on its own:
   * it distributes over concatenation, and keeps a single entity exactly
   * when it is not an ITEM_PRICE or is a round price.
   */
  lemma FilterItemPricesSplits(a: seq<Entity>, b: seq<Entity>, e: Entity)
    ensures FilterItemPrices([]) == []
    ensures FilterItemPrices(a + b) == FilterItemPrices(a) + FilterItemPrices(b)
    ensures FilterItemPrices([e]) == if e.kind != "ITEM_PRICE" || RoundPrice(e.text) then [e] else []
  {
    FilterSplits(a, b, e, PriceKept);
    if e.kind == "ITEM_PRICE" {
      if RoundPrice(e.text) {
        RoundPriceMatches(e.text);
      }
      if PricePattern(e.text) {
        MatchIsRoundPrice(e.text);
      }
    }
  }

  /**
   * `filter_item_names` keeps order and decides every entity on its own:
   * it distributes over concatenation, and keeps a single entity exactly
   * when it is not an ITEM_NAME or is a name without an excluded keyword
   * that is not a quantity.
   */
  lemma FilterItemNamesSplits(a: seq<Entity>, b: seq<Entity>, e: Entity)
    ensures FilterItemNames([]) == []
    ensures FilterItemNames(a + b) == FilterItemNames(a) + FilterItemNames(b)
    ensures FilterItemNames([e]) == if e.kind != "ITEM_NAME" || (!HasExcludedKeyword(e.text) && !QuantityWord(e.text, true)) then [e] else []
  {
    FilterSplits(a, b, e, NameKept);
  }

  /** Both filters together keep order, distribute over concatenation, and keep an entity exactly when it passes both. */
  lemma FilterLineSplits(a: seq<Entity>, b: seq<Entity>, e: Entity)
    ensures FilterLine([]) == []
    ensures FilterLine(a + b) == FilterLine(a) + FilterLine(b)
    ensures FilterLine([e]) == if PassesBoth(e) then [e] else []
  {
    FilterItemPricesSplits(a, b, e);
    FilterItemNamesSplits(FilterItemPrices(a), FilterItemPrices(b), e);
    FilterItemNamesSplits([], [], e);
    if PriceKept(e) {
      assert FilterItemPrices([e]) == [e];
    } else {
      assert FilterItemPrices([e]) == [];
    }
  }

  /** A line both filters have already been through passes them again unchanged. */
  lemma FilterLineIdempotent(entities: seq<Entity>)
    ensures FilterLine(FilterLine(entities)) == FilterLine(entities)
  {
    var once := FilterLine(entities);
    forall k | 0 <= k < |once|
      ensures PriceKept(once[k]) && NameKept(once[k])
    {
      if once[k].kind == "ITEM_PRICE" {
        RoundPriceMatches(once[k].text);
      }
    }
    FilterIdempotent(once, PriceKept);
    FilterIdempotent(once, NameKept);
  }

  // ------------------------------------------------------------- total

  /** `get_total_entities`: the marker is the lower-case word "total", matched case-sensitively. */
  function TotalOf(text: string): (r: int)
    ensures (forall j :: 0 <= j < |SplitOn(text, ' ')| ==> !Contains(SplitOn(text, ' ')[j], "total")) ==> r == 0
    ensures forall t: nat, k: nat ::
              Totals.FirstMarkerAt(SplitOn(text, ' '), "total", t) && Totals.FirstIntFrom(SplitOn(text, ' '), t, k)
              ==> r == IntValue(SplitOn(text, ' ')[k])
    ensures forall t: nat :: Totals.FirstMarkerAt(SplitOn(text, ' '), "total", t) && Totals.NoIntFrom(SplitOn(text, ' '), t) ==> r == 0
  {
    Totals.TotalOf(text, "total")
  }
  // -------------------------------------------------------------- date

  /**
   * `re.findall(pattern, t)` of one token: its first date, if any, which is
   * the match at the leftmost position where the pattern matches.
   */
  function TokenDate(t: string): (r: Option<string>)
    ensures r.None? <==> |FindAll(t)| == 0
    ensures r.Some? ==> DateShaped(r.value)
    ensures r.None? <==> NoDate(t)
    ensures r.Some? ==> StartsLeftmost(t, [r.value])
  {
    var dates := FindAll(t);
    FindAllFirstIsLeftmost(t);
    if |dates| > 0 then
      StartsLeftmostHead(t, dates);
      Some(dates[0])
    else None
  }

  /** The first date of each token. */
  function TokenDates(tokens: seq<string>): (r: seq<Option<string>>)
    ensures |r| == |tokens| && forall k :: 0 <= k < |tokens| ==> r[k] == TokenDate(tokens[k])
  {
    seq(|tokens|, k requires 0 <= k < |tokens| => TokenDate(tokens[k]))
  }

  /** The first dates of the space-separated tokens of `text`. */
  function DatesOfTokens(text: string): (r: seq<Option<string>>)
    ensures |r| == |SplitOn(text, ' ')|
  {
    TokenDates(SplitOn(text, ' '))
  }

  /** Token `k` is the first token of `text` holding a date. */
  predicate FirstDatedToken(text: string, k: nat) {
    var dates := DatesOfTokens(text);
    k < |dates| && dates[k].Some? && forall j :: 0 <= j < k ==> dates[j].None?
  }

  /** What `get_date_entities` returns: the first token's first date, else today as "%d/%m/%Y". */
  function DateOf(text: string, now: DateTime): (r: string)
    requires Valid(now.date)
    ensures DateShaped(r) || r == FormatDayMonthYear(now.date)
  {
    var dates := DatesOfTokens(text);
    match FirstSomeAt(dates)
    case Some(k) => dates[k].value
    case None => FormatDayMonthYear(now.date)
  }

  /**
   * The date is the first date of the first token holding one, and today's
   * date when no token holds one.
   */
  lemma {:induction false} DateOfFirstDatedToken(text: string, now: DateTime, k: nat)
    requires Valid(now.date)
    ensures FirstDatedToken(text, k) ==> DateOf(text, now) == DatesOfTokens(text)[k].value
    ensures (forall j :: 0 <= j < |DatesOfTokens(text)| ==> DatesOfTokens(text)[j].None?) ==> DateOf(text, now) == FormatDayMonthYear(now.date)
  {
    if FirstDatedToken(text, k) {
      FirstSomeAtIs(DatesOfTokens(text), k);
    }
  }

  // ------------------------------------------------------------- items

  /** Position of the last entity with this label: the loop keeps overwriting. */
  function LastAt(entities: seq<Entity>, kind: string): (r: Option<nat>)
    ensures r.None? <==> forall k :: 0 <= k < |entities| ==> entities[k].kind != kind
    ensures r.Some? ==> r.value < |entities| && entities[r.value].kind == kind
    ensures r.Some? ==> forall k :: r.value < k < |entities| ==> entities[k].kind != kind
  {
    if |entities| == 0 then None
    else
      var k := |entities| - 1;
      if entities[k].kind == kind then Some(k)
      else LastAt(entities[..k], kind)
  }

  /** Position of the first entity with this label: the loop breaks there. */
  function FirstAt(entities: seq<Entity>, kind: string): (r: Option<nat>)
    ensures r.None? <==> forall k :: 0 <= k < |entities| ==> entities[k].kind != kind
    ensures r.Some? ==> r.value < |entities| && entities[r.value].kind == kind
    ensures r.Some? ==> forall k :: 0 <= k < r.value ==> entities[k].kind != kind
  {
    if |entities| == 0 then None
    else if entities[0].kind == kind then Some(0)
    else
      match FirstAt(entities[1..], kind)
      case None => None
      case Some(k) => Some(k + 1)
  }

  /** The text at a position, if there is one. */
  function TextAt(entities: seq<Entity>, at: Option<nat>): (r: Option<string>)
    requires at.Some? ==> at.value < |entities|
    ensures r.Some? <==> at.Some?
  {
    if at.Some? then Some(entities[at.value].text) else None
  }

  /** Python truthiness of an optional string: present and non-empty. */
  predicate Truthy(s: Option<string>) {
    s.Some? && |s.value| > 0
  }

  /** `{"item": name, "price": int(price)}`, or the ValueError `int()` raises. */
  function MakeItem(name: string, price: string): (r: Result<Option<Item>, Fault>)
    ensures r.Failure? <==> !IntLiteral(price)
    ensures r.Success? ==> r.value == Some(Item(name, IntValue(price)))
  {
    if IntLiteral(price) then Success(Some(Item(name, IntValue(price)))) else Failure(NotAnInteger(price))
  }

  /** Entity `k` is the last one of the line with this label. */
  predicate LastOfKind(entities: seq<Entity>, k: int, kind: string) {
    0 <= k < |entities| && entities[k].kind == kind && forall j :: k < j < |entities| ==> entities[j].kind != kind
  }

  /** Entity `k` is the first one of the line with this label. */
  predicate FirstOfKind(entities: seq<Entity>, k: int, kind: string) {
    0 <= k < |entities| && entities[k].kind == kind && forall j :: 0 <= j < k ==> entities[j].kind != kind
  }

  /** The last entity with this label has a non-empty text. */
  ghost predicate TruthyLast(entities: seq<Entity>, kind: string) {
    exists k :: LastOfKind(entities, k, kind) && entities[k].text != ""
  }

  /** `r` is what `int(price)` makes of this price text: its value, or the ValueError. */
  ghost predicate PricedBy(r: Result<Option<Item>, Fault>, price: string) {
    (r.Failure? <==> !IntLiteral(price)) && (r.Success? ==> r.value.Some? && r.value.value.price == IntValue(price))
  }

  /** Some entity of the line has this label. */
  ghost predicate HasFirst(entities: seq<Entity>, kind: string) {
    exists k :: FirstOfKind(entities, k, kind)
  }

  /** `r` is priced by the first entity with this label. */
  ghost predicate PricedByFirst(r: Result<Option<Item>, Fault>, entities: seq<Entity>, kind: string) {
    exists k :: FirstOfKind(entities, k, kind) && PricedBy(r, entities[k].text)
  }

  lemma LastAtIsLast(entities: seq<Entity>, kind: string, k: int)
    requires LastOfKind(entities, k, kind)
    ensures LastAt(entities, kind) == Some(k)
  {
    var r := LastAt(entities, kind);
    assert r.Some? && !(r.value < k);
  }

  lemma FirstAtIsFirst(entities: seq<Entity>, kind: string, k: int)
    requires FirstOfKind(entities, k, kind)
    ensures FirstAt(entities, kind) == Some(k)
  {
    var r := FirstAt(entities, kind);
    assert r.Some? && !(k < r.value);
  }

  /**
   * One pass of `find_item_name_price_pattern` over line `i`: the last
   * name with the last price of the line when both are non-empty;
   * otherwise, for a non-empty name, the first price of the next line.
   */
  function LineItem(lines: seq<seq<Entity>>, i: nat): (r: Result<Option<Item>, Fault>)
    requires i < |lines|
    ensures r == Success(None) <==> (!TruthyLast(lines[i], "ITEM_NAME")
      || (!TruthyLast(lines[i], "ITEM_PRICE") && !(i + 1 < |lines| && HasFirst(lines[i + 1], "ITEM_PRICE"))))
    ensures r.Success? && r.value.Some? ==> exists k :: LastOfKind(lines[i], k, "ITEM_NAME") && r.value.value.name == lines[i][k].text
    ensures r != Success(None) && TruthyLast(lines[i], "ITEM_PRICE") ==>
      exists k :: LastOfKind(lines[i], k, "ITEM_PRICE") && PricedBy(r, lines[i][k].text)
    ensures r != Success(None) && !TruthyLast(lines[i], "ITEM_PRICE") ==>
      i + 1 < |lines| && PricedByFirst(r, lines[i + 1], "ITEM_PRICE")
  {
    var nameAt := LastAt(lines[i], "ITEM_NAME");
    var priceAt := LastAt(lines[i], "ITEM_PRICE");
    var name := TextAt(lines[i], nameAt);
    var price := TextAt(lines[i], priceAt);
    LineItemTruthy(lines[i], "ITEM_NAME");
    LineItemTruthy(lines[i], "ITEM_PRICE");
    if Truthy(name) && Truthy(price) then
      assert LastOfKind(lines[i], nameAt.value, "ITEM_NAME") && LastOfKind(lines[i], priceAt.value, "ITEM_PRICE");
      MakeItem(name.value, price.value)
    else if Truthy(name) && !Truthy(price) && i + 1 < |lines| then
      assert LastOfKind(lines[i], nameAt.value, "ITEM_NAME");
      match FirstAt(lines[i + 1], "ITEM_PRICE")
      case None =>
        assert !HasFirst(lines[i + 1], "ITEM_PRICE");
        Success(None)
      case Some(k) =>
        assert FirstOfKind(lines[i + 1], k, "ITEM_PRICE");
        MakeItem(name.value, lines[i + 1][k].text)
    else Success(None)
  }

  /** Python truthiness of the last text with this label is `TruthyLast`. */
  lemma LineItemTruthy(entities: seq<Entity>, kind: string)
    ensures Truthy(TextAt(entities, LastAt(entities, kind))) <==> TruthyLast(entities, kind)
  {
    var at := LastAt(entities, kind);
    if at.Some? {
      assert LastOfKind(entities, at.value, kind);
      if k :| LastOfKind(entities, k, kind) {
        LastAtIsLast(entities, kind, k);
      }
    } else {
      assert forall k :: !LastOfKind(entities, k, kind);
    }
  }

  /** What each line's pass yields. */
  function LineItems(lines: seq<seq<Entity>>): (r: seq<Result<Option<Item>, Fault>>)
    ensures |r| == |lines| && forall k :: 0 <= k < |lines| ==> r[k] == LineItem(lines, k)
  {
    seq(|lines|, k requires 0 <= k < |lines| => LineItem(lines, k))
  }

  /**
   * `find_item_name_price_pattern`: on success, exactly the items of the
   * lines whose pass yields one, in line order and one per line; on
   * failure, the ValueError of the first line whose pass raises.
   */
  function FindItems(lines: seq<seq<Entity>>): (r: Result<seq<Item>, Fault>)
    ensures r.Success? ==> |r.value| == |Positions(FoundFlags(LineItems(lines)), 0)|
    ensures r.Success? ==> forall m :: 0 <= m < |r.value| ==>
      LineItem(lines, Positions(FoundFlags(LineItems(lines)), 0)[m]) == Success(Some(r.value[m]))
    ensures r.Failure? <==> exists k :: 0 <= k < |lines| && LineItem(lines, k).Failure?
    ensures r.Failure? ==> exists k :: (0 <= k < |lines| && LineItem(lines, k) == Failure(r.error)
      && forall j :: 0 <= j < k ==> LineItem(lines, j).Success?)
  {
    var outcomes := LineItems(lines);
    var r := Collect(outcomes, 0);
    assert r.Failure? ==> exists k :: 0 <= k < |lines| && LineItem(lines, k).Failure? by {
      if r.Failure? {
        var k :| 0 <= k < |outcomes| && outcomes[k].Failure?;
        assert LineItem(lines, k).Failure?;
      }
    }
    assert (exists k :: 0 <= k < |lines| && LineItem(lines, k).Failure?) ==> r.Failure? by {
      if k :| 0 <= k < |lines| && LineItem(lines, k).Failure? {
        assert outcomes[k].Failure?;
      }
    }
    r
  }

  /** Every ITEM_PRICE entity of every line is a round digit string, as after the filters. */
  predicate PricesFiltered(lines: seq<seq<Entity>>) {
    forall i, k :: 0 <= i < |lines| && 0 <= k < |lines[i]| && lines[i][k].kind == "ITEM_PRICE" ==> RoundPrice(lines[i][k].text)
  }

  /** A price that passes the filter is a whole number of hundreds. */
  lemma RoundPriceIsHundreds(s: string)
    requires RoundPrice(s)
    ensures IntLiteral(s) && IntValue(s) >= 0 && IntValue(s) % 100 == 0
  {
    RoundPriceIsInteger(s);
    var b := BeforeFinalNewline(s);
    var n := |b|;
    assert b[..n - 1][..n - 2] == b[..n - 2];
    assert DigitsValue(b) == 10 * DigitsValue(b[..n - 1]) + DigitValue(b[n - 1]);
    assert DigitsValue(b[..n - 1]) == 10 * DigitsValue(b[..n - 2]) + DigitValue(b[n - 2]);
  }

  /** On filtered lines no pass raises, and every item it yields has a round, non-negative price. */
  lemma {:induction false} FilteredLineNeverRaises(lines: seq<seq<Entity>>, i: nat)
    requires i < |lines| && PricesFiltered(lines)
    ensures LineItem(lines, i).Success?
    ensures LineItem(lines, i).value.Some? ==> LineItem(lines, i).value.value.price >= 0 && LineItem(lines, i).value.value.price % 100 == 0
  {
    var price := LastAt(lines[i], "ITEM_PRICE");
    if price.Some? {
      RoundPriceIsHundreds(lines[i][price.value].text);
    }
    if i + 1 < |lines| {
      var next := FirstAt(lines[i + 1], "ITEM_PRICE");
      if next.Some? {
        RoundPriceIsHundreds(lines[i + 1][next.value].text);
      }
    }
  }

  /** After the filters the item loop never raises, and every price it reports is a whole number of hundreds. */
  lemma FilteredItemsNeverRaise(lines: seq<seq<Entity>>)
    requires PricesFiltered(lines)
    ensures FindItems(lines).Success?
    ensures forall m :: 0 <= m < |FindItems(lines).value| ==> FindItems(lines).value[m].price >= 0 && FindItems(lines).value[m].price % 100 == 0
  {
    forall k | 0 <= k < |lines|
      ensures LineItem(lines, k).Success?
    {
      FilteredLineNeverRaises(lines, k);
    }
    var items := FindItems(lines).value;
    forall m | 0 <= m < |items|
      ensures items[m].price >= 0 && items[m].price % 100 == 0
    {
      var k := Positions(FoundFlags(LineItems(lines)), 0)[m];
      FilteredLineNeverRaises(lines, k);
    }
  }

  /** `filter_item_prices` then `filter_item_names` on every line. */
  function FilterLines(ner: seq<seq<Entity>>): (r: seq<seq<Entity>>)
    ensures |r| == |ner| && forall k :: 0 <= k < |ner| ==> r[k] == FilterLine(ner[k])
    ensures PricesFiltered(r)
  {
    seq(|ner|, k requires 0 <= k < |ner| => FilterLine(ner[k]))
  }

  // ----------------------------------------------------------- address

  /** Some entity of the line has a label containing "ADDRESS". */
  predicate HasAddressEntity(entities: seq<Entity>) {
    exists k :: 0 <= k < |entities| && Contains(entities[k].kind, "ADDRESS")
  }

  function AddressFlags(lines: seq<seq<Entity>>): (r: seq<bool>)
    ensures |r| == |lines| && forall k :: 0 <= k < |lines| ==> r[k] == HasAddressEntity(lines[k])
  {
    seq(|lines|, k requires 0 <= k < |lines| => HasAddressEntity(lines[k]))
  }

  /**
   * The address `process_receipt` reports: the text of the FIRST entity of
   * the first line holding an ADDRESS-like label, whatever that entity's
   * own label is; None (the IndexError caught) when no line holds one.
   */
  function AddressOf(lines: seq<seq<Entity>>): (r: Option<string>)
    ensures r.None? <==> forall k :: 0 <= k < |lines| ==> !HasAddressEntity(lines[k])
    ensures forall k :: (0 <= k < |lines| && HasAddressEntity(lines[k]) && (forall j :: 0 <= j < k ==> !HasAddressEntity(lines[j]))
      ==> |lines[k]| > 0 && r == Some(lines[k][0].text))
  {
    var flags := AddressFlags(lines);
    match FirstTrue(flags)
    case None => None
    case Some(k) =>
      assert HasAddressEntity(lines[k]);
      Some(lines[k][0].text)
  }

  // ----------------------------------------------------------- receipt

  /** The dictionary `process_receipt` returns. */
  datatype Receipt = Receipt(total: int, date: string, address: Option<string>, items: seq<Item>)

  /**
   * `process_receipt(text)`, with `ner` the entities the recogniser found
   * on each line and `now` the clock. After the filters no price can make
   * `int()` raise, so the result is always a receipt.
   */
  function ProcessReceipt(text: string, ner: seq<seq<Entity>>, now: DateTime): (r: Receipt)
    requires Valid(now.date)
    ensures r.total == TotalOf(ReplaceChar(text, '\n', ' '))
    ensures r.date == DateOf(ReplaceChar(text, '\n', ' '), now)
    ensures r.address == AddressOf(FilterLines(ner))
    ensures Success(r.items) == FindItems(FilterLines(ner))
    ensures forall m :: 0 <= m < |r.items| ==> r.items[m].price >= 0 && r.items[m].price % 100 == 0
  {
    var lines := FilterLines(ner);
    var inline := Join(" ", SplitOn(text, '\n'));
    JoinSplitOnReplaces(text, '\n', ' ');
    FilteredItemsNeverRaise(lines);
    Receipt(TotalOf(inline), DateOf(inline, now), AddressOf(lines), FindItems(lines).value)
  }
}
