/**
 * The newest receipt rule engine (the `picscan` application's
 * `ReceiptProcessor`). It takes the OCR text and the classifier's label per
 * token and produces `{total, date, address, items}`.
 *
 * The classifier itself is not modelled: its predictions arrive as a label
 * sequence. Dates are read as `DateParsing` describes.
 */
module PicscanReceipt {
  import opened Wrappers
  import opened Text
  import opened Numbers
  import opened Labels
  import opened Calendar
  import opened DateParsing
  import opened Seqs

  /** Words that are never part of an item name. */
  const SkipItems: set<string> :=
    {"PCS", "TOTAL", "PPN", "KEMBALI", "NO", "KM", "PEMBAYARAN", "HARGA", "LAYANAN", "KONSUMEN"}

  /** Street markers: an item line containing one is really an address line. */
  const AddressIndicators: set<string> := {"JL", "JALAN", "J1"}

  /** Administrative-area markers that end an address block. */
  const SkipAddress: set<string> := {"KEC", "KAB"}

  /**
   * `_is_valid_price`: the word ends in "00" and `float()` accepts it; so
   * every integer word ending in "00" is one.
   */
  function IsValidPrice(word: string): (v: bool)
    ensures v ==> |word| >= 2 && word[|word| - 2] == '0' && word[|word| - 1] == '0'
    ensures IntLiteral(word) && EndsWith(word, "00") ==> v
  {
    IntLiteralImpliesFloatLiteral(word);
    EndsWith(word, "00") && FloatLiteral(word)
  }

  /** Every string of digits ending in "00" is a valid price. */
  lemma DigitPriceIsValid(word: string)
    requires AllDigits(word) && EndsWith(word, "00")
    ensures IsValidPrice(word)
  {
    DigitStringIsNumeric(word);
  }

  // ---------------------------------------------------------------- total

  predicate IsTotalWord(word: string) {
    Contains(word, "TOTAL")
  }

  /** Position of the last word containing "TOTAL". */
  function LastTotalIndex(words: seq<string>): (r: Option<nat>)
    ensures r.Some? ==> r.value < |words| && IsTotalWord(words[r.value])
    ensures r.Some? ==> forall j :: r.value < j < |words| ==> !IsTotalWord(words[j])
    ensures r.None? ==> forall j :: 0 <= j < |words| ==> !IsTotalWord(words[j])
  {
    if |words| == 0 then None
    else if IsTotalWord(words[|words| - 1]) then Some(|words| - 1)
    else LastTotalIndex(words[..|words| - 1])
  }

  /** Position of the first word at or after `from` that contains a digit. */
  function FirstDigitWord(words: seq<string>, from: nat): (r: Option<nat>)
    ensures r.Some? ==> from <= r.value < |words| && HasDigit(words[r.value])
    ensures r.Some? ==> forall j :: from <= j < r.value ==> !HasDigit(words[j])
    ensures r.None? ==> forall j :: from <= j < |words| ==> !HasDigit(words[j])
    decreases |words| - from
  {
    if from >= |words| then None
    else if HasDigit(words[from]) then Some(from)
    else FirstDigitWord(words, from + 1)
  }

  /** The digit run `re.search(r"\d+", word)` finds, read as an integer. */
  function LeadingRunValue(word: string): nat
    requires HasDigit(word)
  {
    DigitsValue(FirstDigitRun(word).value)
  }

  /** Word `t` is the last word containing "TOTAL". */
  predicate LastTotalAt(words: seq<string>, t: nat) {
    t < |words| && IsTotalWord(words[t]) && forall j :: t < j < |words| ==> !IsTotalWord(words[j])
  }

  /** Word `k` is the first word after `t` that holds a digit. */
  predicate FirstDigitAfter(words: seq<string>, t: nat, k: nat) {
    t < k < |words| && HasDigit(words[k]) && forall j :: t < j < k ==> !HasDigit(words[j])
  }

  /** No word after `t` holds a digit. */
  predicate NoDigitAfter(words: seq<string>, t: nat) {
    forall j :: t < j < |words| ==> !HasDigit(words[j])
  }

  /**
   * `get_total_entities` on the whitespace-split words: after the LAST word
   * containing "TOTAL", the first digit run of the first word holding a digit.
   */
  function TotalOfWords(words: seq<string>): (r: nat)
    ensures (forall j :: 0 <= j < |words| ==> !IsTotalWord(words[j])) ==> r == 0
    ensures forall t: nat, k: nat :: LastTotalAt(words, t) && FirstDigitAfter(words, t, k) ==> r == LeadingRunValue(words[k])
    ensures forall t: nat :: LastTotalAt(words, t) && NoDigitAfter(words, t) ==> r == 0
  {
    match LastTotalIndex(words)
    case None => 0
    case Some(t) =>
      match FirstDigitWord(words, t + 1)
      case None => 0
      case Some(k) => LeadingRunValue(words[k])
  }

  /**
   * `get_total_entities(text)`: 0 when no whitespace-separated word contains
   * "TOTAL"; otherwise read from the first word holding a digit after the
   * last such word, or 0 when none holds one.
   */
  function TotalOf(text: string): (r: nat)
    ensures (forall j :: 0 <= j < |Split(text)| ==> !IsTotalWord(Split(text)[j])) ==> r == 0
    ensures forall t: nat, k: nat :: LastTotalAt(Split(text), t) && FirstDigitAfter(Split(text), t, k)
              ==> r == LeadingRunValue(Split(text)[k])
    ensures forall t: nat :: LastTotalAt(Split(text), t) && NoDigitAfter(Split(text), t) ==> r == 0
  {
    TotalOfWords(Split(text))
  }

  // ---------------------------------------------------- token corrections

  /**
   * One iteration of `correct_labels`: an invalid price is demoted; an item
   * name is demoted when it is boilerplate or starts with a digit and
   * promoted to a price when it is one; any other label becomes O on a
   * quantity word such as "2X".
   */
  function CorrectLabel(word: string, tag: Label): (r: Label)
    requires tag == ItemName ==> |word| > 0
    ensures r == tag || r == O || (tag == ItemName && r == Price)
    ensures r == Price ==> IsValidPrice(word)
    ensures tag == Price ==> (r == O <==> !IsValidPrice(word))
    ensures tag == ItemName ==> (r == O <==> word in SkipItems || IsDigit(word[0]))
    ensures tag == ItemName && r != O ==> (r == Price <==> IsValidPrice(word))
    ensures tag != Price && tag != ItemName ==> (r == O <==> tag == O || QuantityWord(word, false))
  {
    if tag == Price && !IsValidPrice(word) then O
    else if tag == ItemName then
      if word in SkipItems || IsDigit(word[0]) then O
      else if IsValidPrice(word) then Price
      else ItemName
    else if QuantityWord(word, false) then O
    else tag
  }

  /** Labels whose item-name positions hold non-empty words, as `correct_labels` needs. */
  predicate ItemWordsNonEmpty(words: seq<string>, labels: seq<Label>) {
    forall i :: 0 <= i < |words| && i < |labels| && labels[i] == ItemName ==> |words[i]| > 0
  }

  /**
   * `correct_labels`: a new list as long as `labels`; every position paired
   * with a word is corrected on its own, the rest are copied.
   */
  function CorrectLabels(words: seq<string>, labels: seq<Label>): (r: seq<Label>)
    requires ItemWordsNonEmpty(words, labels)
    ensures |r| == |labels|
    ensures forall i :: 0 <= i < |labels| ==>
      r[i] == (if i < |words| then CorrectLabel(words[i], labels[i]) else labels[i])
    decreases |labels|
  {
    if |labels| == 0 then []
    else if |words| == 0 then labels
    else [CorrectLabel(words[0], labels[0])] + CorrectLabels(words[1..], labels[1..])
  }

  /** Correcting a corrected label changes nothing. */
  lemma CorrectLabelIdempotent(word: string, tag: Label)
    requires tag == ItemName ==> |word| > 0
    ensures CorrectLabel(word, CorrectLabel(word, tag)) == CorrectLabel(word, tag)
  {
    var once := CorrectLabel(word, tag);
    if once == Price {
      assert word[|word| - 1] == '0';
    }
  }

  /** The token-correction pass is idempotent. */
  lemma {:induction false} CorrectLabelsIdempotent(words: seq<string>, labels: seq<Label>)
    requires ItemWordsNonEmpty(words, labels)
    ensures ItemWordsNonEmpty(words, CorrectLabels(words, labels))
    ensures CorrectLabels(words, CorrectLabels(words, labels)) == CorrectLabels(words, labels)
  {
    var once := CorrectLabels(words, labels);
    forall i | 0 <= i < |words| && i < |once|
      ensures CorrectLabel(words[i], once[i]) == once[i]
    {
      CorrectLabelIdempotent(words[i], labels[i]);
    }
  }

  /** `any(word in vocabulary for word in words)`. */
  predicate AnyIn(words: seq<string>, vocabulary: set<string>) {
    exists i :: 0 <= i < |words| && words[i] in vocabulary
  }

  /**
   * `correct_address_labels`, rules in priority order: an item line with a
   * street marker becomes an address line; a line with an address or item
   * label and an administrative marker is blanked; any other line with an
   * address label becomes wholly address; otherwise nothing changes.
   */
  function CorrectAddressLabels(words: seq<string>, labels: seq<Label>): (r: seq<Label>)
    ensures r == labels || r == Repeat(Address, |words|) || r == Repeat(O, |words|)
    ensures Address in r ==> Uniform(r, Address)
    ensures ItemName in labels && AnyIn(words, AddressIndicators) ==> r == Repeat(Address, |words|)
    ensures !(ItemName in labels && AnyIn(words, AddressIndicators))
      && (Address in labels || ItemName in labels) && AnyIn(words, SkipAddress)
      ==> r == Repeat(O, |words|)
    ensures (!(ItemName in labels && AnyIn(words, AddressIndicators)) && !AnyIn(words, SkipAddress)
      && Address in labels) ==> r == Repeat(Address, |words|)
    ensures Address !in labels && ItemName !in labels ==> r == labels
    ensures Address !in labels && !AnyIn(words, AddressIndicators) && !AnyIn(words, SkipAddress) ==> r == labels
  {
    if ItemName in labels && AnyIn(words, AddressIndicators) then Repeat(Address, |words|)
    else if (Address in labels || ItemName in labels) && AnyIn(words, SkipAddress) then Repeat(O, |words|)
    else if Address in labels then Repeat(Address, |words|)
    else labels
  }

  // ----------------------------------------------------------------- items

  datatype Item = Item(name: string, price: int)

  /** The ValueError `int(word)` raises. */
  datatype Fault = NotAnInteger(word: string)

  /** The words of `zip(words, labels)` carrying `tag`, in order. */
  function Tagged(words: seq<string>, labels: seq<Label>, tag: Label): (r: seq<string>)
    ensures |r| <= |words|
    ensures forall k :: 0 <= k < |r| ==> r[k] in words
    ensures |r| == 0 <==> forall i :: 0 <= i < |words| && i < |labels| ==> labels[i] != tag
    decreases |words|
  {
    if |words| == 0 || |labels| == 0 then []
    else
      var rest := Tagged(words[1..], labels[1..], tag);
      assert forall i :: 1 <= i < |words| && i < |labels| ==> words[1..][i - 1] == words[i] && labels[1..][i - 1] == labels[i];
      if labels[0] == tag then [words[0]] + rest else rest
  }

  /** The words labelled PRICE that are valid prices, in order. */
  function PriceWords(words: seq<string>, labels: seq<Label>): (r: seq<string>)
    ensures forall k :: 0 <= k < |r| ==> IsValidPrice(r[k]) && r[k] in words
    decreases |words|
  {
    if |words| == 0 || |labels| == 0 then []
    else
      var rest := PriceWords(words[1..], labels[1..]);
      if labels[0] == Price && IsValidPrice(words[0]) then [words[0]] + rest else rest
  }

  /** `words[k]` is the first word `int()` rejects. */
  ghost predicate FirstRejected(words: seq<string>, k: int) {
    0 <= k < |words| && !IntLiteral(words[k]) && forall j :: 0 <= j < k ==> IntLiteral(words[j])
  }

  /** After a word `int()` accepts, the first rejected word of the rest is the first rejected word. */
  lemma RejectedLater(words: seq<string>, e: Fault)
    requires |words| > 0 && IntLiteral(words[0])
    requires exists k :: FirstRejected(words[1..], k) && e == NotAnInteger(words[1..][k])
    ensures exists k :: FirstRejected(words, k) && e == NotAnInteger(words[k])
  {
    var k :| FirstRejected(words[1..], k) && e == NotAnInteger(words[1..][k]);
    assert forall j :: 0 < j <= k ==> words[j] == words[1..][j - 1];
    assert FirstRejected(words, k + 1);
  }

  /** `[int(w) for w in words]`: raises at the first word `int()` rejects. */
  function IntAll(words: seq<string>): (r: Result<seq<int>, Fault>)
    ensures r.Success? <==> forall k :: 0 <= k < |words| ==> IntLiteral(words[k])
    ensures r.Success? ==> |r.value| == |words| && forall k :: 0 <= k < |words| ==> r.value[k] == IntValue(words[k])
    ensures r.Failure? ==> r.error.word in words && !IntLiteral(r.error.word)
    ensures r.Failure? ==> exists k :: FirstRejected(words, k) && r.error == NotAnInteger(words[k])
  {
    if |words| == 0 then Success([])
    else if !IntLiteral(words[0]) then Failure(NotAnInteger(words[0]))
    else
      match IntAll(words[1..])
      case Failure(e) =>
        RejectedLater(words, e);
        Failure(e)
      case Success(rest) =>
        assert forall k :: 1 <= k < |words| ==> words[k] == words[1..][k - 1];
        Success([IntValue(words[0])] + rest)
  }

  /**
   * The last of a line's prices, or None; fails, at the first valid price
   * word `int()` rejects, exactly when there is one.
   */
  function LinePrice(words: seq<string>, labels: seq<Label>): (r: Result<Option<int>, Fault>)
    ensures r.Failure? <==> !PricesAreIntegers(words, labels)
    ensures r.Failure? ==> exists k :: FirstRejected(PriceWords(words, labels), k) && r.error == NotAnInteger(PriceWords(words, labels)[k])
    ensures PriceWords(words, labels) == [] ==> r == Success(None)
    ensures PriceWords(words, labels) != [] && PricesAreIntegers(words, labels) ==>
      r == Success(Some(LastPriceValue(words, labels)))
  {
    var ps := PriceWords(words, labels);
    assert PricesAreIntegers(words, labels) <==> forall k :: 0 <= k < |ps| ==> IntLiteral(ps[k]);
    match IntAll(ps)
    case Failure(e) => Failure(e)
    case Success(prices) => Success(if |prices| == 0 then None else Some(prices[|prices| - 1]))
  }

  /** `int()` succeeds on every valid price word of the line. */
  predicate PricesAreIntegers(words: seq<string>, labels: seq<Label>) {
    forall w :: w in PriceWords(words, labels) ==> IntLiteral(w)
  }

  /** The value of the last valid price word of a line whose price words are integers. */
  function LastPriceValue(words: seq<string>, labels: seq<Label>): int
    requires PriceWords(words, labels) != []
    requires PricesAreIntegers(words, labels)
  {
    var ps := PriceWords(words, labels);
    IntValue(ps[|ps| - 1])
  }

  /**
   * `extract_items` for line `idx`: the item name joins the words labelled
   * ITEM_NAME; the price is the last valid price of this line, or else of
   * the next line. None when there is no name or no price.
   */
  function ExtractItems(lines: seq<string>, labelLines: seq<seq<Label>>, idx: nat): (r: Result<Option<Item>, Fault>)
    requires |lines| == |labelLines| && idx < |lines|
    ensures Tagged(Split(lines[idx]), labelLines[idx], ItemName) == [] ==> r == Success(None)
    ensures r.Success? && r.value.Some? ==>
      r.value.value.name == Join(" ", Tagged(Split(lines[idx]), labelLines[idx], ItemName)) && r.value.value.name != ""
    ensures r.Success? && r.value.Some? && PriceWords(Split(lines[idx]), labelLines[idx]) != [] ==>
      PricesAreIntegers(Split(lines[idx]), labelLines[idx])
      && r.value.value.price == LastPriceValue(Split(lines[idx]), labelLines[idx])
    ensures r.Success? && r.value.Some? && PriceWords(Split(lines[idx]), labelLines[idx]) == [] ==>
      && idx + 1 < |lines|
      && PriceWords(Split(lines[idx + 1]), labelLines[idx + 1]) != []
      && PricesAreIntegers(Split(lines[idx + 1]), labelLines[idx + 1])
      && r.value.value.price == LastPriceValue(Split(lines[idx + 1]), labelLines[idx + 1])
    ensures r.Failure? ==>
      (|| !PricesAreIntegers(Split(lines[idx]), labelLines[idx])
       || (PriceWords(Split(lines[idx]), labelLines[idx]) == [] && idx + 1 < |lines|
           && !PricesAreIntegers(Split(lines[idx + 1]), labelLines[idx + 1])))
    ensures ItemLine(lines, labelLines, idx) && !PricesAreIntegers(Split(lines[idx]), labelLines[idx]) ==> r.Failure?
    ensures (&& ItemLine(lines, labelLines, idx)
             && PriceWords(Split(lines[idx]), labelLines[idx]) != [] && PricesAreIntegers(Split(lines[idx]), labelLines[idx]))
      ==> r == Success(Some(Item(ItemNameOf(lines, labelLines, idx), LastPriceValue(Split(lines[idx]), labelLines[idx]))))
    ensures (&& ItemLine(lines, labelLines, idx) && PriceWords(Split(lines[idx]), labelLines[idx]) == [] && idx + 1 < |lines|
             && !PricesAreIntegers(Split(lines[idx + 1]), labelLines[idx + 1]))
      ==> r.Failure?
    ensures (&& ItemLine(lines, labelLines, idx) && PriceWords(Split(lines[idx]), labelLines[idx]) == [] && idx + 1 < |lines|
             && PriceWords(Split(lines[idx + 1]), labelLines[idx + 1]) != [] && PricesAreIntegers(Split(lines[idx + 1]), labelLines[idx + 1]))
      ==> r == Success(Some(Item(ItemNameOf(lines, labelLines, idx), LastPriceValue(Split(lines[idx + 1]), labelLines[idx + 1]))))
    ensures (&& ItemLine(lines, labelLines, idx) && PriceWords(Split(lines[idx]), labelLines[idx]) == []
             && (idx + 1 >= |lines| || PriceWords(Split(lines[idx + 1]), labelLines[idx + 1]) == []))
      ==> r == Success(None)
  {
    var words := Split(lines[idx]);
    var names := Tagged(words, labelLines[idx], ItemName);
    var name := Join(" ", names);
    if names == [] then Success(None)
    else
      assert name != "" by { JoinOfNonEmptyIsNonEmpty(names); }
      match LinePrice(words, labelLines[idx])
      case Failure(e) => Failure(e)
      case Success(Some(p)) => Success(Some(Item(name, p)))
      case Success(None) =>
        if idx + 1 >= |lines| then Success(None)
        else
          match LinePrice(Split(lines[idx + 1]), labelLines[idx + 1])
          case Failure(e) => Failure(e)
          case Success(Some(p)) => Success(Some(Item(name, p)))
          case Success(None) => Success(None)
  }

  /** Line `idx` holds a word labelled ITEM_NAME, so `item_name` is truthy. */
  predicate ItemLine(lines: seq<string>, labelLines: seq<seq<Label>>, idx: nat)
    requires |lines| == |labelLines| && idx < |lines|
  {
    Tagged(Split(lines[idx]), labelLines[idx], ItemName) != []
  }

  /** `item_name`: the words of line `idx` labelled ITEM_NAME, joined by spaces. */
  function ItemNameOf(lines: seq<string>, labelLines: seq<seq<Label>>, idx: nat): string
    requires |lines| == |labelLines| && idx < |lines|
  {
    Join(" ", Tagged(Split(lines[idx]), labelLines[idx], ItemName))
  }

  /** Joining words of which the first is non-empty gives a non-empty string. */
  lemma JoinOfNonEmptyIsNonEmpty(words: seq<string>)
    requires |words| > 0 && |words[0]| > 0
    ensures Join(" ", words) != ""
  {
  }

  /** A word that `float()` reads but `int()` rejects makes `extract_items` raise. */
  lemma {:induction false} NonIntegerPriceRaises(lines: seq<string>, labelLines: seq<seq<Label>>, idx: nat)
    requires |lines| == |labelLines| && idx < |lines|
    requires Tagged(Split(lines[idx]), labelLines[idx], ItemName) != []
    requires !PricesAreIntegers(Split(lines[idx]), labelLines[idx])
    ensures ExtractItems(lines, labelLines, idx).Failure?
  {
    var ps := PriceWords(Split(lines[idx]), labelLines[idx]);
    var w :| w in ps && !IntLiteral(w);
    assert IntAll(ps).Failure?;
  }

  /** "25.000", the usual way of writing twenty-five thousand rupiah, is a valid price that `int()` rejects. */
  lemma DottedThousandsIsValidPrice()
    ensures IsValidPrice("25.000") && !IntLiteral("25.000")
  {
  }

  /** An item line priced "25.000" makes the as-written `extract_items` raise. */
  lemma DottedPriceLineRaises()
    ensures ExtractItems(["KOPI 25.000"], [[ItemName, Price]], 0).Failure?
  {
    DottedLineWords();
    DottedLineTags();
    NonIntegerPriceRaises(["KOPI 25.000"], [[ItemName, Price]], 0);
  }

  /** An item line with no price, followed by a line priced "25.000", also makes `extract_items` raise. */
  lemma DottedNextLinePriceRaises()
    ensures ExtractItems(["KOPI", "25.000"], [[ItemName], [Price]], 0).Failure?
  {
    SplitSingleWord("KOPI");
    SplitSingleWord("25.000");
    DottedThousandsIsValidPrice();
    assert PriceWords(["25.000"], [Price]) == ["25.000"];
    assert PriceWords(["KOPI"], [ItemName]) == [];
    assert Tagged(["KOPI"], [ItemName], ItemName) == ["KOPI"];
  }

  /** A word without whitespace splits into itself. */
  lemma SplitSingleWord(w: string)
    requires |w| > 0 && NoSpace(w)
    ensures Split(w) == [w]
  {
    SplitJoinRoundTrip([w]);
    assert Join(" ", [w]) == w;
  }

  /** The words of the dotted price line. */
  lemma DottedLineWords()
    ensures Split("KOPI 25.000") == ["KOPI", "25.000"]
  {
    var words := ["KOPI", "25.000"];
    assert NoSpace("KOPI") && NoSpace("25.000");
    SplitJoinRoundTrip(words);
    assert Join(" ", words) == "KOPI 25.000";
  }

  /** On the dotted price line, "KOPI" is the item name and "25.000" the one price word, which `int()` rejects. */
  lemma DottedLineTags()
    ensures Tagged(["KOPI", "25.000"], [ItemName, Price], ItemName) == ["KOPI"]
    ensures !PricesAreIntegers(["KOPI", "25.000"], [ItemName, Price])
  {
    DottedThousandsIsValidPrice();
    assert PriceWords(["25.000"], [Price]) == ["25.000"];
    assert PriceWords(["KOPI", "25.000"], [ItemName, Price]) == ["25.000"];
  }

  /** The valid price words that `int()` also accepts. */
  function IntegerPriceWords(words: seq<string>, labels: seq<Label>): (r: seq<string>)
    ensures forall k :: 0 <= k < |r| ==> IsValidPrice(r[k]) && IntLiteral(r[k])
  {
    var ps := PriceWords(words, labels);
    FilterIntegers(ps)
  }

  function FilterIntegers(ws: seq<string>): (r: seq<string>)
    ensures forall k :: 0 <= k < |r| ==> IntLiteral(r[k]) && r[k] in ws
    ensures (forall k :: 0 <= k < |ws| ==> IntLiteral(ws[k])) ==> r == ws
  {
    if |ws| == 0 then []
    else
      var rest := FilterIntegers(ws[1..]);
      assert forall k :: 1 <= k < |ws| ==> ws[1..][k - 1] == ws[k];
      assert ws == [ws[0]] + ws[1..];
      if IntLiteral(ws[0]) then [ws[0]] + rest else rest
  }

  /**
   * `Tagged` is a filter over the pairs of a line: nothing from the empty
   * line, a lone pair's word exactly when it carries the tag, and a line
   * cut in two (at a point both sequences share) gives the two parts' words
   * one after the other.
   */
  lemma {:induction false} TaggedSplits(ws: seq<string>, ls: seq<Label>, vs: seq<string>, ms: seq<Label>, w: string, l: Label, tag: Label)
    requires |ws| == |ls|
    ensures Tagged([], [], tag) == []
    ensures Tagged([w], [l], tag) == if l == tag then [w] else []
    ensures Tagged(ws + vs, ls + ms, tag) == Tagged(ws, ls, tag) + Tagged(vs, ms, tag)
    decreases |ws|
  {
    assert [w][1..] == [] && [l][1..] == [];
    if |ws| > 0 {
      assert (ws + vs)[1..] == ws[1..] + vs;
      assert (ls + ms)[1..] == ls[1..] + ms;
      TaggedSplits(ws[1..], ls[1..], vs, ms, w, l, tag);
    } else {
      assert ws + vs == vs && ls + ms == ms;
    }
  }

  /** `PriceWords` splits the same way: a lone pair gives its word exactly when it is a PRICE word that is a valid price. */
  lemma {:induction false} PriceWordsSplits(ws: seq<string>, ls: seq<Label>, vs: seq<string>, ms: seq<Label>, w: string, l: Label)
    requires |ws| == |ls|
    ensures PriceWords([], []) == []
    ensures PriceWords([w], [l]) == if l == Price && IsValidPrice(w) then [w] else []
    ensures PriceWords(ws + vs, ls + ms) == PriceWords(ws, ls) + PriceWords(vs, ms)
    decreases |ws|
  {
    assert [w][1..] == [] && [l][1..] == [];
    if |ws| > 0 {
      assert (ws + vs)[1..] == ws[1..] + vs;
      assert (ls + ms)[1..] == ls[1..] + ms;
      PriceWordsSplits(ws[1..], ls[1..], vs, ms, w, l);
    } else {
      assert ws + vs == vs && ls + ms == ms;
    }
  }

  /** `FilterIntegers` keeps a lone word exactly when `int()` accepts it, and splits over concatenation. */
  lemma {:induction false} FilterIntegersSplits(a: seq<string>, b: seq<string>, w: string)
    ensures FilterIntegers([]) == []
    ensures FilterIntegers([w]) == if IntLiteral(w) then [w] else []
    ensures FilterIntegers(a + b) == FilterIntegers(a) + FilterIntegers(b)
    decreases |a|
  {
    assert [w][1..] == [];
    if |a| > 0 {
      assert (a + b)[1..] == a[1..] + b;
      FilterIntegersSplits(a[1..], b, w);
    } else {
      assert a + b == b;
    }
  }

  /** Hence `IntegerPriceWords` splits over a line cut in two, a lone pair giving its word exactly when it is a valid integer price. */
  lemma IntegerPriceWordsSplits(ws: seq<string>, ls: seq<Label>, vs: seq<string>, ms: seq<Label>, w: string, l: Label)
    requires |ws| == |ls|
    ensures IntegerPriceWords([w], [l]) == if l == Price && IsValidPrice(w) && IntLiteral(w) then [w] else []
    ensures IntegerPriceWords(ws + vs, ls + ms) == IntegerPriceWords(ws, ls) + IntegerPriceWords(vs, ms)
  {
    PriceWordsSplits(ws, ls, vs, ms, w, l);
    FilterIntegersSplits(PriceWords(ws, ls), PriceWords(vs, ms), w);
    FilterIntegersSplits([], [], w);
  }

  /**
   * `extract_items` as evidently intended: price candidates are the valid
   * prices `int()` accepts, as in the older engine, so the call never raises.
   */
  function ExtractItemsChecked(lines: seq<string>, labelLines: seq<seq<Label>>, idx: nat): (r: Option<Item>)
    requires |lines| == |labelLines| && idx < |lines|
    ensures r.Some? ==> r.value.name == Join(" ", Tagged(Split(lines[idx]), labelLines[idx], ItemName)) && r.value.name != ""
    ensures r.Some? ==> exists k :: (idx <= k < |lines| && k <= idx + 1
      && r.value.price in IntegerValues(IntegerPriceWords(Split(lines[k]), labelLines[k])))
    ensures r.None? ==> (|| Tagged(Split(lines[idx]), labelLines[idx], ItemName) == []
                         || (IntegerPriceWords(Split(lines[idx]), labelLines[idx]) == []
                             && (idx + 1 >= |lines| || IntegerPriceWords(Split(lines[idx + 1]), labelLines[idx + 1]) == [])))
    ensures ItemLine(lines, labelLines, idx) && IntegerPriceWords(Split(lines[idx]), labelLines[idx]) != [] ==>
      r == Some(Item(ItemNameOf(lines, labelLines, idx), LastIntegerPrice(Split(lines[idx]), labelLines[idx])))
    ensures ItemLine(lines, labelLines, idx) && IntegerPriceWords(Split(lines[idx]), labelLines[idx]) == [] && idx + 1 < |lines|
            && IntegerPriceWords(Split(lines[idx + 1]), labelLines[idx + 1]) != [] ==>
      r == Some(Item(ItemNameOf(lines, labelLines, idx), LastIntegerPrice(Split(lines[idx + 1]), labelLines[idx + 1])))
  {
    var names := Tagged(Split(lines[idx]), labelLines[idx], ItemName);
    if names == [] then None
    else
      JoinOfNonEmptyIsNonEmpty(names);
      var here := IntegerPriceWords(Split(lines[idx]), labelLines[idx]);
      if here != [] then Some(Item(Join(" ", names), IntValue(here[|here| - 1])))
      else if idx + 1 < |lines| && IntegerPriceWords(Split(lines[idx + 1]), labelLines[idx + 1]) != [] then
        var next := IntegerPriceWords(Split(lines[idx + 1]), labelLines[idx + 1]);
        Some(Item(Join(" ", names), IntValue(next[|next| - 1])))
      else None
  }

  /** The value of the last valid price word of a line that `int()` accepts. */
  function LastIntegerPrice(words: seq<string>, labels: seq<Label>): int
    requires IntegerPriceWords(words, labels) != []
  {
    var ws := IntegerPriceWords(words, labels);
    IntValue(ws[|ws| - 1])
  }

  function IntegerValues(ws: seq<string>): (r: seq<int>)
    requires forall k :: 0 <= k < |ws| ==> IntLiteral(ws[k])
    ensures |r| == |ws| && forall k :: 0 <= k < |ws| ==> r[k] == IntValue(ws[k])
  {
    if |ws| == 0 then [] else [IntValue(ws[0])] + IntegerValues(ws[1..])
  }

  /** On a line whose price words all convert, the checked price words are all of them, with the same values. */
  lemma LinePriceAgrees(words: seq<string>, labels: seq<Label>)
    requires LinePrice(words, labels).Success?
    ensures IntegerPriceWords(words, labels) == PriceWords(words, labels)
    ensures var ps := PriceWords(words, labels);
      LinePrice(words, labels).value == (if ps == [] then None else Some(IntValue(ps[|ps| - 1])))
  {
    var ps := PriceWords(words, labels);
    assert PricesAreIntegers(words, labels);
    forall k | 0 <= k < |ps| ensures IntLiteral(ps[k]) {
      assert ps[k] in ps;
    }
    assert FilterIntegers(ps) == ps;
  }

  /** Wherever the as-written `extract_items` returns, the corrected one returns the same. */
  lemma CheckedAgreesWhenNoRaise(lines: seq<string>, labelLines: seq<seq<Label>>, idx: nat)
    requires |lines| == |labelLines| && idx < |lines|
    requires ExtractItems(lines, labelLines, idx).Success?
    ensures ExtractItemsChecked(lines, labelLines, idx) == ExtractItems(lines, labelLines, idx).value
  {
    var words, labels := Split(lines[idx]), labelLines[idx];
    if Tagged(words, labels, ItemName) != [] {
      assert LinePrice(words, labels).Success?;
      if PriceWords(words, labels) != [] {
        AgreesOnPricedLine(lines, labelLines, idx);
      } else {
        AgreesOnUnpricedLine(lines, labelLines, idx);
      }
    }
  }

  /** `CheckedAgreesWhenNoRaise` for an item line that carries its own price. */
  lemma AgreesOnPricedLine(lines: seq<string>, labelLines: seq<seq<Label>>, idx: nat)
    requires |lines| == |labelLines| && idx < |lines|
    requires Tagged(Split(lines[idx]), labelLines[idx], ItemName) != []
    requires LinePrice(Split(lines[idx]), labelLines[idx]).Success?
    requires PriceWords(Split(lines[idx]), labelLines[idx]) != []
    ensures ExtractItems(lines, labelLines, idx).Success?
    ensures ExtractItemsChecked(lines, labelLines, idx) == ExtractItems(lines, labelLines, idx).value
  {
    LinePriceAgrees(Split(lines[idx]), labelLines[idx]);
  }

  /** `CheckedAgreesWhenNoRaise` for an item line whose price, if any, is on the next line. */
  lemma AgreesOnUnpricedLine(lines: seq<string>, labelLines: seq<seq<Label>>, idx: nat)
    requires |lines| == |labelLines| && idx < |lines|
    requires Tagged(Split(lines[idx]), labelLines[idx], ItemName) != []
    requires LinePrice(Split(lines[idx]), labelLines[idx]).Success?
    requires PriceWords(Split(lines[idx]), labelLines[idx]) == []
    requires idx + 1 < |lines| ==> LinePrice(Split(lines[idx + 1]), labelLines[idx + 1]).Success?
    ensures ExtractItems(lines, labelLines, idx).Success?
    ensures ExtractItemsChecked(lines, labelLines, idx) == ExtractItems(lines, labelLines, idx).value
  {
    LinePriceAgrees(Split(lines[idx]), labelLines[idx]);
    if idx + 1 < |lines| {
      LinePriceAgrees(Split(lines[idx + 1]), labelLines[idx + 1]);
    }
  }

  // --------------------------------------------------------------- receipt

  /** A non-blank line of the text, its words, and the classifier's labels for them. */
  datatype Line = Line(text: string, words: seq<string>, labels: seq<Label>)

  predicate WellFormed(line: Line) {
    line.words == Split(line.text) && line.words != [] && |line.labels| <= |line.words|
  }

  /** `preds[from:from + n]`, clamped at the end like a Python slice. */
  function Window(preds: seq<Label>, from: nat, n: nat): (r: seq<Label>)
    ensures |r| <= n
    ensures from + n <= |preds| ==> r == preds[from..from + n]
    ensures from >= |preds| ==> r == []
  {
    if from >= |preds| then []
    else if from + n <= |preds| then preds[from..from + n]
    else preds[from..]
  }

  /** The first loop of `process_receipt`: blank lines are skipped, the others take consecutive predictions. */
  function PairLines(texts: seq<string>, preds: seq<Label>, tokenIndex: nat): (r: seq<Line>)
    ensures |r| <= |texts|
    ensures forall k :: 0 <= k < |r| ==> WellFormed(r[k])
  {
    if |texts| == 0 then []
    else
      var words := Split(texts[0]);
      var rest := PairLines(texts[1..], preds, tokenIndex + |words|);
      if words == [] then rest
      else [Line(texts[0], words, Window(preds, tokenIndex, |words|))] + rest
  }

  /** A line `split()` finds a word in. */
  predicate HasWord(text: string) {
    Split(text) != []
  }

  /** The paired texts are the lines with a word, in their order. */
  lemma {:induction false} PairLinesTexts(texts: seq<string>, preds: seq<Label>, tokenIndex: nat)
    ensures Texts(PairLines(texts, preds, tokenIndex)) == Filter(texts, HasWord)
    decreases |texts|
  {
    if |texts| > 0 {
      var words := Split(texts[0]);
      PairLinesTexts(texts[1..], preds, tokenIndex + |words|);
      PairLinesTextsStep(texts, preds, tokenIndex);
    }
  }

  /** One step of `PairLinesTexts`: the first line is paired exactly when it has a word. */
  lemma PairLinesTextsStep(texts: seq<string>, preds: seq<Label>, tokenIndex: nat)
    requires |texts| > 0
    requires Texts(PairLines(texts[1..], preds, tokenIndex + |Split(texts[0])|)) == Filter(texts[1..], HasWord)
    ensures Texts(PairLines(texts, preds, tokenIndex)) == Filter(texts, HasWord)
  {
    var words := Split(texts[0]);
    var rest := PairLines(texts[1..], preds, tokenIndex + |words|);
    if words != [] {
      var line := Line(texts[0], words, Window(preds, tokenIndex, |words|));
      assert PairLines(texts, preds, tokenIndex) == [line] + rest;
      TextsCons(line, rest);
      assert Filter(texts, HasWord) == [texts[0]] + Filter(texts[1..], HasWord);
    } else {
      assert PairLines(texts, preds, tokenIndex) == rest;
      assert Filter(texts, HasWord) == Filter(texts[1..], HasWord);
    }
  }

  lemma TextsCons(line: Line, rest: seq<Line>)
    ensures Texts([line] + rest) == [line.text] + Texts(rest)
  {
    assert ([line] + rest)[1..] == rest;
  }

  /** The paired lines are exactly the non-blank lines of the text. */
  lemma PairLinesKeepsNonBlank(texts: seq<string>, preds: seq<Label>, tokenIndex: nat)
    ensures forall t :: t in Texts(PairLines(texts, preds, tokenIndex)) <==> t in texts && Split(t) != []
  {
    PairLinesTexts(texts, preds, tokenIndex);
    var kept := Filter(texts, HasWord);
    forall t | t in texts && HasWord(t)
      ensures t in kept
    {
      var k :| 0 <= k < |texts| && texts[k] == t;
    }
  }

  /**
   * Blank lines are the only ones dropped: the first paired line is the
   * first line `k` with a word, and there is none only when every line is
   * blank.
   */
  lemma {:induction false} PairLinesFirst(texts: seq<string>, preds: seq<Label>, tokenIndex: nat, k: nat)
    requires k <= |texts| && forall j :: 0 <= j < k ==> Split(texts[j]) == []
    ensures k == |texts| ==> PairLines(texts, preds, tokenIndex) == []
    ensures k < |texts| && Split(texts[k]) != [] ==>
      (PairLines(texts, preds, tokenIndex) != [] && PairLines(texts, preds, tokenIndex)[0].text == texts[k])
  {
    if k > 0 {
      assert Split(texts[0]) == [];
      assert forall j :: 0 <= j < k - 1 ==> texts[1..][j] == texts[j + 1];
      PairLinesFirst(texts[1..], preds, tokenIndex, k - 1);
    }
  }

  /** The labels after both correction passes. */
  function Corrected(line: Line): seq<Label>
    requires WellFormed(line)
  {
    CorrectAddressLabels(line.words, CorrectLabels(line.words, line.labels))
  }

  function Texts(lines: seq<Line>): (r: seq<string>)
    ensures |r| == |lines| && forall k :: 0 <= k < |lines| ==> r[k] == lines[k].text
  {
    if |lines| == 0 then [] else [lines[0].text] + Texts(lines[1..])
  }

  function RawLabels(lines: seq<Line>): (r: seq<seq<Label>>)
    ensures |r| == |lines| && forall k :: 0 <= k < |lines| ==> r[k] == lines[k].labels
  {
    if |lines| == 0 then [] else [lines[0].labels] + RawLabels(lines[1..])
  }

  /** `extract_items` read at every line, whether or not the loop asks for it. */
  function LineReads(lines: seq<Line>): (r: seq<Result<Option<Item>, Fault>>)
    ensures |r| == |lines|
    ensures forall k :: 0 <= k < |lines| ==> r[k] == ExtractItems(Texts(lines), RawLabels(lines), k)
  {
    var texts := Texts(lines);
    var raw := RawLabels(lines);
    seq(|lines|, k requires 0 <= k < |lines| => ExtractItems(texts, raw, k))
  }

  /** Which lines' corrected labels contain ITEM_NAME. */
  function ItemFlags(lines: seq<Line>): (r: seq<bool>)
    requires forall k :: 0 <= k < |lines| ==> WellFormed(lines[k])
    ensures |r| == |lines| && forall k :: 0 <= k < |lines| ==> r[k] == (ItemName in Corrected(lines[k]))
  {
    seq(|lines|, k requires 0 <= k < |lines| => ItemName in Corrected(lines[k]))
  }

  /** What the loop sees at each line: the read where it calls `extract_items`, nothing elsewhere. */
  function Masked(outcomes: seq<Result<Option<Item>, Fault>>, wanted: seq<bool>): (r: seq<Result<Option<Item>, Fault>>)
    requires |outcomes| == |wanted|
    ensures |r| == |outcomes| && forall k :: 0 <= k < |r| ==> r[k] == if wanted[k] then outcomes[k] else Success(None)
  {
    seq(|outcomes|, k requires 0 <= k < |outcomes| => if wanted[k] then outcomes[k] else Success(None))
  }

  /** The wanted lines whose read yields an item. */
  function Hits(outcomes: seq<Result<Option<Item>, Fault>>, wanted: seq<bool>): (r: seq<bool>)
    requires |outcomes| == |wanted|
    ensures |r| == |outcomes| && forall k :: 0 <= k < |r| ==> r[k] == (wanted[k] && outcomes[k].Success? && outcomes[k].value.Some?)
  {
    seq(|outcomes|, k requires 0 <= k < |outcomes| => wanted[k] && outcomes[k].Success? && outcomes[k].value.Some?)
  }

  /**
   * The item loop from line `i` on, `outcomes[k]` being what `extract_items`
   * gives at line `k` and `wanted[k]` whether the loop calls it there. On
   * success it returns, in line order and one per line, exactly the items
   * of the wanted lines whose read yields one; it fails with the error of
   * the first wanted line whose read raises.
   */
  function ItemsFrom(outcomes: seq<Result<Option<Item>, Fault>>, wanted: seq<bool>, i: nat): (r: Result<seq<Item>, Fault>)
    requires |outcomes| == |wanted| && i <= |outcomes|
    ensures r.Success? ==> |r.value| == |Positions(Hits(outcomes, wanted), i)|
    ensures r.Success? ==> forall m :: 0 <= m < |r.value| ==>
      outcomes[Positions(Hits(outcomes, wanted), i)[m]] == Success(Some(r.value[m]))
    ensures r.Failure? <==> exists k :: i <= k < |outcomes| && wanted[k] && outcomes[k].Failure?
    ensures r.Failure? ==> exists k :: (i <= k < |outcomes| && wanted[k] && outcomes[k] == Failure(r.error)
      && forall j :: i <= j < k && wanted[j] ==> outcomes[j].Success?)
  {
    var seen := Masked(outcomes, wanted);
    assert FoundFlags(seen) == Hits(outcomes, wanted);
    var r := Collect(seen, i);
    assert r.Failure? ==> exists k :: i <= k < |outcomes| && wanted[k] && outcomes[k].Failure? by {
      if r.Failure? {
        var k :| i <= k < |seen| && seen[k].Failure?;
        assert wanted[k] && outcomes[k].Failure?;
      }
    }
    assert (exists k :: i <= k < |outcomes| && wanted[k] && outcomes[k].Failure?) ==> r.Failure? by {
      if k :| i <= k < |outcomes| && wanted[k] && outcomes[k].Failure? {
        assert seen[k].Failure?;
      }
    }
    assert r.Failure? ==> exists k :: (i <= k < |outcomes| && wanted[k] && outcomes[k] == Failure(r.error)
      && forall j :: i <= j < k && wanted[j] ==> outcomes[j].Success?) by {
      if r.Failure? {
        var k :| i <= k < |seen| && seen[k] == Failure(r.error) && forall j :: i <= j < k ==> seen[j].Success?;
        assert wanted[k] && outcomes[k] == Failure(r.error);
      }
    }
    r
  }

  /** The item loop of `process_receipt` over all lines. */
  function ItemsOf(lines: seq<Line>): Result<seq<Item>, Fault>
    requires forall k :: 0 <= k < |lines| ==> WellFormed(lines[k])
  {
    ItemsFrom(LineReads(lines), ItemFlags(lines), 0)
  }

  /** Which lines' corrected labels contain ADDRESS. */
  function AddressFlags(lines: seq<Line>): (r: seq<bool>)
    requires forall k :: 0 <= k < |lines| ==> WellFormed(lines[k])
    ensures |r| == |lines| && forall k :: 0 <= k < |lines| ==> r[k] == (Address in Corrected(lines[k]))
  {
    seq(|lines|, k requires 0 <= k < |lines| => Address in Corrected(lines[k]))
  }

  /** The text of the first line whose corrected labels contain ADDRESS. */
  function FirstAddress(lines: seq<Line>): (r: Option<string>)
    requires forall k :: 0 <= k < |lines| ==> WellFormed(lines[k])
    ensures r.None? <==> forall k :: 0 <= k < |lines| ==> Address !in Corrected(lines[k])
    ensures r.Some? ==> exists k :: (0 <= k < |lines| && Address in Corrected(lines[k]) && r.value == lines[k].text
      && forall j :: 0 <= j < k ==> Address !in Corrected(lines[j]))
  {
    var flags := AddressFlags(lines);
    match FirstTrue(flags)
    case None => None
    case Some(k) =>
      assert Address in Corrected(lines[k]) && forall j :: 0 <= j < k ==> !flags[j];
      Some(lines[k].text)
  }

  datatype Receipt = Receipt(total: nat, date: Option<DateTime>, address: Option<string>, items: seq<Item>)

  /** `_clean_text`: upper case, newlines as spaces. */
  function CleanText(text: string): string {
    Upper(ReplaceChar(text, '\n', ' '))
  }

  /** The non-blank lines of `text.strip().split("\n")` with their predictions. */
  function ReceiptLines(text: string, preds: seq<Label>): seq<Line> {
    PairLines(SplitOn(Strip(text), '\n'), preds, 0)
  }

  /**
   * `process_receipt` with the classifier's predictions given: the total is
   * read from the cleaned text, the date from the first non-blank line, the
   * address is the first line labelled ADDRESS, and items come from lines
   * labelled ITEM_NAME. Fails where `extract_items` raises.
   */
  function ProcessReceipt(text: string, preds: seq<Label>, search: DateSearch, strptime: Strptime, now: DateTime): (r: Result<Receipt, Fault>)
    ensures r.Success? ==> r.value.total == TotalOf(CleanText(text))
    ensures r.Success? ==> (r.value.date.None? <==> ReceiptLines(text, preds) == [])
    ensures r.Success? && r.value.date.Some? ==>
      r.value.date.value == ExtractDate(ReceiptLines(text, preds)[0].text, search, strptime, now)
    ensures r.Success? ==> r.value.address == FirstAddress(ReceiptLines(text, preds))
    ensures r.Success? ==> Success(r.value.items) == ItemsOf(ReceiptLines(text, preds))
    ensures r.Failure? <==> ItemsOf(ReceiptLines(text, preds)).Failure?
  {
    var lines := ReceiptLines(text, preds);
    match ItemsOf(lines)
    case Failure(e) => Failure(e)
    case Success(items) =>
      var date := if |lines| == 0 then None else Some(ExtractDate(lines[0].text, search, strptime, now));
      Success(Receipt(TotalOf(CleanText(text)), date, FirstAddress(lines), items))
  }
}
