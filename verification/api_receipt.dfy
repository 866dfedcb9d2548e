/**
 * The older classifier-based receipt engine (the `api` application's
 * `ReceiptProcessor`). Corrections run token by token in a fixed sequence,
 * DATE and ADDRESS labels spread over their whole line, mostly unlabelled
 * lines are dropped, and items are paired with prices among the lines that
 * survive.
 */
module ApiReceipt {
  import opened Wrappers
  import opened Text
  import opened Numbers
  import opened Labels
  import opened Calendar
  import opened DateParsing
  import Totals
  import Seqs
  import Newer = PicscanReceipt

  /** Boilerplate words that are never item names. */
  const ItemStopWords: set<string> := {"PCS", "TOTAL", "PPN", "KEMBALI", "NO", "KM", "PEMBAYARAN", "HARGA"}

  const StreetMarkers: set<string> := {"JL", "JALAN", "J1"}

  const AreaMarkers: set<string> := {"KEC", "KAB"}

  // ---------------------------------------------------------------- total

  /** `get_total_entities(text)`: the scan starts at the first token containing "TOTAL". */
  function TotalOf(text: string): (r: int)
    ensures (forall j :: 0 <= j < |SplitOn(text, ' ')| ==> !Contains(SplitOn(text, ' ')[j], "TOTAL")) ==> r == 0
    ensures forall t: nat, k: nat ::
              Totals.FirstMarkerAt(SplitOn(text, ' '), "TOTAL", t) && Totals.FirstIntFrom(SplitOn(text, ' '), t, k)
              ==> r == IntValue(SplitOn(text, ' ')[k])
    ensures forall t: nat :: Totals.FirstMarkerAt(SplitOn(text, ' '), "TOTAL", t) && Totals.NoIntFrom(SplitOn(text, ' '), t) ==> r == 0
  {
    Totals.TotalOf(text, "TOTAL")
  }

  // ---------------------------------------------------- token corrections

  /** `correct_price_label`: a PRICE survives only on a word ending in "00" that `float()` accepts. */
  function CorrectPriceLabel(word: string, tag: Label): (r: Label)
    ensures tag != Price ==> r == tag
    ensures tag == Price ==> (r == Price <==> EndsWith(word, "00") && FloatLiteral(word))
    ensures tag == Price && r != Price ==> r == O
  {
    if tag == Price && !(EndsWith(word, "00") && FloatLiteral(word)) then O else tag
  }

  /**
   * `correct_item_name_label`: an ITEM_NAME on a stop word becomes O; on a
   * number it becomes PRICE when the word ends in "00" and O otherwise; on
   * any other word starting with a digit it becomes O.
   */
  function CorrectItemNameLabel(word: string, tag: Label): (r: Label)
    requires tag == ItemName ==> |word| > 0
    ensures tag != ItemName ==> r == tag
    ensures tag == ItemName && word in ItemStopWords ==> r == O
    ensures tag == ItemName && word !in ItemStopWords && FloatLiteral(word) ==>
      r == (if EndsWith(word, "00") then Price else O)
    ensures tag == ItemName && word !in ItemStopWords && !FloatLiteral(word) ==>
      (r == O <==> IsDigit(word[0])) && (r != O ==> r == ItemName)
  {
    if tag != ItemName then tag
    else if word in ItemStopWords then O
    else if FloatLiteral(word) then (if EndsWith(word, "00") then Price else O)
    else if IsDigit(word[0]) then O
    else tag
  }

  /** `correct_qty_label`: a quantity word such as "2X" is O, whatever its label. */
  function CorrectQtyLabel(word: string, tag: Label): (r: Label)
    ensures QuantityWord(word, false) ==> r == O
    ensures !QuantityWord(word, false) ==> r == tag
  {
    if QuantityWord(word, false) then O else tag
  }

  /** The three corrections of `correct_labels`, in their order, on one token. */
  function CorrectToken(word: string, tag: Label): (r: Label)
    requires tag == ItemName ==> |word| > 0
    ensures QuantityWord(word, false) ==> r == O
    ensures r == Price ==> EndsWith(word, "00") && FloatLiteral(word)
    ensures r == ItemName ==> tag == ItemName && word !in ItemStopWords && !FloatLiteral(word) && !IsDigit(word[0])
    ensures r == tag || r == O || (tag == ItemName && r == Price)
  {
    CorrectQtyLabel(word, CorrectItemNameLabel(word, CorrectPriceLabel(word, tag)))
  }

  /** Running the three corrections a second time changes nothing. */
  lemma CorrectTokenIdempotent(word: string, tag: Label)
    requires tag == ItemName ==> |word| > 0
    ensures CorrectToken(word, CorrectToken(word, tag)) == CorrectToken(word, tag)
  {
    var once := CorrectToken(word, tag);
    if once == Price {
      assert word[|word| - 1] == '0';
    }
  }

  predicate ItemWordsNonEmpty(words: seq<string>, labels: seq<Label>) {
    forall i :: 0 <= i < |words| && i < |labels| && labels[i] == ItemName ==> |words[i]| > 0
  }

  /** `correct_labels`: each label paired with a word is corrected, the rest are kept. */
  function CorrectLabels(words: seq<string>, labels: seq<Label>): (r: seq<Label>)
    requires ItemWordsNonEmpty(words, labels)
    ensures |r| == |labels|
    ensures forall i :: 0 <= i < |labels| ==>
      r[i] == (if i < |words| then CorrectToken(words[i], labels[i]) else labels[i])
    decreases |labels|
  {
    if |labels| == 0 then []
    else if |words| == 0 then labels
    else [CorrectToken(words[0], labels[0])] + CorrectLabels(words[1..], labels[1..])
  }

  /** Every quantity word is O after `correct_labels`. */
  lemma QuantityWordsCleared(words: seq<string>, labels: seq<Label>, i: nat)
    requires ItemWordsNonEmpty(words, labels)
    requires i < |words| && i < |labels| && QuantityWord(words[i], false)
    ensures CorrectLabels(words, labels)[i] == O
  {
  }

  /** `correct_labels` is idempotent. */
  lemma {:induction false} CorrectLabelsIdempotent(words: seq<string>, labels: seq<Label>)
    requires ItemWordsNonEmpty(words, labels)
    ensures ItemWordsNonEmpty(words, CorrectLabels(words, labels))
    ensures CorrectLabels(words, CorrectLabels(words, labels)) == CorrectLabels(words, labels)
  {
    var once := CorrectLabels(words, labels);
    forall i | 0 <= i < |words| && i < |once|
      ensures CorrectToken(words[i], once[i]) == once[i]
    {
      CorrectTokenIdempotent(words[i], labels[i]);
    }
  }

  /**
   * `correct_address_labels`: four rules applied in sequence (an item line
   * with a street marker becomes address; an address line, then an item
   * line, with an area marker is blanked; any line still holding an address
   * label becomes wholly address).
   */
  function CorrectAddressLabels(words: seq<string>, labels: seq<Label>): (r: seq<Label>)
    ensures r == labels || r == Repeat(Address, |words|) || r == Repeat(O, |words|)
    ensures Address in r ==> Uniform(r, Address)
    ensures Newer.AnyIn(words, AreaMarkers) && (Address in labels || ItemName in labels) ==> r == Repeat(O, |words|)
    ensures !Newer.AnyIn(words, AreaMarkers) && (Address in labels || (ItemName in labels && Newer.AnyIn(words, StreetMarkers)))
      ==> r == Repeat(Address, |words|)
    ensures Address !in labels && ItemName !in labels ==> r == labels
    ensures Address !in labels && !Newer.AnyIn(words, StreetMarkers) && !Newer.AnyIn(words, AreaMarkers) ==> r == labels
  {
    var a := if ItemName in labels && Newer.AnyIn(words, StreetMarkers) then Repeat(Address, |words|) else labels;
    var b := if Address in a && Newer.AnyIn(words, AreaMarkers) then Repeat(O, |words|) else a;
    var c := if ItemName in b && Newer.AnyIn(words, AreaMarkers) then Repeat(O, |words|) else b;
    if Address in c then Repeat(Address, |words|) else c
  }

  /**
   * The two generations rewrite address lines alike, except on an item line
   * holding both a street and an area marker: the newer engine returns early
   * with ADDRESS, the older one goes on to blank the line.
   */
  lemma AddressRulesAgreeExceptMixedMarkers(words: seq<string>, labels: seq<Label>)
    ensures !(ItemName in labels && Newer.AnyIn(words, StreetMarkers) && Newer.AnyIn(words, AreaMarkers)) ==>
      CorrectAddressLabels(words, labels) == Newer.CorrectAddressLabels(words, labels)
    ensures ItemName in labels && Newer.AnyIn(words, StreetMarkers) && Newer.AnyIn(words, AreaMarkers) ==>
      CorrectAddressLabels(words, labels) == Repeat(O, |words|)
      && Newer.CorrectAddressLabels(words, labels) == Repeat(Address, |words|)
  {
    assert Newer.AddressIndicators == StreetMarkers && Newer.SkipAddress == AreaMarkers;
  }

  /** `correct_date_labels`: a line holding a DATE label becomes wholly DATE. */
  function CorrectDateLabels(words: seq<string>, labels: seq<Label>): (r: seq<Label>)
    ensures Label.Date in labels ==> r == Repeat(Label.Date, |words|)
    ensures Label.Date !in labels ==> r == labels
    ensures Label.Date in r ==> Uniform(r, Label.Date)
  {
    if Label.Date in labels then Repeat(Label.Date, |words|) else labels
  }

  /**
   * `should_skip_line`: `labels.count("O") > len(labels) / 2` with Python's
   * true division, so strictly more than half of the labels are O, which is
   * to say the O labels outnumber all the others; an empty line is kept.
   */
  function ShouldSkipLine(labels: seq<Label>): (skip: bool)
    ensures skip <==> (multiset(labels)[O] as real) > (|labels| as real) / 2.0
    ensures skip <==> multiset(labels)[O] > |labels| - multiset(labels)[O]
    ensures |labels| == 0 ==> !skip
  {
    2 * Count(labels, O) > |labels|
  }

  /** `correct_item_name_labels`: on a line with both an item name and a price, every O becomes ITEM_NAME. */
  function BackfillItemNames(labels: seq<Label>): (r: seq<Label>)
    ensures |r| == |labels|
    ensures ItemName in labels && Price in labels ==> O !in r
    ensures forall i :: 0 <= i < |labels| && labels[i] != O ==> r[i] == labels[i]
    ensures forall i :: 0 <= i < |labels| && labels[i] == O ==>
      r[i] == (if ItemName in labels && Price in labels then ItemName else O)
  {
    if ItemName in labels && Price in labels then MapOToItemName(labels) else labels
  }

  function MapOToItemName(labels: seq<Label>): (r: seq<Label>)
    ensures |r| == |labels|
    ensures forall i :: 0 <= i < |labels| ==> r[i] == (if labels[i] == O then ItemName else labels[i])
  {
    if |labels| == 0 then [] else [if labels[0] == O then ItemName else labels[0]] + MapOToItemName(labels[1..])
  }

  /** `extract_address`: the first address found is kept; a later line does not replace it. */
  function ExtractAddress(words: seq<string>, labels: seq<Label>, current: Option<string>): (r: Option<string>)
    ensures current.Some? && current.value != "" ==> r == current
    ensures (current.None? || current.value == "") && Address in labels ==> r == Some(Join(" ", words))
    ensures (current.None? || current.value == "") && Address !in labels ==> r == current
  {
    if (current.None? || current.value == "") && Address in labels then Some(Join(" ", words)) else current
  }

  /** `extract_date`: the date read from the line's words, as "DD/MM/YYYY". */
  function ExtractDate(words: seq<string>, search: DateSearch, strptime: Strptime, now: DateTime): (r: string)
    requires Valid(now.date)
    requires forall s, f :: strptime(s, f).Some? ==> Valid(strptime(s, f).value.date)
    ensures search(Join(" ", words)).None? ==> ShowsDate(r, now.date)
    ensures forall s, k ::
      (&& search(Join(" ", words)) == Some(s) && 0 <= k < |Formats|
       && TryFormat(s, Formats[k], strptime, now).Some?
       && (forall j :: 0 <= j < k ==> TryFormat(s, Formats[j], strptime, now).None?))
      ==> ShowsDate(r, TryFormat(s, Formats[k], strptime, now).value.date)
    ensures forall s ::
      (search(Join(" ", words)) == Some(s) && (forall j :: 0 <= j < |Formats| ==> TryFormat(s, Formats[j], strptime, now).None?))
      ==> ShowsDate(r, now.date)
  {
    var d := DateParsing.ExtractDate(Join(" ", words), search, strptime, now);
    FormatDayMonthYear(d.date)
  }

  // ----------------------------------------------------------------- items

  datatype Item = Item(name: string, price: int)

  /** The words `int()` accepts among those labelled PRICE, in order. */
  function IntegerPrices(words: seq<string>, labels: seq<Label>): (r: seq<string>)
    ensures forall k :: 0 <= k < |r| ==> IntLiteral(r[k]) && r[k] in words
  {
    Newer.FilterIntegers(Newer.Tagged(words, labels, Price))
  }

  /** Word `i` of a line is labelled PRICE and `int()` accepts it. */
  predicate IntegerPriceAt(words: seq<string>, labels: seq<Label>, i: int) {
    0 <= i < |words| && i < |labels| && labels[i] == Price && IntLiteral(words[i])
  }

  /** Word `j` is the last word of the line that is an integer PRICE word. */
  predicate LastIntegerPriceAt(words: seq<string>, labels: seq<Label>, j: int) {
    IntegerPriceAt(words, labels, j) && forall i :: j < i < |words| ==> !IntegerPriceAt(words, labels, i)
  }

  /** `IntegerPrices` splits over a line cut in two, a lone pair giving its word exactly when it is an integer PRICE word. */
  lemma IntegerPricesSplits(ws: seq<string>, ls: seq<Label>, vs: seq<string>, ms: seq<Label>, w: string, l: Label)
    requires |ws| == |ls|
    ensures IntegerPrices([w], [l]) == if l == Price && IntLiteral(w) then [w] else []
    ensures IntegerPrices(ws + vs, ls + ms) == IntegerPrices(ws, ls) + IntegerPrices(vs, ms)
  {
    Newer.TaggedSplits(ws, ls, vs, ms, w, l, Price);
    Newer.FilterIntegersSplits(Newer.Tagged(ws, ls, Price), Newer.Tagged(vs, ms, Price), w);
    Newer.FilterIntegersSplits([], [], w);
  }

  /** The first pair of a line contributes its word, then the rest of the line follows. */
  lemma IntegerPricesCons(words: seq<string>, labels: seq<Label>)
    requires |words| > 0 && |labels| > 0
    ensures IntegerPrices(words, labels)
      == (if IntegerPriceAt(words, labels, 0) then [words[0]] else []) + IntegerPrices(words[1..], labels[1..])
  {
    assert words == [words[0]] + words[1..] && labels == [labels[0]] + labels[1..];
    IntegerPricesSplits([words[0]], [labels[0]], words[1..], labels[1..], words[0], labels[0]);
  }

  /** A line has no integer price candidates exactly when none of its words is an integer PRICE word. */
  lemma {:induction false} IntegerPricesEmpty(words: seq<string>, labels: seq<Label>)
    ensures IntegerPrices(words, labels) == [] <==> forall i :: !IntegerPriceAt(words, labels, i)
    decreases |words|
  {
    if |words| > 0 && |labels| > 0 {
      IntegerPricesCons(words, labels);
      IntegerPricesEmpty(words[1..], labels[1..]);
      forall i | IntegerPriceAt(words[1..], labels[1..], i)
        ensures IntegerPriceAt(words, labels, i + 1)
      {
        assert words[1..][i] == words[i + 1] && labels[1..][i] == labels[i + 1];
      }
      forall i | 0 < i && IntegerPriceAt(words, labels, i)
        ensures IntegerPriceAt(words[1..], labels[1..], i - 1)
      {
        assert words[1..][i - 1] == words[i] && labels[1..][i - 1] == labels[i];
      }
    }
  }

  /** The last integer price candidate is the word at the last integer PRICE position. */
  lemma {:induction false} IntegerPricesLast(words: seq<string>, labels: seq<Label>, j: int)
    requires LastIntegerPriceAt(words, labels, j)
    ensures var ps := IntegerPrices(words, labels); ps != [] && ps[|ps| - 1] == words[j]
    decreases |words|
  {
    IntegerPricesCons(words, labels);
    var tw, tl := words[1..], labels[1..];
    forall i | IntegerPriceAt(tw, tl, i) ensures IntegerPriceAt(words, labels, i + 1) {
      assert tw[i] == words[i + 1] && tl[i] == labels[i + 1];
    }
    if j == 0 {
      IntegerPricesEmpty(tw, tl);
    } else {
      assert tw[j - 1] == words[j] && tl[j - 1] == labels[j];
      IntegerPricesLast(tw, tl, j - 1);
    }
  }

  /**
   * The value of the last integer PRICE word of a line, if any: that of the
   * word at the last position labelled PRICE that `int()` accepts.
   */
  function LastPrice(words: seq<string>, labels: seq<Label>): (r: Option<int>)
    ensures r.None? <==> IntegerPrices(words, labels) == []
    ensures r.None? <==> forall i :: !IntegerPriceAt(words, labels, i)
    ensures forall j :: LastIntegerPriceAt(words, labels, j) ==> r == Some(IntValue(words[j]))
  {
    var ps := IntegerPrices(words, labels);
    IntegerPricesEmpty(words, labels);
    if |ps| == 0 then None
    else
      LastOfIntegerPrices(words, labels);
      Some(IntValue(ps[|ps| - 1]))
  }

  /** `IntegerPricesLast` for every last integer PRICE position at once. */
  lemma LastOfIntegerPrices(words: seq<string>, labels: seq<Label>)
    requires IntegerPrices(words, labels) != []
    ensures var ps := IntegerPrices(words, labels);
      forall j :: LastIntegerPriceAt(words, labels, j) ==> words[j] == ps[|ps| - 1]
  {
    forall j | LastIntegerPriceAt(words, labels, j)
      ensures words[j] == IntegerPrices(words, labels)[|IntegerPrices(words, labels)| - 1]
    {
      IntegerPricesLast(words, labels, j);
    }
  }

  /**
   * `extract_items` for line `i`: the name joins the ITEM_NAME words; the
   * price is the last integer PRICE word of the line, or else of the next
   * line of the list; an item needs both.
   */
  function ExtractItems(texts: seq<string>, labelLines: seq<seq<Label>>, i: nat): (r: Option<Item>)
    requires |texts| == |labelLines| && i < |texts|
    ensures r.Some? ==> r.value.name == Join(" ", Newer.Tagged(Split(texts[i]), labelLines[i], ItemName)) && r.value.name != ""
    ensures r.Some? && LastPrice(Split(texts[i]), labelLines[i]).Some? ==>
      r.value.price == LastPrice(Split(texts[i]), labelLines[i]).value
    ensures r.Some? && LastPrice(Split(texts[i]), labelLines[i]).None? ==>
      i + 1 < |texts| && Some(r.value.price) == LastPrice(Split(texts[i + 1]), labelLines[i + 1])
    ensures r.None? ==> (|| Newer.Tagged(Split(texts[i]), labelLines[i], ItemName) == []
                         || (LastPrice(Split(texts[i]), labelLines[i]).None?
                             && (i + 1 >= |texts| || LastPrice(Split(texts[i + 1]), labelLines[i + 1]).None?)))
  {
    var names := Newer.Tagged(Split(texts[i]), labelLines[i], ItemName);
    var name := Join(" ", names);
    var price := match LastPrice(Split(texts[i]), labelLines[i])
      case Some(p) => Some(p)
      case None => if i + 1 < |texts| then LastPrice(Split(texts[i + 1]), labelLines[i + 1]) else None;
    if names != [] && price.Some? then
      Newer.JoinOfNonEmptyIsNonEmpty(names);
      Some(Item(name, price.value))
    else None
  }

  // --------------------------------------------------------------- receipt

  /** A line of the text, its words and its window of predictions; blank lines included. */
  predicate Aligned(line: Newer.Line) {
    line.words == Split(line.text) && |line.labels| <= |line.words|
  }

  /** The first loop of `process_receipt`: every line, blank or not, takes the next predictions. */
  function AllLines(texts: seq<string>, preds: seq<Label>, tokenIndex: nat): (r: seq<Newer.Line>)
    ensures |r| == |texts|
    ensures forall k :: 0 <= k < |r| ==> Aligned(r[k]) && r[k].text == texts[k]
  {
    if |texts| == 0 then []
    else
      var words := Split(texts[0]);
      [Newer.Line(texts[0], words, Newer.Window(preds, tokenIndex, |words|))] + AllLines(texts[1..], preds, tokenIndex + |words|)
  }

  /**
   * The three correction passes of the main loop: a line ends wholly DATE,
   * wholly ADDRESS, or with neither label; and no quantity word ends as an
   * item name or a price.
   */
  function CorrectLine(line: Newer.Line): (r: seq<Label>)
    requires Aligned(line)
    ensures |r| <= |line.words|
    ensures Label.Date in r ==> Uniform(r, Label.Date)
    ensures Address in r ==> Uniform(r, Address)
    ensures forall i :: 0 <= i < |r| && QuantityWord(line.words[i], false) ==> r[i] != ItemName && r[i] != Price
  {
    var fixed := CorrectLabels(line.words, line.labels);
    forall i | 0 <= i < |fixed| && i < |line.words| && QuantityWord(line.words[i], false)
      ensures fixed[i] == O
    {
      QuantityWordsCleared(line.words, line.labels, i);
    }
    CorrectDateLabels(line.words, CorrectAddressLabels(line.words, fixed))
  }

  /** A line that survived noise rejection, with its final labels. */
  datatype Kept = Kept(text: string, words: seq<string>, labels: seq<Label>)

  /** What the main loop keeps of a line it does not skip. */
  function Keep(line: Newer.Line): (r: Kept)
    requires Aligned(line)
    ensures KeptAligned(r) && r.text == line.text
  {
    Kept(line.text, line.words, BackfillItemNames(CorrectLine(line)))
  }

  /** A kept line still pairs its text with its words and has no more labels than words. */
  predicate KeptAligned(kept: Kept) {
    kept.words == Split(kept.text) && |kept.labels| <= |kept.words|
  }

  /** Back-filling item names never turns a kept line into a noise line. */
  lemma BackfillKeepsLine(labels: seq<Label>)
    requires !ShouldSkipLine(labels)
    ensures !ShouldSkipLine(BackfillItemNames(labels))
  {
    if ItemName in labels && Price in labels {
      assert O !in BackfillItemNames(labels);
    }
  }

  /** Which lines the main loop skips as noise, after correcting them. */
  function SkipFlags(lines: seq<Newer.Line>): (r: seq<bool>)
    requires forall k :: 0 <= k < |lines| ==> Aligned(lines[k])
    ensures |r| == |lines|
    ensures forall i :: 0 <= i < |lines| ==> r[i] == ShouldSkipLine(CorrectLine(lines[i]))
  {
    seq(|lines|, i requires 0 <= i < |lines| => ShouldSkipLine(CorrectLine(lines[i])))
  }

  /** The positions of `false` in `skip` from `from` on, in increasing order. */
  function KeptIndices(skip: seq<bool>, from: nat): (r: seq<nat>)
    requires from <= |skip|
    ensures forall k :: 0 <= k < |r| ==> from <= r[k] < |skip| && !skip[r[k]]
    ensures forall i :: from <= i < |skip| && !skip[i] ==> i in r
    ensures forall k, j :: 0 <= k < j < |r| ==> r[k] < r[j]
    decreases |skip| - from
  {
    if from == |skip| then []
    else
      var rest := KeptIndices(skip, from + 1);
      if skip[from] then rest else [from] + rest
  }

  /** The first kept position is the first `false` of `skip`. */
  lemma FirstKept(skip: seq<bool>)
    ensures KeptIndices(skip, 0) == [] <==> forall i :: 0 <= i < |skip| ==> skip[i]
    ensures KeptIndices(skip, 0) != [] ==> forall j :: 0 <= j < KeptIndices(skip, 0)[0] ==> skip[j]
  {
    var idx := KeptIndices(skip, 0);
    if idx != [] {
      assert forall m :: 0 <= m < |idx| ==> idx[0] <= idx[m];
    }
  }

  /** The lines the main loop keeps, in order, with their final labels. */
  function Survivors(lines: seq<Newer.Line>): (r: seq<Kept>)
    requires forall k :: 0 <= k < |lines| ==> Aligned(lines[k])
    ensures |r| == |KeptIndices(SkipFlags(lines), 0)|
    ensures forall k :: 0 <= k < |r| ==> r[k] == Keep(lines[KeptIndices(SkipFlags(lines), 0)[k]])
    ensures forall k :: 0 <= k < |r| ==> !ShouldSkipLine(r[k].labels) && KeptAligned(r[k])
  {
    var idx := KeptIndices(SkipFlags(lines), 0);
    var r := seq(|idx|, k requires 0 <= k < |idx| => Keep(lines[idx[k]]));
    assert forall k :: 0 <= k < |r| ==> !ShouldSkipLine(r[k].labels) by {
      forall k | 0 <= k < |r|
        ensures !ShouldSkipLine(r[k].labels)
      {
        BackfillKeepsLine(CorrectLine(lines[idx[k]]));
      }
    }
    r
  }

  function KeptTexts(kept: seq<Kept>): (r: seq<string>)
    ensures |r| == |kept| && forall k :: 0 <= k < |kept| ==> r[k] == kept[k].text
  {
    if |kept| == 0 then [] else [kept[0].text] + KeptTexts(kept[1..])
  }

  function KeptLabels(kept: seq<Kept>): (r: seq<seq<Label>>)
    ensures |r| == |kept| && forall k :: 0 <= k < |kept| ==> r[k] == kept[k].labels
  {
    if |kept| == 0 then [] else [kept[0].labels] + KeptLabels(kept[1..])
  }

  /** What the item loop makes of kept line `k`: `extract_items` where the line holds ITEM_NAME, nothing elsewhere. */
  function ItemRead(kept: seq<Kept>, k: nat): Option<Item>
    requires k < |kept|
  {
    if ItemName in kept[k].labels then ExtractItems(KeptTexts(kept), KeptLabels(kept), k) else None
  }

  /** The kept lines holding ITEM_NAME whose read yields an item. */
  function ItemHits(kept: seq<Kept>): (r: seq<bool>)
    ensures |r| == |kept| && forall k :: 0 <= k < |kept| ==> r[k] == ItemRead(kept, k).Some?
  {
    seq(|kept|, k requires 0 <= k < |kept| => ItemRead(kept, k).Some?)
  }

  /**
   * The item loop from kept line `i` on: exactly the items of the kept
   * lines holding ITEM_NAME whose read yields one, in line order and one
   * per line.
   */
  function ItemsFrom(kept: seq<Kept>, i: nat): (r: seq<Item>)
    requires i <= |kept|
    ensures |r| == |Seqs.Positions(ItemHits(kept), i)|
    ensures forall m :: 0 <= m < |r| ==> (ItemName in kept[Seqs.Positions(ItemHits(kept), i)[m]].labels
      && ExtractItems(KeptTexts(kept), KeptLabels(kept), Seqs.Positions(ItemHits(kept), i)[m]) == Some(r[m]))
    ensures forall it :: it in r ==> it.name != ""
    decreases |kept| - i
  {
    if i == |kept| then []
    else
      var rest := ItemsFrom(kept, i + 1);
      var here := ItemRead(kept, i);
      ItemsStep(kept, i, rest);
      if here.Some? then [here.value] + rest else rest
  }

  /** Kept line `i`'s item, if it yields one, followed by the items from `i + 1` on, are the items from `i` on. */
  lemma ItemsStep(kept: seq<Kept>, i: nat, rest: seq<Item>)
    requires i < |kept|
    requires |rest| == |Seqs.Positions(ItemHits(kept), i + 1)|
    requires forall m :: 0 <= m < |rest| ==> ItemRead(kept, Seqs.Positions(ItemHits(kept), i + 1)[m]) == Some(rest[m])
    ensures var here := ItemRead(kept, i);
      var r := if here.Some? then [here.value] + rest else rest;
      |r| == |Seqs.Positions(ItemHits(kept), i)|
      && forall m :: 0 <= m < |r| ==> ItemRead(kept, Seqs.Positions(ItemHits(kept), i)[m]) == Some(r[m])
  {
    var here := ItemRead(kept, i);
    var r := if here.Some? then [here.value] + rest else rest;
    var ks := Seqs.Positions(ItemHits(kept), i);
    var ks' := Seqs.Positions(ItemHits(kept), i + 1);
    assert ks == if here.Some? then [i] + ks' else ks';
    forall m | 0 <= m < |r|
      ensures ItemRead(kept, ks[m]) == Some(r[m])
    {
      if here.Some? && m > 0 {
        assert r[m] == rest[m - 1] && ks[m] == ks'[m - 1];
      }
    }
  }

  /** The address fold of the main loop: `extract_address` applied to each kept line in turn. */
  function AddressOf(kept: seq<Kept>, current: Option<string>): (r: Option<string>)
    ensures current.Some? && current.value != "" ==> r == current
  {
    if |kept| == 0 then current
    else AddressOf(kept[1..], ExtractAddress(kept[0].words, kept[0].labels, current))
  }

  /**
   * Starting with no address, the fold yields the words of the first kept
   * line labelled ADDRESS joined by single spaces, and no address when no
   * kept line is so labelled.
   */
  lemma {:induction false} AddressOfFirst(kept: seq<Kept>, k: nat)
    requires forall j :: 0 <= j < |kept| ==> KeptAligned(kept[j])
    requires k <= |kept| && forall j :: 0 <= j < k ==> Address !in kept[j].labels
    ensures k < |kept| && Address in kept[k].labels ==> AddressOf(kept, None) == Some(Join(" ", kept[k].words))
    ensures k == |kept| ==> AddressOf(kept, None) == None
  {
    if k > 0 {
      assert Address !in kept[0].labels;
      assert forall j :: 0 <= j < k - 1 ==> kept[1..][j] == kept[j + 1];
      AddressOfFirst(kept[1..], k - 1);
    } else if k < |kept| && Address in kept[0].labels {
      assert KeptAligned(kept[0]) && |kept[0].labels| > 0;
      Newer.JoinOfNonEmptyIsNonEmpty(kept[0].words);
    }
  }

  datatype Receipt = Receipt(total: int, date: Option<string>, address: Option<string>, items: seq<Item>)

  /** The lines of the upper-cased text, paired with their predictions. */
  function ReceiptLines(text: string, preds: seq<Label>): seq<Newer.Line> {
    AllLines(SplitOn(Strip(Upper(text)), '\n'), preds, 0)
  }

  /** The first survivor is the first line the main loop does not skip; there is none only when every line is skipped. */
  lemma FirstSurvivor(lines: seq<Newer.Line>)
    requires forall k :: 0 <= k < |lines| ==> Aligned(lines[k])
    ensures Survivors(lines) == [] <==> forall i :: 0 <= i < |lines| ==> ShouldSkipLine(CorrectLine(lines[i]))
    ensures Survivors(lines) != [] ==> exists i :: (0 <= i < |lines| && !ShouldSkipLine(CorrectLine(lines[i]))
      && (forall j :: 0 <= j < i ==> ShouldSkipLine(CorrectLine(lines[j]))) && Survivors(lines)[0] == Keep(lines[i]))
  {
    var skip := SkipFlags(lines);
    FirstKept(skip);
    if Survivors(lines) != [] {
      var i := KeptIndices(skip, 0)[0];
      assert Survivors(lines)[0] == Keep(lines[i]);
      assert forall j :: 0 <= j < i ==> skip[j];
    }
  }

  /**
   * `process_receipt` with the classifier's predictions given: the total is
   * read from the upper-cased text with newlines as spaces; the date is read
   * from the first line that survives noise rejection, and is missing only
   * when none does; the address is the first surviving ADDRESS line; items
   * are read among the survivors.
   */
  function ProcessReceipt(text: string, preds: seq<Label>, search: DateSearch, strptime: Strptime, now: DateTime): (r: Receipt)
    requires Valid(now.date)
    requires forall s, f :: strptime(s, f).Some? ==> Valid(strptime(s, f).value.date)
    ensures r.total == TotalOf(ReplaceChar(Upper(text), '\n', ' '))
    ensures r.date.None? <==> Survivors(ReceiptLines(text, preds)) == []
    ensures r.date.Some? ==> r.date.value == ExtractDate(Survivors(ReceiptLines(text, preds))[0].words, search, strptime, now)
    ensures r.address == AddressOf(Survivors(ReceiptLines(text, preds)), None)
    ensures r.items == ItemsFrom(Survivors(ReceiptLines(text, preds)), 0)
  {
    var kept := Survivors(ReceiptLines(text, preds));
    var date := if kept == [] then None else Some(ExtractDate(kept[0].words, search, strptime, now));
    Receipt(TotalOf(ReplaceChar(Upper(text), '\n', ' ')), date, AddressOf(kept, None), ItemsFrom(kept, 0))
  }
}
