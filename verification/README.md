# PicBudget receipt pipeline and budgeting rules, in Dafny

This project models the core of PicBudget, a personal-budget service that
reads photographed shop receipts. It covers:

- **Image rectification** (`Rectify`, `Pipeline`). Both engines do it: `ImageProcessor` in the picscan app and `PageExtractor` in the api app. The photo passes through a fixed sequence of image operations. The receipt's four corners are ordered as top-left, top-right, bottom-right and bottom-left. The output size of the perspective warp and the destination corners are computed. The first contour of largest area decides whether the image is straightened at all. `ImageProcessor` keeps its result once computed; `PageExtractor` computes it in its constructor.
- **OCR line grouping and cleaning** (`TextLines`, `DatePattern`, `Text`). `TextExtractor` groups the detections of the OCR engine into lines by comparing the boxes of consecutive detections. It sets the dates on a line aside, scrubs the line, appends the dates back, and collapses whitespace. It then joins the non-blank lines, lowercased.
- **Three generations of receipt rule engines** that turn text plus per-token labels into a receipt of total, date, address and items:
  - `PicscanReceipt` is the newest, classifier-driven engine of the picscan app.
  - `ApiReceipt` is the classifier-driven engine of the api app. It adds date-label spreading, noise-line rejection and item-name back-fill.
  - `EntityReceipt` is the oldest, entity-recogniser engine.

  They share the total scan (`Totals`), the date formats and parsing (`DateParsing`, `Calendar`), and the number syntax of Python's `int()` and `float()` (`Numbers`).
- **Wallet naming** (`Wallets`): `Wallet.save` de-duplicates a new wallet's name against the same user's wallets.
- **Budget plans** (`Plans`): `Plan.calculate_progress` builds the period window, sums the matching transactions and rounds the percentage. `Plan.is_overspent` compares it with 100.
- **One-time passwords** (`Otp`): `OTP.generate_otp` and `OTP.validate_otp`.

Everything the code obtains from outside becomes a parameter of the model:

- the OCR engine's detections;
- the classifier's predicted labels;
- the entities the spaCy recogniser finds;
- the result of `strptime`;
- the `re.search` of the newer engines' date pattern;
- the image library's pixel operations (named steps, contour areas and approximations, edge lengths as reals);
- the clock;
- the random digits.

Some details of the code that shape the model:

- The newest engine returns its date as a `datetime`, not as a "DD/MM/YYYY" string. Its items carry the keys `item_name` and `item_price`; the two older engines use `item` and `price`.
- `_group_inline` emits a group only when the next detection breaks the line, so the last line of every page is dropped (see Findings).
- Each engine keeps its own rules. For example, the newest engine has no noise-line rejection and no date-label spreading. The api engine starts its total scan at the FIRST word containing "TOTAL" and tries that word itself.
- Wallets, plans and one-time passwords sit outside the receipt pipeline. They are modelled because their rules are self-contained.

Paths below are relative to the repository root.

## Model

| member | source | states |
|---|---|---|
| Numbers.NatToString | picbudget/wallets/models/wallet.py:26 | `str(n)` of a natural number is a non-empty string of decimal digits, without a leading zero unless n is 0 |
| Numbers.NatToStringRoundTrip | picbudget/authentication/models/otp.py:15 | reading back the digits `str(n)` wrote gives n |
| Numbers.IntLiteralIsFloatLiteral | picbudget/picscan/utils/processors/receipt_processor.py:181-185 | every string `int()` accepts is also accepted by `float()` |
| Numbers.DigitStringIsNumeric | picbudget/picscan/utils/processors/receipt_processor.py:67-75 | a non-empty digit string is accepted by both `int()` and `float()`, and `int()` yields the value of its digits |
| Numbers.FirstDigitRun | picbudget/picscan/utils/processors/receipt_processor.py:45 | `re.search(r"\d+", s)`: the leftmost run of digits, maximal on both sides, and none exactly when s holds no digit |
| Text.Split | picbudget/picscan/utils/processors/receipt_processor.py:213 | `str.split()` yields non-empty pieces without whitespace; with `SplitJoinRoundTrip` and `CollapseIsJoinOfSplit` they are the words |
| Text.SplitOn | picbudget/picscan/utils/processors/receipt_processor.py:208 | `s.split(c)` is never empty and no piece contains c |
| Text.Upper | picbudget/picscan/utils/processors/receipt_processor.py:81 | upper-casing maps each character by itself and keeps the length |
| Text.ReplaceChar | picbudget/picscan/utils/processors/receipt_processor.py:81 | `replace("\n", " ")` changes exactly the characters equal to the old one |
| Text.Strip | picbudget/picscan/utils/processors/extract_text.py:21 | `strip()` yields a text with no whitespace at either end |
| Text.Collapse | picbudget/picscan/utils/processors/extract_text.py:36 | `re.sub(r"\s+", " ", s).strip()` leaves single plain spaces between words and no whitespace at the ends |
| Text.CollapseIsJoinOfSplit | picbudget/picscan/utils/processors/extract_text.py:36 | collapsing whitespace is the same as `" ".join(s.split())` |
| Text.SplitJoinRoundTrip | picbudget/picscan/utils/processors/receipt_processor.py:165-167 | splitting the words joined by single spaces gives back the words |
| Text.SplitOnJoinRoundTrip | picbudget/picscan/utils/processors/extract_text.py:22 | `c.join(s.split(c))` gives back s |
| Text.ReplaceCharAppend | api/processors/receipt_processor_old.py:195-202 | replacing one character by another works piece by piece over a concatenation |
| Text.JoinSplitOnReplaces | api/processors/receipt_processor_old.py:195-202 | `" ".join(text.split("\n"))` replaces every newline by a space |
| Text.LowerJoin | picbudget/picscan/utils/processors/extract_text.py:22 | lowercasing a joined text equals joining the lowercased pieces |
| Text.StripWithin | picbudget/picscan/utils/processors/extract_text.py:21 | `strip()` only removes characters, so a character absent from s is absent from the stripped s |
| Seqs.IndexOf | picbudget/picscan/utils/processors/extract_text.py:48 | `list.index(x)` returns the first position holding x |
| Seqs.IndexOfDistinct | picbudget/picscan/utils/processors/extract_text.py:48 | in a list without repeats `list.index` finds the element's own position |
| Seqs.FilterSplits | api/processors/receipt_processor_old.py:30-49 | a list comprehension with a condition keeps the empty list empty, keeps or drops a single element by the condition alone, and distributes over concatenation, so it keeps order |
| Seqs.Collect | picbudget/picscan/utils/processors/receipt_processor.py:229-239 | an item loop over per-line outcomes: on success, exactly the found items, one per line at the increasing positions that found one; it fails iff some line fails, with the error of the first failing line |
| Labels.Repeat | api/processors/receipt_processor.py:112 | `[tag] * n` has length n and holds only tag |
| Labels.Count | api/processors/receipt_processor.py:185 | `labels.count(tag)` is the number of occurrences of tag, i.e. its multiplicity in the labels |
| DatePattern.DateMatchAtIsMatch | api/processors/receipt_processor_old.py:134 | the scan of `\b\d{2}[./-]\d{2}[./-]\d{2,4}\b` finds a match of a given length at a position exactly when the pattern matches there with that length |
| DatePattern.FirstDateAt | picbudget/picscan/utils/processors/extract_text.py:27 | the leftmost position at or after i where the date pattern matches, none exactly when it matches nowhere from i |
| DatePattern.FindAllFrom | api/processors/receipt_processor_old.py:134 | `re.findall` from position i: the matches at strictly increasing positions, each the pattern's match there, with no match starting before the first, between one match's end and the next match, or after the last |
| DatePattern.FindAll | api/processors/receipt_processor_old.py:134 | every result of `re.findall` is a date-shaped string: two digits, a separator, two digits, a separator, two to four digits |
| DatePattern.FindAllFirstIsLeftmost | api/processors/receipt_processor_old.py:134-136 | `findall` finds something exactly when the pattern matches somewhere, and its first result is the match at the leftmost such position |
| DateParsing.FirstParse | picbudget/picscan/utils/processors/receipt_processor.py:141-155 | the first format in list order whose parse succeeds, with its result; none only when every format fails |
| DateParsing.ExtractDate | picbudget/picscan/utils/processors/receipt_processor.py:136-156 | the first date-shaped substring is parsed by the first format that accepts it; no such substring, or no format accepting it, gives the current time |
| DateParsing.MonthFirstWins | api/processors/receipt_processor.py:30-39 | "%m-%d-%Y" is tried before "%d-%m-%Y", so a string both accept is read month first |
| DateParsing.CenturyAdjustmentUnreachable | picbudget/picscan/utils/processors/receipt_processor.py:144-151 | when every two-digit-year format (`%d-%m-%y`, `%d/%m/%y`, `%d.%m.%y`) yields a year of at least 100, the century adjustment never changes a parse, and the date is the first accepting `strptime` result |
| DateParsing.Pad2 | api/processors/receipt_processor.py:142 | `%d` and `%m` write two zero-padded digits whose value is the number |
| DateParsing.FormatDayMonthYear | api/processors/receipt_processor.py:142 | `strftime("%d/%m/%Y")` puts the day's digits, "/", the month's digits, "/" and the year's digits, each reading back as the date's field |
| Calendar.PrevDay | picbudget/picplan/models/plan.py:51-53 | `d - timedelta(days=1)` is the valid preceding day, and raises only on 0001-01-01 |
| Calendar.AddDays | picbudget/picplan/models/plan.py:55-56 | `d + timedelta(days=n)` when it succeeds is the valid date n ordinals later |
| Calendar.OrdinalOrder | picbudget/picplan/models/plan.py:67-70 | Python's order on dates (year, then month, then day) is the order of their ordinals |
| Totals.TotalScanStarted | api/processors/receipt_processor.py:53-58 | once the scan has started, the total is the first word `int()` accepts, or 0 if none does |
| Totals.TotalScanSkips | api/processors/receipt_processor.py:50-52 | before the first word holding the marker, the scan only moves on |
| Totals.TotalWithoutMarker | api/processors/receipt_processor_old.py:105-118 | without a word holding the marker the total is 0 |
| Totals.TotalAfterMarker | api/processors/receipt_processor.py:46-59 | with t the first marker word, the total is the first word from t on, t included, that `int()` accepts, or 0 when there is none |
| Totals.TotalOf | api/processors/receipt_processor.py:46-59 | on the text split on single spaces: 0 without a marker word; otherwise the first word from the first marker word on, that one included, that `int()` accepts, or 0 when there is none |
| ApiReceipt.TotalOf | api/processors/receipt_processor.py:46-59 | the same reading with the marker "TOTAL" |
| EntityReceipt.TotalOf | api/processors/receipt_processor_old.py:95-118 | the same reading with the lower-case marker "total" |
| PicscanReceipt.DigitPriceIsValid | picbudget/picscan/utils/processors/receipt_processor.py:67-75 | every digit string ending in "00" is a valid price |
| PicscanReceipt.IsValidPrice | picbudget/picscan/utils/processors/receipt_processor.py:67-75 | a valid price ends in two zeros, and every word `int()` accepts that ends in "00" is one |
| PicscanReceipt.LastTotalIndex | picbudget/picscan/utils/processors/receipt_processor.py:88-91 | the position of the last word containing "TOTAL": it contains it and no later word does |
| PicscanReceipt.FirstDigitWord | picbudget/picscan/utils/processors/receipt_processor.py:95-97 | the first word at or after a position that contains a digit, none when no such word exists |
| PicscanReceipt.TotalOfWords | picbudget/picscan/utils/processors/receipt_processor.py:83-102 | the total is 0 without a "TOTAL" word; otherwise it is the first digit run of the first word holding a digit after the LAST "TOTAL" word, or 0 when there is none |
| PicscanReceipt.TotalOf | picbudget/picscan/utils/processors/receipt_processor.py:83-102 | on the whitespace-split text: 0 without a "TOTAL" word; otherwise the first digit run of the first word holding a digit after the LAST "TOTAL" word, or 0 when none holds one |
| PicscanReceipt.CorrectLabel | picbudget/picscan/utils/processors/receipt_processor.py:108-117 | an invalid price is demoted to O; an item name becomes O when it is boilerplate or starts with a digit, and PRICE when it is a valid price; any other label becomes O on a quantity word; otherwise the label is kept |
| PicscanReceipt.CorrectLabels | picbudget/picscan/utils/processors/receipt_processor.py:104-119 | the result is as long as the labels; each position paired with a word is corrected on its own, and the rest are copied |
| PicscanReceipt.CorrectLabelIdempotent | picbudget/picscan/utils/processors/receipt_processor.py:108-117 | correcting a corrected label changes nothing |
| PicscanReceipt.CorrectLabelsIdempotent | picbudget/picscan/utils/processors/receipt_processor.py:104-119 | the token-correction pass is idempotent |
| PicscanReceipt.CorrectAddressLabels | picbudget/picscan/utils/processors/receipt_processor.py:121-133 | rules in priority order: an item line with a street marker becomes all ADDRESS; a line with an address or item label and an area marker becomes all O; any other line with ADDRESS becomes all ADDRESS; otherwise unchanged, in particular any line without ADDRESS and without a street or area marker |
| PicscanReceipt.Tagged | picbudget/picscan/utils/processors/receipt_processor.py:165-167 | the words of `zip(words, labels)` carrying a tag are words of the line, no more than there are words, and none exactly when no paired label is the tag |
| PicscanReceipt.TaggedSplits | picbudget/picscan/utils/processors/receipt_processor.py:165-167 | the tagged words of a line cut in two are those of each part in order; a lone pair gives its word exactly when it carries the tag |
| PicscanReceipt.PriceWordsSplits | picbudget/picscan/utils/processors/receipt_processor.py:181-184 | the valid-price candidates of a line cut in two are those of each part in order; a lone pair gives its word exactly when it is labelled PRICE and is a valid price |
| PicscanReceipt.FilterIntegersSplits | picbudget/picscan/utils/processors/receipt_processor.py:181-185 | keeping the words `int()` accepts splits over concatenation, and keeps a lone word exactly when `int()` accepts it |
| PicscanReceipt.IntegerPriceWordsSplits | picbudget/picscan/utils/processors/receipt_processor.py:181-185 | the corrected candidates of a line cut in two are those of each part in order; a lone pair gives its word exactly when it is a PRICE word, a valid price and an integer |
| PicscanReceipt.IntAll | picbudget/picscan/utils/processors/receipt_processor.py:181-185 | `[int(w) for w in words]` yields each word's value when every word converts, and otherwise raises with the FIRST word `int()` rejects, all earlier words converting |
| PicscanReceipt.ExtractItems | picbudget/picscan/utils/processors/receipt_processor.py:158-193 | no item without an ITEM_NAME word; on an item line, a valid price `int()` rejects on this line raises; otherwise this line's last valid price gives the item; a line without valid prices takes the next line's last one, raising when `int()` rejects one of them, and gives no item when neither line has a valid price |
| PicscanReceipt.NonIntegerPriceRaises | picbudget/picscan/utils/processors/receipt_processor.py:181-185 | a word `float()` reads but `int()` rejects makes `extract_items` raise |
| PicscanReceipt.DottedThousandsIsValidPrice | picbudget/picscan/utils/processors/receipt_processor.py:67-75 | "25.000" is a valid price that `int()` rejects |
| PicscanReceipt.LinePrice | picbudget/picscan/utils/processors/receipt_processor.py:178-188 | a line's price is its last valid price word, none without one; the comprehension raises, at the first valid price word `int()` rejects, exactly when there is such a word |
| PicscanReceipt.DottedPriceLineRaises | picbudget/picscan/utils/processors/receipt_processor.py:181-185 | an item line priced "25.000" makes the as-written `extract_items` raise |
| PicscanReceipt.DottedNextLinePriceRaises | picbudget/picscan/utils/processors/receipt_processor.py:172-185 | an unpriced item line "KOPI" followed by a line priced "25.000" also makes the as-written `extract_items` raise |
| PicscanReceipt.ExtractItemsChecked | picbudget/picscan/utils/processors/receipt_processor.py:158-193 | corrected: never raises; the item's price is the last valid price of this line that `int()` accepts, else the last such price of the next line, and there is no item when neither line has one |
| PicscanReceipt.LinePriceAgrees | picbudget/picscan/utils/processors/receipt_processor.py:181-188 | on a line whose price words all convert, the corrected candidates are all of them, with the same values |
| PicscanReceipt.CheckedAgreesWhenNoRaise | picbudget/picscan/utils/processors/receipt_processor.py:158-193 | wherever the as-written `extract_items` returns, the corrected one returns the same |
| PicscanReceipt.Window | picbudget/picscan/utils/processors/receipt_processor.py:217-220 | `preds[a:a+n]` clamps at the end like a Python slice |
| PicscanReceipt.PairLines | picbudget/picscan/utils/processors/receipt_processor.py:208-222 | never more lines than texts; every line kept has as many labels as words, at most one per word |
| PicscanReceipt.PairLinesTexts | picbudget/picscan/utils/processors/receipt_processor.py:212-222 | the paired texts are the lines with a word, in their original order |
| PicscanReceipt.PairLinesKeepsNonBlank | picbudget/picscan/utils/processors/receipt_processor.py:212-222 | a text is paired exactly when it is one of the lines and has a word |
| PicscanReceipt.PairLinesFirst | picbudget/picscan/utils/processors/receipt_processor.py:212-215 | the first paired line is the first line with a word, and there is none only when every line is blank |
| PicscanReceipt.ItemsFrom | picbudget/picscan/utils/processors/receipt_processor.py:229-239 | exactly one item per ITEM_NAME line that yields one, at increasing line positions, in line order; the loop fails iff some ITEM_NAME line raises, with the error of the first one |
| PicscanReceipt.FirstAddress | picbudget/picscan/utils/processors/receipt_processor.py:241-242 | the text of the first line whose corrected labels contain ADDRESS, none when no line does |
| PicscanReceipt.ProcessReceipt | picbudget/picscan/utils/processors/receipt_processor.py:195-252 | the total comes from the cleaned text, the date from the first non-blank line (none without one), and the address from the first ADDRESS line; the items come from the ITEM_NAME lines; the call fails exactly when item extraction raises |
| ApiReceipt.CorrectPriceLabel | api/processors/receipt_processor.py:61-69 | a label containing PRICE survives only on a word ending in "00" that `float()` accepts, and becomes O otherwise; other labels are kept |
| ApiReceipt.CorrectItemNameLabel | api/processors/receipt_processor.py:71-93 | an ITEM_NAME on a stop word becomes O; on a number it becomes PRICE when the word ends in "00", O otherwise; on another word starting with a digit it becomes O |
| ApiReceipt.CorrectQtyLabel | api/processors/receipt_processor.py:95-98 | a quantity word such as "2X" is O whatever its label; other words keep theirs |
| ApiReceipt.CorrectToken | api/processors/receipt_processor.py:101-105 | the three corrections in order: a quantity word ends O, a surviving PRICE is a valid price, and a surviving ITEM_NAME is neither a stop word nor a number nor digit-led |
| ApiReceipt.CorrectTokenIdempotent | api/processors/receipt_processor.py:101-105 | running the three corrections again changes nothing |
| ApiReceipt.CorrectLabels | api/processors/receipt_processor.py:100-106 | each label paired with a word is corrected, the rest are kept, and the length is unchanged |
| ApiReceipt.QuantityWordsCleared | api/processors/receipt_processor.py:95-98 | every quantity word is O after `correct_labels` |
| ApiReceipt.CorrectLabelsIdempotent | api/processors/receipt_processor.py:100-106 | `correct_labels` is idempotent |
| ApiReceipt.CorrectAddressLabels | api/processors/receipt_processor.py:108-119 | the result is the labels, all ADDRESS or all O; an area marker with an address or item label blanks the line; otherwise an item line with a street marker or a line with ADDRESS becomes all ADDRESS; a line without ADDRESS is unchanged unless it is an item line holding a street or area marker |
| ApiReceipt.AddressRulesAgreeExceptMixedMarkers | api/processors/receipt_processor.py:108-119 | the api and picscan address rules agree on every line except an item line holding both a street and an area marker |
| ApiReceipt.CorrectDateLabels | api/processors/receipt_processor.py:121-124 | a line holding a DATE label becomes all DATE; other lines are unchanged |
| ApiReceipt.ShouldSkipLine | api/processors/receipt_processor.py:184-185 | `count("O") > len / 2` in true division: a line is noise iff its O labels outnumber all the others; an empty line is kept |
| ApiReceipt.CorrectLine | api/processors/receipt_processor.py:241-243 | after the three passes a line holding DATE is wholly DATE, one holding ADDRESS is wholly ADDRESS, and no quantity word is an item name or a price |
| ApiReceipt.ExtractDate | api/processors/receipt_processor.py:126-145 | the "DD/MM/YYYY" text shows the date of the first format that accepts the first date match in the joined words, and the current date when nothing matches or no format accepts |
| ApiReceipt.BackfillItemNames | api/processors/receipt_processor.py:187-190 | on a line with both ITEM_NAME and PRICE every O becomes ITEM_NAME and other labels stay; other lines are unchanged |
| ApiReceipt.ExtractAddress | api/processors/receipt_processor.py:192-195 | the first address found is kept; otherwise an ADDRESS line gives its words joined by spaces; otherwise none |
| ApiReceipt.IntegerPrices | api/processors/receipt_processor.py:156-161 | only words of the line that `int()` accepts are price candidates |
| ApiReceipt.IntegerPricesSplits | api/processors/receipt_processor.py:156-161 | the integer PRICE words of a line cut in two are those of each part in order; a lone pair gives its word exactly when it is labelled PRICE and `int()` accepts it |
| ApiReceipt.IntegerPricesEmpty | api/processors/receipt_processor.py:156-161 | a line has no price candidates exactly when no word paired with PRICE is an integer |
| ApiReceipt.IntegerPricesLast | api/processors/receipt_processor.py:156-163 | the last price candidate is the word at the last position labelled PRICE that `int()` accepts |
| ApiReceipt.LastPrice | api/processors/receipt_processor.py:156-163 | `prices[-1] if prices else None`: none exactly when no PRICE word is an integer, otherwise the value of the word at the last such position |
| ApiReceipt.ExtractItems | api/processors/receipt_processor.py:147-182 | an item needs a non-empty name of the ITEM_NAME words and a price, the last integer PRICE word of the line or else of the next line in the list |
| ApiReceipt.AllLines | api/processors/receipt_processor.py:223-230 | every line, blank or not, is kept with the next predictions in turn |
| ApiReceipt.BackfillKeepsLine | api/processors/receipt_processor.py:245-248 | back-filling item names never turns a kept line into a noise line |
| ApiReceipt.KeptIndices | api/processors/receipt_processor.py:239-246 | the positions of the lines not skipped, increasing, each one not skipped, none missed |
| ApiReceipt.FirstKept | api/processors/receipt_processor.py:245-246 | the first kept position is the first line not skipped |
| ApiReceipt.Survivors | api/processors/receipt_processor.py:237-250 | the lines the main loop keeps, in order, with their corrected and back-filled labels |
| ApiReceipt.ItemsFrom | api/processors/receipt_processor.py:255-257 | exactly one item per surviving ITEM_NAME line that yields one, in line order, each read against the next surviving line, and every item name non-empty |
| ApiReceipt.AddressOf | api/processors/receipt_processor.py:252 | folding `extract_address` over the survivors keeps an address once found |
| ApiReceipt.AddressOfFirst | api/processors/receipt_processor.py:252 | starting from none, the address is the first surviving ADDRESS line's words joined by spaces, none when there is no such line |
| ApiReceipt.FirstSurvivor | api/processors/receipt_processor.py:253 | the first survivor is the first line not skipped, and there is none only when every line is skipped |
| ApiReceipt.ProcessReceipt | api/processors/receipt_processor.py:197-259 | the total comes from the upper-cased text with newlines as spaces, the date from the first survivor (none without one), and the address from the first surviving ADDRESS line; the items come from the survivors |
| EntityReceipt.PricePatternIsRoundPrice | api/processors/receipt_processor_old.py:45 | `^\d+(00\|000)$` accepts exactly the digit strings of length three or more ending in "00", a single final newline allowed |
| EntityReceipt.RoundPriceIsInteger | api/processors/receipt_processor_old.py:167 | a price that passes the filter is read by `int()` as the digits it is written with |
| EntityReceipt.FilterItemPrices | api/processors/receipt_processor_old.py:30-49 | every entity kept comes from the line; every kept ITEM_PRICE is a round digit string; every other entity and every round one is kept |
| EntityReceipt.FilterItemNames | api/processors/receipt_processor_old.py:51-93 | every entity kept comes from the line; no kept ITEM_NAME contains a stop word (case-insensitively) or matches a quantity; every other entity, and every ITEM_NAME passing both tests, is kept |
| EntityReceipt.FilterLine | api/processors/receipt_processor_old.py:197-200 | after both filters every entity comes from the line, every price is round and every name passes; every entity passing both filters is kept |
| EntityReceipt.FilterLineIdempotent | api/processors/receipt_processor_old.py:197-200 | a filtered line passes both filters again unchanged |
| EntityReceipt.FilterItemPricesSplits | api/processors/receipt_processor_old.py:30-49 | `filter_item_prices` keeps order: empty stays empty, it distributes over concatenation, and a single entity is kept iff it is not an ITEM_PRICE or is a round price |
| EntityReceipt.FilterItemNamesSplits | api/processors/receipt_processor_old.py:51-93 | `filter_item_names` keeps order: empty stays empty, it distributes over concatenation, and a single entity is kept iff it is not an ITEM_NAME or has no stop word and is no quantity |
| EntityReceipt.FilterLineSplits | api/processors/receipt_processor_old.py:197-200 | both filters together keep order, distribute over concatenation, and keep a single entity iff it passes both |
| EntityReceipt.TokenDate | api/processors/receipt_processor_old.py:134-136 | a token has a first date exactly when the pattern matches somewhere in it; that date is date-shaped and is the match at the leftmost position where the pattern matches |
| EntityReceipt.DateOf | api/processors/receipt_processor_old.py:120-140 | `get_date_entities` gives a date-shaped string or today's date as "%d/%m/%Y" |
| EntityReceipt.DateOfFirstDatedToken | api/processors/receipt_processor_old.py:131-140 | the date is the first date of the first token holding one, and today's date when no token holds one |
| EntityReceipt.LastAt | api/processors/receipt_processor_old.py:161-165 | the loop's item name or price is the LAST entity with that label in the line |
| EntityReceipt.FirstAt | api/processors/receipt_processor_old.py:172-176 | the look-ahead takes the FIRST price of the next line |
| EntityReceipt.MakeItem | api/processors/receipt_processor_old.py:167 | `{"item": name, "price": int(price)}`, or the ValueError `int()` raises |
| EntityReceipt.FindItems | api/processors/receipt_processor_old.py:142-177 | on success exactly the item of each line that yields one, in line order; it fails iff some line raises, with the first such line's error |
| EntityReceipt.LineItem | api/processors/receipt_processor_old.py:157-176 | no item exactly when the line has no truthy ITEM_NAME, or no truthy ITEM_PRICE and the next line has no ITEM_PRICE; the name is the last ITEM_NAME; the price is `int()` of the last truthy ITEM_PRICE, else of the next line's first ITEM_PRICE; raises exactly when `int()` rejects that price |
| EntityReceipt.RoundPriceIsHundreds | api/processors/receipt_processor_old.py:45 | a price that passes the filter is a whole number of hundreds |
| EntityReceipt.FilteredLineNeverRaises | api/processors/receipt_processor_old.py:157-176 | on filtered lines no pass raises, and every item it yields has a round, non-negative price |
| EntityReceipt.FilteredItemsNeverRaise | api/processors/receipt_processor_old.py:216 | after the filters the item loop never raises, and every reported price is a whole number of hundreds |
| EntityReceipt.FilterLines | api/processors/receipt_processor_old.py:197-200 | both filters applied to each line, the number of lines kept, and every price afterwards round |
| EntityReceipt.AddressOf | api/processors/receipt_processor_old.py:205-214 | the text of the first entity of the first line holding an ADDRESS-like label, whatever that entity's own label; none when no line holds one |
| EntityReceipt.ProcessReceipt | api/processors/receipt_processor_old.py:179-219 | total, date, address and items as above, always a receipt, every item price a non-negative whole number of hundreds |
| TextLines.Slice | picbudget/picscan/utils/processors/extract_text.py:47-49 | `s[a:b]` is the slice when a <= b and empty otherwise |
| TextLines.RunsArePartition | picbudget/picscan/utils/processors/extract_text.py:39-54 | the intended lines cover the detections in order, each line's consecutive boxes inline and consecutive lines not; one line exactly when nothing breaks |
| TextLines.GroupLoopByPosition | picbudget/picscan/utils/processors/extract_text.py:48 | without repeated detections, looking up `temp` and `ocr_result[i]` by value gives their own positions |
| TextLines.LoopAtDropsLast | picbudget/picscan/utils/processors/extract_text.py:42-53 | the loop emits the texts of all intended lines but the last |
| TextLines.GroupInlineFixed | picbudget/picscan/utils/processors/extract_text.py:39-54 | the corrected grouping has at least one line, and exactly one when nothing breaks |
| TextLines.GroupLoop | picbudget/picscan/utils/processors/extract_text.py:42-53 | the loop emits one group per detection that breaks the line, whatever `temp` holds |
| TextLines.GroupInline | picbudget/picscan/utils/processors/extract_text.py:39-54 | as written, one group per line break: one fewer than the lines of the page, with or without repeated detections, and none exactly when nothing breaks |
| TextLines.RunsFromCount | picbudget/picscan/utils/processors/extract_text.py:39-54 | the page has one more line than it has breaks |
| TextLines.GroupInlineDropsFinalGroup | picbudget/picscan/utils/processors/extract_text.py:39-54 | `_group_inline` yields the corrected groups minus the last one; it yields nothing exactly when the page is a single line |
| TextLines.SingleDetectionDropped | picbudget/picscan/utils/processors/extract_text.py:41-42 | a single detection yields no line as written, and its lowercased text once corrected |
| TextLines.WithDatesAppends | picbudget/picscan/utils/processors/extract_text.py:30-31 | the dates end up after the line, each preceded by one space |
| TextLines.Preprocess | picbudget/picscan/utils/processors/extract_text.py:26-37 | the cleaned line has no whitespace at either end, only plain single spaces and no newline |
| TextLines.PreprocessIsWords | picbudget/picscan/utils/processors/extract_text.py:26-37 | the cleaned line is the words of the polished line, after the dates found on the raw line, joined by single spaces |
| TextLines.StripNonBlank | picbudget/picscan/utils/processors/extract_text.py:21 | only non-empty lines are kept, never more than were given |
| TextLines.StripNonBlankKeeps | picbudget/picscan/utils/processors/extract_text.py:21 | a string is kept exactly when it is non-empty and is the stripped form of some line |
| TextLines.AssembleLines | picbudget/picscan/utils/processors/extract_text.py:21-22 | the page text splits on newlines back into the kept lines, lowercased; with no kept line it is "" |
| TextLines.ExtractText | picbudget/picscan/utils/processors/extract_text.py:11-24 | "" when the OCR found nothing on the page |
| TextLines.ExtractTextFixed | picbudget/picscan/utils/processors/extract_text.py:18-24 | the corrected `extract_text` is "" when the OCR found nothing |
| TextLines.OneLinePageIsEmpty | picbudget/picscan/utils/processors/extract_text.py:18-22 | a page whose detections all lie on one line yields "" as written |
| Rectify.ArgMin | picbudget/picscan/utils/processors/image_processing.py:157 | `np.argmin` is the first position of the smallest key |
| Rectify.ArgMax | picbudget/picscan/utils/processors/image_processing.py:158 | `np.argmax` is the first position of the largest key |
| Rectify.FirstMaxUnique | picbudget/picscan/utils/processors/image_processing.py:132 | at most one position is the first of largest key |
| Rectify.OrderCorners | picbudget/picscan/utils/processors/image_processing.py:147-162 | top-left is the first point of least x+y, top-right of least y−x, bottom-right of greatest x+y, bottom-left of greatest y−x |
| Rectify.OrderCornersOfRectangle | api/processors/page_extractor.py:101-110 | the corners of an axis-aligned rectangle, listed in any order, come out top-left, top-right, bottom-right, bottom-left |
| Rectify.Trunc | picbudget/picscan/utils/processors/image_processing.py:179 | `int()` of a non-negative length is its whole part |
| Rectify.WarpSize | picbudget/picscan/utils/processors/image_processing.py:169-180 | the output is the longer of each pair of opposite edges, truncated, plus the padding on both sides |
| Rectify.WarpSizeOlder | api/processors/page_extractor.py:113-119 | each edge is truncated first, then the longer of each pair taken, plus the padding on both sides |
| Rectify.WarpSizesAgree | api/processors/page_extractor.py:118-119 | both ways of computing the output size agree on every edge length |
| Rectify.Destination | picbudget/picscan/utils/processors/image_processing.py:182-190 | the destination corners are the output's corners moved `padding` pixels inwards |
| Rectify.DestinationInsideOutput | picbudget/picscan/utils/processors/image_processing.py:179-194 | with an inner size of at least one pixel, every destination corner lies inside the output image |
| Rectify.DestinationOrdered | api/processors/page_extractor.py:120-128 | with an inner size of at least two pixels, the destination corners are already in corner order |
| Rectify.CutImage | picbudget/picscan/utils/processors/image_processing.py:122-139 | no contours keep the original; otherwise the first contour of largest area decides, warping only when its approximation has four points |
| Rectify.CutPage | api/processors/page_extractor.py:78-88 | no contours keep the original; otherwise the first contour of largest area decides, warping only when its approximation has four points |
| Rectify.LargestContours | api/processors/page_extractor.py:80 | the stable reversed sort's first element is the first contour of largest area; none without contours |
| Rectify.ReceiptContour | api/processors/page_extractor.py:90-95 | the approximation of the first contour with four points, none exactly when no contour has four |
| Rectify.CutEnginesAgree | api/processors/page_extractor.py:78-88 | both engines decide alike on every list of contours |
| Pipeline.Binarize | picbudget/picscan/utils/processors/image_processing.py:200-212 | the threshold is last, with a gray conversion before it exactly for a three-dimensional image |
| Pipeline.ImageSteps | picbudget/picscan/utils/processors/image_processing.py:44-71 | `ImageProcessor` resizes, grab-cuts and closes, and never removes the background |
| Pipeline.PageSteps | api/processors/page_extractor.py:26-38 | background removal happens exactly when the flag is "y", grab-cut exactly otherwise; the steps start with the resize and end with the threshold |
| Pipeline.EnginesRunSameSteps | api/processors/page_extractor.py:28-32 | with any flag but "y" both engines run the same operations in the same order |
| Pipeline.LoadImage | api/processors/page_extractor.py:18-24 | a non-empty path wins over an array; with neither, loading fails |
| Pipeline.NewProcessor | picbudget/picscan/utils/processors/image_processing.py:24-28 | a new `ImageProcessor` keeps its image and has computed nothing yet |
| Pipeline.Preprocess | picbudget/picscan/utils/processors/image_processing.py:218-222 | the first call computes and stores the result; later calls return the stored one and change nothing |
| Pipeline.PreprocessIdempotent | picbudget/picscan/utils/processors/image_processing.py:218-222 | asking again returns the same image and leaves the processor unchanged |
| Pipeline.NewExtractor | api/processors/page_extractor.py:8-16 | the constructor fails exactly when loading fails, and otherwise stores the pipeline's result for the loaded image |
| Pipeline.EnginesKeepTheirResult | api/processors/page_extractor.py:148-149 | on every call both engines hand out the same result for the same image and pipeline |
| Wallets.NewWallet | picbudget/wallets/models/wallet.py:12-14 | a newly built wallet already has its primary key, and keeps its user and name |
| Wallets.CandidateDistinct | picbudget/wallets/models/wallet.py:26 | different counters give different names |
| Wallets.FreeCounter | picbudget/wallets/models/wallet.py:22-26 | the loop ends at the least counter from 2 whose name is free |
| Wallets.Dedup | picbudget/wallets/models/wallet.py:22-26 | the name stored is free; a free name is kept; a taken name becomes "name k" for the least free k from 2 |
| Wallets.SaveName | picbudget/wallets/models/wallet.py:20-27 | as written: a wallet without a primary key gets a name its user does not hold, its own when free; a wallet with a key keeps its name |
| Wallets.NewWalletKeepsTakenName | picbudget/wallets/models/wallet.py:21 | as written, a wallet built the usual way keeps a name its user already uses |
| Wallets.SecondDefaultWalletDuplicates | picbudget/wallets/models/wallet.py:20-27 | as written, a second "My Wallet" of the same user stays "My Wallet" |
| Wallets.SaveNameFixed | picbudget/wallets/models/wallet.py:20-27 | corrected: a first save stores a name the user does not hold, keeping it when free; later saves never rename |
| Wallets.OtherUsersIgnored | picbudget/wallets/models/wallet.py:24 | only the same user's wallets affect the name |
| Wallets.SecondDefaultWalletRenamed | picbudget/wallets/models/wallet.py:20-27 | corrected, a second "My Wallet" becomes "My Wallet 2" |
| Plans.MonthOf | picbudget/picplan/models/plan.py:49-53 | the month window holds a valid date exactly when it has today's year and month |
| Plans.MonthlyWindow | picbudget/picplan/models/plan.py:49-53 | as written, the monthly branch fails exactly in December, and otherwise gives the whole month |
| Plans.DecemberHasNoMonthlyWindow | picbudget/picplan/models/plan.py:51-52 | a monthly plan asked for its progress in December fails |
| Plans.MonthlyWindowFixed | picbudget/picplan/models/plan.py:49-53 | corrected, every month, December included, gets its whole-month window |
| Plans.WeeklyWindow | picbudget/picplan/models/plan.py:54-56 | when the dates exist, the window runs from a Monday to the Sunday six days later and holds today |
| Plans.WeeklyWindowIsTheWeek | picbudget/picplan/models/plan.py:54-56 | a valid date falls in the weekly window exactly when it has the same Monday as today |
| Plans.YearlyWindow | picbudget/picplan/models/plan.py:57-59 | the yearly window holds a valid date exactly when it has today's year |
| Plans.PlanWindow | picbudget/picplan/models/plan.py:49-61 | periods other than monthly, weekly and yearly count every date; monthly fails in December; the other branches give their windows |
| Plans.RangeDropsLastDay | picbudget/picplan/models/plan.py:67-70 | the range keeps only moments inside the window; of those it drops exactly the ones after midnight on its last day |
| Plans.MonthEndPurchaseMissed | picbudget/picplan/models/plan.py:67-70 | a purchase at noon on 31 May is outside May's monthly range |
| Plans.Spent | picbudget/picplan/models/plan.py:63-74 | the aggregate counts a transaction once per plan label it carries, and is 0 with no rows |
| Plans.SpentFixed | picbudget/picplan/models/plan.py:63-74 | corrected, each counted transaction adds its amount once |
| Plans.SpentAgrees | picbudget/picplan/models/plan.py:63-74 | the two sums agree when no transaction carries two plan labels and the two filters agree |
| Plans.SpentSplits | picbudget/picplan/models/plan.py:63-74 | both sums are 0 with no rows, add over concatenated rows, and a single row counts its amount once per plan label it carries as written (when its wallet and date match), once when fixed |
| Plans.SpentOvercounts | picbudget/picplan/models/plan.py:63-66 | where the two date filters agree on every row, the as-written sum is the fixed sum plus, for every joined row, its amount times one less than the number of plan labels it carries |
| Plans.TwoLabelsCountTwice | picbudget/picplan/models/plan.py:63-66 | a 25.00 purchase with two of the plan's labels counts as 50.00 |
| Plans.RoundHalfEven | picbudget/picplan/models/plan.py:76 | Decimal rounding gives an integer within half a unit of n/d, and the even one on a tie |
| Plans.RoundHalfEvenUnique | picbudget/picplan/models/plan.py:76 | only one integer satisfies that rounding contract |
| Plans.Progress | picbudget/picplan/models/plan.py:75-76 | 0 for a non-positive amount; otherwise the rounded percentage in hundredths |
| Plans.OverspentIff | picbudget/picplan/models/plan.py:78-79 | overspent exactly when the amount is positive and spending exceeds it by more than half a hundredth of a percent |
| Plans.OverspentSpendsMore | picbudget/picplan/models/plan.py:78-79 | overspending needs more spent than planned |
| Plans.CalculateProgress | picbudget/picplan/models/plan.py:45-76 | fails exactly when the window fails; otherwise the progress of the sum over the window |
| Plans.IsOverspent | picbudget/picplan/models/plan.py:78-79 | fails where `calculate_progress` fails, otherwise true exactly when the progress exceeds 100.00 |
| Plans.CalculateProgressFixed | picbudget/picplan/models/plan.py:45-76 | corrected: fails only on date overflow, using whole months and days and each transaction once |
| Plans.MonthEndProgress | picbudget/picplan/models/plan.py:67-76 | 25.00 spent on 31 May against a 100.00 plan shows 0 as written and 25.00 percent corrected |
| Otp.NewRecord | picbudget/authentication/models/otp.py:8-9 | a new record has neither code nor expiry |
| Otp.CodeOf | picbudget/authentication/models/otp.py:15 | one digit per draw, each reading back as its draw |
| Otp.CodeOfInjective | picbudget/authentication/models/otp.py:15 | different draws give different codes |
| Otp.Generate | picbudget/authentication/models/otp.py:14-18 | the returned code has six digits; the record stores it with an expiry five minutes after now |
| Otp.Validate | picbudget/authentication/models/otp.py:20-22 | true exactly when the code matches and the expiry is later than now; a matching code with no expiry raises |
| Otp.FreshRecordRejects | picbudget/authentication/models/otp.py:20-22 | a record never issued a code accepts nothing |
| Otp.IssuedCodeAccepted | picbudget/authentication/models/otp.py:14-22 | a code issued at t is accepted exactly before t plus five minutes |
| Otp.OtherCodeRejected | picbudget/authentication/models/otp.py:22 | any other input is refused, whatever the time |
| Otp.ReissueReplaces | picbudget/authentication/models/otp.py:15-16 | issuing again replaces code and expiry: only the new code, under the new expiry, is accepted |
| Otp.OldCodeRevoked | picbudget/authentication/models/otp.py:15-16 | after a reissue with other draws the first code is refused |

## Left out

- The OCR engine, the Keras classifier with its tokenizer and 150-token padding, and the spaCy recogniser are not modelled. Their outputs (detections, predicted labels, entities) are inputs of the model.
- The pixel work of OpenCV, rembg and NumPy is not modelled: resizing, grab-cut, morphology, gray conversion, Canny, blur, adaptive threshold, contour finding and approximation, and the perspective transform. Each appears as a named step or as given contour data (area, approximation) and edge lengths.
- The division of the ordered corners by the resize ratio is not modelled, and neither is the `float32` rounding of corner coordinates. Edge lengths are exact reals.
- The OCR detector reports box coordinates and confidences as floats. The model takes the box coordinates as integers, so `_is_inline`'s tolerance test is on integer differences. The confidence is carried but never used, as in the code.
- `ImageProcessor`'s thread pool, lock and operation cache are left out: they change no result.
- The regular-expression scrubs of `_preprocess_text` (the currency marker, stray characters, single letters and digits, lone punctuation) are parameters. Date extraction and the final whitespace collapse are modelled.
- The newer engines' `re.search` of their date pattern and `strptime` are parameters. Only the older engines' date pattern is modelled.
- Decimal division runs in a 28-digit context; the model computes the percentage exactly before rounding.
- Plan, transaction and wallet storage is not modelled: the database is a list of rows, and `Plan.save`'s default wallets and labels are left out. `calculate_progress` does not filter on the transaction type, and neither does the model.
- Only ASCII digits and ASCII case are modelled. The underscores `int()` and `float()` accept between digits are not.
- Python's `\b`, `\d` and `\w` are Unicode-aware: `\d` also matches non-ASCII decimal digits, and `\b` treats every Unicode letter and digit as a word character. The modelled date pattern uses ASCII digits and ASCII word characters only.
- The `@lru_cache(maxsize=64)` on the newest engine's `extract_date` (picbudget/picscan/utils/processors/receipt_processor.py:135) is not modelled. Within one process, the date of a text that was seen before is the cached one. So the `datetime.now()` fallback, and the century used for two-digit years, stay frozen at the first call. The model takes the clock as a parameter of every call.
- Calendar.AddDays: only the successful case is characterised; the overflow case is not.
- Plans.WeeklyWindow: the failure case is not characterised. It needs a date in the last week of 9999, 27 to 31 December, where the Sunday `start + timedelta(days=6)` overflows.
- TextLines.GroupInlineDropsFinalGroup: requires that no detection repeats, because `list.index` looks detections up by value.
- Wallets.Dedup: the name's 50-character limit is not modelled.

## Findings

| source | as written | input that shows it | evidently intended | confidence | as-written member | corrected member |
|---|---|---|---|---|---|---|
| picbudget/picscan/utils/processors/receipt_processor.py:181-185 | a valid price is filtered by `float()`, then converted with `int()` | an item line whose PRICE word is "25.000" raises ValueError | take only the prices `int()` accepts, as the api engine does | not executed | PicscanReceipt.DottedPriceLineRaises | PicscanReceipt.ExtractItemsChecked |
| picbudget/picscan/utils/processors/extract_text.py:39-54 | a group is emitted only when the next detection breaks the line | a page of one detection, or any last line, is dropped | emit the last group too | not executed | TextLines.GroupInlineDropsFinalGroup | TextLines.GroupInlineFixed |
| picbudget/picplan/models/plan.py:51-53 | the month end is the first of month + 1, less a day | any day of December raises ValueError | the last day of the month, December included | not executed | Plans.DecemberHasNoMonthlyWindow | Plans.MonthlyWindowFixed |
| picbudget/picplan/models/plan.py:67-70 | a datetime field filtered with a date range | a purchase at 12:00 on 31 May is missed | include the whole last day | not executed | Plans.MonthEndPurchaseMissed | Plans.CalculateProgressFixed |
| picbudget/picplan/models/plan.py:63-66 | a label join summed without `distinct()` | a 25.00 purchase with two plan labels counts 50.00 | count each transaction once | not executed | Plans.TwoLabelsCountTwice | Plans.SpentFixed |
| picbudget/wallets/models/wallet.py:21 | renames only when `self.pk` is empty | a second "My Wallet" of the same user keeps the name, because the UUID key is set at construction | rename on the first save (`_state.adding`) | not executed | Wallets.SecondDefaultWalletDuplicates | Wallets.SaveNameFixed |
