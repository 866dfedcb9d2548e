/**
 * The newest engine's text extractor (`extract_text.py`): the OCR
 * detections of a page are grouped into visual lines, each line is
 * cleaned, and the cleaned lines are assembled into the page text.
 *
 * The OCR call is an input: a page is the detector's list of detections,
 * each a box with its recognised text and confidence. The clean-up steps
 * that rely on Unicode word characters and look-behind (the `rp` prefix
 * removal and the character, single-letter, stray-punctuation and
 * single-digit scrubbing) are passed in as two functions: `scrub` runs
 * before the dates are re-appended and `polish` after.
 */
module TextLines {
  import opened Wrappers
  import opened Text
  import opened Seqs
  import opened Geometry
  import DatePattern

  /** One OCR detection, `[box, (text, confidence)]`. */
  datatype Detection = Detection(box: Quad, text: string, confidence: int)

  /** The default of `_group_inline`'s `tolerance` parameter. */
  const DefaultTolerance: int := 15

  /** `_is_inline`: the top-left y values and the bottom-right y values each differ by at most `tolerance`. */
  predicate IsInline(a: Quad, b: Quad, tolerance: int) {
    Abs(a.p0.y - b.p0.y) <= tolerance && Abs(a.p2.y - b.p2.y) <= tolerance
  }

  /** Whether neighbouring detections are on one line from position `i` on. */
  predicate NoBreakFrom(ocr: seq<Detection>, tolerance: int, i: nat) {
    forall k :: i <= k < |ocr| && k >= 1 ==> IsInline(ocr[k - 1].box, ocr[k].box, tolerance)
  }

  /** Whether the detections from `lo` up to `hi` are on one line. */
  predicate InlineBetween(ocr: seq<Detection>, tolerance: int, lo: nat, hi: nat) {
    forall k :: lo < k < hi && k < |ocr| ==> IsInline(ocr[k - 1].box, ocr[k].box, tolerance)
  }

  lemma InlineBetweenStep(ocr: seq<Detection>, tolerance: int, lo: nat, i: nat)
    requires lo < i < |ocr| && InlineBetween(ocr, tolerance, lo, i)
    requires IsInline(ocr[i - 1].box, ocr[i].box, tolerance)
    ensures InlineBetween(ocr, tolerance, lo, i + 1)
  {
  }

  /** The text of a group: the detections' texts joined by single spaces, lowercased. */
  function GroupText(group: seq<Detection>): string {
    Lower(Join(" ", seq(|group|, k requires 0 <= k < |group| => group[k].text)))
  }

  /** The text of each group, in order. */
  function Groups(runs: seq<seq<Detection>>): seq<string> {
    seq(|runs|, k requires 0 <= k < |runs| => GroupText(runs[k]))
  }

  /** Python's `s[a:b]` for `0 <= a` and `b <= len(s)`: empty when `a > b`. */
  function Slice<T>(s: seq<T>, a: nat, b: nat): (r: seq<T>)
    requires b <= |s|
    ensures a <= b ==> r == s[a..b]
    ensures a > b ==> r == []
  {
    if a <= b then s[a..b] else []
  }

  /*
   * Grouping as written. `temp` is the detection that opened the current
   * group; a group is appended only when the next detection breaks the
   * line, and its members are located with `list.index`.
   */

  /** The number of detections from position `i` on that break the line, i.e. are not inline with their predecessor. */
  function Breaks(ocr: seq<Detection>, tolerance: int, i: nat): (n: nat)
    requires 1 <= i <= |ocr|
    ensures n == 0 <==> NoBreakFrom(ocr, tolerance, i)
    ensures n <= |ocr| - i
    decreases |ocr| - i
  {
    if i == |ocr| then 0
    else
      NoBreakFromStep(ocr, tolerance, i);
      (if IsInline(ocr[i - 1].box, ocr[i].box, tolerance) then 0 else 1) + Breaks(ocr, tolerance, i + 1)
  }

  /** The loop of `_group_inline` from position `i`: one group per break, whatever `temp` is. */
  function GroupLoop(ocr: seq<Detection>, tolerance: int, i: nat, temp: Detection): (r: seq<string>)
    requires 1 <= i <= |ocr| && temp in ocr
    ensures |r| == Breaks(ocr, tolerance, i)
    decreases |ocr| - i
  {
    if i == |ocr| then []
    else if !IsInline(ocr[i - 1].box, ocr[i].box, tolerance) then
      var group := Slice(ocr, IndexOf(ocr, temp), IndexOf(ocr, ocr[i]));
      [GroupText(group)] + GroupLoop(ocr, tolerance, i + 1, ocr[i])
    else
      GroupLoop(ocr, tolerance, i + 1, temp)
  }

  /**
   * `_group_inline` as written: the caller never passes an empty list. It
   * yields one group per line break, which is one fewer than the page has
   * lines, repeated detections or not; so nothing when nothing breaks.
   */
  function GroupInline(ocr: seq<Detection>, tolerance: int): (r: seq<string>)
    requires |ocr| > 0
    ensures |r| == Breaks(ocr, tolerance, 1)
    ensures |r| + 1 == |GroupInlineFixed(ocr, tolerance)|
    ensures |r| == 0 <==> NoBreakFrom(ocr, tolerance, 1)
  {
    RunsFromCount(ocr, tolerance, 0, 1);
    GroupLoop(ocr, tolerance, 1, ocr[0])
  }

  /*
   * Grouping as intended: the maximal runs of neighbouring detections
   * that are on one line, the last run included.
   */

  /** The runs of `ocr[start..]`, when `ocr[start..i]` is already known to be on one line. */
  function RunsFrom(ocr: seq<Detection>, tolerance: int, start: nat, i: nat): (r: seq<seq<Detection>>)
    requires start < i <= |ocr|
    ensures |r| > 0
    decreases |ocr| - i
  {
    if i == |ocr| then [ocr[start..]]
    else if IsInline(ocr[i - 1].box, ocr[i].box, tolerance) then RunsFrom(ocr, tolerance, start, i + 1)
    else [ocr[start..i]] + RunsFrom(ocr, tolerance, i, i + 1)
  }

  function Runs(ocr: seq<Detection>, tolerance: int): seq<seq<Detection>>
    requires |ocr| > 0
  {
    RunsFrom(ocr, tolerance, 0, 1)
  }

  /** Neighbours inside `run` are on one line. */
  predicate InlineRun(run: seq<Detection>, tolerance: int) {
    forall m :: 1 <= m < |run| ==> IsInline(run[m - 1].box, run[m].box, tolerance)
  }

  /**
   * `runs` splits a page into lines: no run is empty, neighbours inside a
   * run are on one line, and the last detection of a run and the first of
   * the next are not.
   */
  predicate IsLinePartition(runs: seq<seq<Detection>>, tolerance: int) {
    && (forall k :: 0 <= k < |runs| ==> |runs[k]| > 0 && InlineRun(runs[k], tolerance))
    && (forall k, m :: 0 <= k < |runs| && 0 <= m < |runs| && m == k + 1 && |runs[k]| > 0 && |runs[m]| > 0 ==>
          !IsInline(runs[k][|runs[k]| - 1].box, runs[m][0].box, tolerance))
  }

  /** `_group_inline` as intended: every line's text, the last one included. */
  function GroupInlineFixed(ocr: seq<Detection>, tolerance: int): (r: seq<string>)
    requires |ocr| > 0
    ensures |r| >= 1
    ensures |r| == 1 <==> NoBreakFrom(ocr, tolerance, 1)
  {
    RunsArePartition(ocr, tolerance);
    Groups(Runs(ocr, tolerance))
  }

  lemma ConcatCons<T>(x: seq<T>, xs: seq<seq<T>>)
    ensures Concat([x] + xs) == x + Concat(xs)
  {
    assert ([x] + xs)[1..] == xs;
  }

  /** Putting a line in front of a partition whose first run it does not join gives a partition. */
  lemma PartitionCons(run: seq<Detection>, rest: seq<seq<Detection>>, tolerance: int)
    requires |run| > 0 && InlineRun(run, tolerance)
    requires |rest| > 0 && IsLinePartition(rest, tolerance)
    requires !IsInline(run[|run| - 1].box, rest[0][0].box, tolerance)
    ensures IsLinePartition([run] + rest, tolerance)
  {
    var runs := [run] + rest;
    assert forall k :: 1 <= k < |runs| ==> runs[k] == rest[k - 1];
  }

  /** A slice whose neighbours are known to be on one line is an inline run. */
  lemma SliceIsInlineRun(ocr: seq<Detection>, tolerance: int, start: nat, end: nat)
    requires start <= end <= |ocr|
    requires forall k :: start < k < end ==> IsInline(ocr[k - 1].box, ocr[k].box, tolerance)
    ensures InlineRun(ocr[start..end], tolerance)
  {
    var run := ocr[start..end];
    assert forall m :: 0 <= m < |run| ==> run[m] == ocr[start + m];
  }

  /** One inline run on its own is a partition of itself. */
  lemma SingleRunPartition(run: seq<Detection>, tolerance: int)
    requires |run| > 0 && InlineRun(run, tolerance)
    ensures IsLinePartition([run], tolerance) && Concat([run]) == run
  {
    ConcatCons(run, []);
    assert [run] + [] == [run];
  }

  /** The runs from `start` cover `ocr[start..]` in order, the first one starting at `start`. */
  lemma {:induction false} RunsFromCover(ocr: seq<Detection>, tolerance: int, start: nat, i: nat)
    requires start < i <= |ocr|
    ensures var runs := RunsFrom(ocr, tolerance, start, i);
      |runs[0]| > 0 && runs[0][0] == ocr[start] && Concat(runs) == ocr[start..]
    decreases |ocr| - i
  {
    var runs := RunsFrom(ocr, tolerance, start, i);
    if i == |ocr| {
      ConcatCons(ocr[start..], []);
      assert runs == [ocr[start..]] + [];
    } else if IsInline(ocr[i - 1].box, ocr[i].box, tolerance) {
      RunsFromCover(ocr, tolerance, start, i + 1);
    } else {
      var run, rest := ocr[start..i], RunsFrom(ocr, tolerance, i, i + 1);
      RunsFromCover(ocr, tolerance, i, i + 1);
      assert runs == [run] + rest;
      ConcatCons(run, rest);
      assert run + ocr[i..] == ocr[start..];
    }
  }

  /** The runs from `start` split the page into lines. */
  lemma {:induction false} RunsFromPartition(ocr: seq<Detection>, tolerance: int, start: nat, i: nat)
    requires start < i <= |ocr|
    requires InlineBetween(ocr, tolerance, start, i)
    ensures IsLinePartition(RunsFrom(ocr, tolerance, start, i), tolerance)
    decreases |ocr| - i
  {
    if i == |ocr| {
      RunsFromLastStep(ocr, tolerance, start);
    } else if IsInline(ocr[i - 1].box, ocr[i].box, tolerance) {
      InlineBetweenStep(ocr, tolerance, start, i);
      RunsFromPartition(ocr, tolerance, start, i + 1);
      assert RunsFrom(ocr, tolerance, start, i) == RunsFrom(ocr, tolerance, start, i + 1);
    } else {
      RunsFromPartition(ocr, tolerance, i, i + 1);
      RunsFromBreakStep(ocr, tolerance, start, i);
    }
  }

  /** The step of `RunsFromPartition` at the end of the page: one run, the rest of the page. */
  lemma RunsFromLastStep(ocr: seq<Detection>, tolerance: int, start: nat)
    requires start < |ocr|
    requires InlineBetween(ocr, tolerance, start, |ocr|)
    ensures IsLinePartition(RunsFrom(ocr, tolerance, start, |ocr|), tolerance)
  {
    SliceIsInlineRun(ocr, tolerance, start, |ocr|);
    SingleRunPartition(ocr[start..], tolerance);
    assert RunsFrom(ocr, tolerance, start, |ocr|) == [ocr[start..]];
  }

  /** The step of `RunsFromPartition` where detection `i` breaks the line. */
  lemma RunsFromBreakStep(ocr: seq<Detection>, tolerance: int, start: nat, i: nat)
    requires start < i < |ocr|
    requires InlineBetween(ocr, tolerance, start, i)
    requires !IsInline(ocr[i - 1].box, ocr[i].box, tolerance)
    requires IsLinePartition(RunsFrom(ocr, tolerance, i, i + 1), tolerance)
    ensures IsLinePartition(RunsFrom(ocr, tolerance, start, i), tolerance)
  {
    var run, rest := ocr[start..i], RunsFrom(ocr, tolerance, i, i + 1);
    RunsFromCover(ocr, tolerance, i, i + 1);
    SliceIsInlineRun(ocr, tolerance, start, i);
    assert run[|run| - 1] == ocr[i - 1];
    PartitionCons(run, rest, tolerance);
    assert RunsFrom(ocr, tolerance, start, i) == [run] + rest;
  }

  /** The runs from `start` are one more than the breaks from `i` on. */
  lemma {:induction false} RunsFromCount(ocr: seq<Detection>, tolerance: int, start: nat, i: nat)
    requires start < i <= |ocr|
    ensures |RunsFrom(ocr, tolerance, start, i)| == 1 + Breaks(ocr, tolerance, i)
    decreases |ocr| - i
  {
    if i < |ocr| {
      if IsInline(ocr[i - 1].box, ocr[i].box, tolerance) {
        RunsFromCount(ocr, tolerance, start, i + 1);
      } else {
        RunsFromCount(ocr, tolerance, i, i + 1);
      }
    }
  }

  /** There is one run from `start` iff nothing breaks the line from `i` on. */
  lemma {:induction false} RunsFromSingle(ocr: seq<Detection>, tolerance: int, start: nat, i: nat)
    requires start < i <= |ocr|
    ensures |RunsFrom(ocr, tolerance, start, i)| == 1 <==> NoBreakFrom(ocr, tolerance, i)
    decreases |ocr| - i
  {
    if i == |ocr| {
      assert NoBreakFrom(ocr, tolerance, i);
    } else if IsInline(ocr[i - 1].box, ocr[i].box, tolerance) {
      RunsFromSingle(ocr, tolerance, start, i + 1);
      NoBreakFromStep(ocr, tolerance, i);
    } else {
      assert !NoBreakFrom(ocr, tolerance, i);
    }
  }

  /** Nothing breaks from `i` iff detection `i` continues the line and nothing breaks after it. */
  lemma NoBreakFromStep(ocr: seq<Detection>, tolerance: int, i: nat)
    requires 1 <= i < |ocr|
    ensures NoBreakFrom(ocr, tolerance, i) <==>
      IsInline(ocr[i - 1].box, ocr[i].box, tolerance) && NoBreakFrom(ocr, tolerance, i + 1)
  {
  }

  /** The intended groups come from runs that cover the page in order and split it into lines. */
  lemma RunsArePartition(ocr: seq<Detection>, tolerance: int)
    requires |ocr| > 0
    ensures var runs := Runs(ocr, tolerance);
      && |runs| > 0 && Concat(runs) == ocr && IsLinePartition(runs, tolerance)
      && (|runs| == 1 <==> NoBreakFrom(ocr, tolerance, 1))
  {
    RunsFromCover(ocr, tolerance, 0, 1);
    RunsFromPartition(ocr, tolerance, 0, 1);
    RunsFromSingle(ocr, tolerance, 0, 1);
    assert ocr[0..] == ocr;
  }

  /** Every element but the last. */
  function DropLast<T>(s: seq<T>): seq<T> {
    if |s| == 0 then [] else s[..|s| - 1]
  }

  lemma GroupsCons(run: seq<Detection>, rest: seq<seq<Detection>>)
    ensures Groups([run] + rest) == [GroupText(run)] + Groups(rest)
  {
  }

  /**
   * The loop of `GroupLoop` with the open group held by its position
   * `start` instead of by the detection found there.
   */
  function LoopAt(ocr: seq<Detection>, tolerance: int, i: nat, start: nat): seq<string>
    requires start < i <= |ocr|
    decreases |ocr| - i
  {
    if i == |ocr| then []
    else if !IsInline(ocr[i - 1].box, ocr[i].box, tolerance) then
      [GroupText(ocr[start..i])] + LoopAt(ocr, tolerance, i + 1, i)
    else
      LoopAt(ocr, tolerance, i + 1, start)
  }

  /** Without repeated detections, looking a detection up finds its own position, so the two loops agree. */
  lemma {:induction false} GroupLoopByPosition(ocr: seq<Detection>, tolerance: int, i: nat, start: nat)
    requires Distinct(ocr) && start < i <= |ocr|
    ensures GroupLoop(ocr, tolerance, i, ocr[start]) == LoopAt(ocr, tolerance, i, start)
    decreases |ocr| - i
  {
    if i < |ocr| {
      if IsInline(ocr[i - 1].box, ocr[i].box, tolerance) {
        GroupLoopByPosition(ocr, tolerance, i + 1, start);
        assert GroupLoop(ocr, tolerance, i, ocr[start]) == GroupLoop(ocr, tolerance, i + 1, ocr[start]);
        assert LoopAt(ocr, tolerance, i, start) == LoopAt(ocr, tolerance, i + 1, start);
      } else {
        GroupLoopByPosition(ocr, tolerance, i + 1, i);
        GroupLoopBreakAt(ocr, tolerance, i, start);
      }
    }
  }

  /** The step of `GroupLoopByPosition` where detection `i` breaks the line. */
  lemma GroupLoopBreakAt(ocr: seq<Detection>, tolerance: int, i: nat, start: nat)
    requires Distinct(ocr) && start < i < |ocr|
    requires !IsInline(ocr[i - 1].box, ocr[i].box, tolerance)
    requires GroupLoop(ocr, tolerance, i + 1, ocr[i]) == LoopAt(ocr, tolerance, i + 1, i)
    ensures GroupLoop(ocr, tolerance, i, ocr[start]) == LoopAt(ocr, tolerance, i, start)
  {
    IndexOfDistinct(ocr, start);
    IndexOfDistinct(ocr, i);
    assert Slice(ocr, IndexOf(ocr, ocr[start]), IndexOf(ocr, ocr[i])) == ocr[start..i];
  }

  /** The loop from `i`, holding position `start`, yields the groups of the runs from `start`, all but the last. */
  lemma {:induction false} LoopAtDropsLast(ocr: seq<Detection>, tolerance: int, start: nat, i: nat)
    requires start < i <= |ocr|
    requires InlineBetween(ocr, tolerance, start, i)
    ensures LoopAt(ocr, tolerance, i, start) == Groups(DropLast(RunsFrom(ocr, tolerance, start, i)))
    decreases |ocr| - i
  {
    if i == |ocr| {
      assert DropLast(RunsFrom(ocr, tolerance, start, i)) == [];
    } else if IsInline(ocr[i - 1].box, ocr[i].box, tolerance) {
      InlineBetweenStep(ocr, tolerance, start, i);
      LoopAtDropsLast(ocr, tolerance, start, i + 1);
      assert RunsFrom(ocr, tolerance, start, i) == RunsFrom(ocr, tolerance, start, i + 1);
    } else {
      LoopAtDropsLast(ocr, tolerance, i, i + 1);
      LoopAtBreakStep(ocr, tolerance, start, i);
    }
  }

  /** The step of `LoopAtDropsLast` where detection `i` breaks the line. */
  lemma LoopAtBreakStep(ocr: seq<Detection>, tolerance: int, start: nat, i: nat)
    requires start < i < |ocr|
    requires !IsInline(ocr[i - 1].box, ocr[i].box, tolerance)
    requires LoopAt(ocr, tolerance, i + 1, i) == Groups(DropLast(RunsFrom(ocr, tolerance, i, i + 1)))
    ensures LoopAt(ocr, tolerance, i, start) == Groups(DropLast(RunsFrom(ocr, tolerance, start, i)))
  {
    var runs, rest := RunsFrom(ocr, tolerance, start, i), RunsFrom(ocr, tolerance, i, i + 1);
    assert runs == [ocr[start..i]] + rest;
    assert DropLast(runs) == [ocr[start..i]] + DropLast(rest);
    GroupsCons(ocr[start..i], DropLast(rest));
  }

  /**
   * On a page without repeated detections, grouping as written yields
   * exactly the intended groups without the last one; so it yields
   * nothing when no neighbours break the line.
   */
  lemma GroupInlineDropsFinalGroup(ocr: seq<Detection>, tolerance: int)
    requires |ocr| > 0 && Distinct(ocr)
    ensures var fixed := GroupInlineFixed(ocr, tolerance);
      |fixed| >= 1 && GroupInline(ocr, tolerance) == fixed[..|fixed| - 1]
    ensures GroupInline(ocr, tolerance) == [] <==> NoBreakFrom(ocr, tolerance, 1)
  {
    GroupLoopByPosition(ocr, tolerance, 1, 0);
    LoopAtDropsLast(ocr, tolerance, 0, 1);
    RunsArePartition(ocr, tolerance);
    var runs := Runs(ocr, tolerance);
    assert Groups(DropLast(runs)) == Groups(runs)[..|runs| - 1];
  }

  /** A page with a single detection: as written nothing is grouped, as intended its text is. */
  lemma SingleDetectionDropped(d: Detection, tolerance: int)
    ensures GroupInline([d], tolerance) == []
    ensures GroupInlineFixed([d], tolerance) == [Lower(d.text)]
  {
    var runs := Runs([d], tolerance);
    assert runs == [[d]];
    assert seq(1, k requires 0 <= k < 1 => [d][k].text) == [d.text];
  }

  /*
   * Line clean-up.
   */

  /** The loop that appends each date found earlier, preceded by a space. */
  function WithDates(line: string, dates: seq<string>): string
    decreases |dates|
  {
    if |dates| == 0 then line else WithDates(line + " " + dates[0], dates[1..])
  }

  /** The dates end up after the line, separated from it and from each other by single spaces. */
  lemma {:induction false} WithDatesAppends(line: string, dates: seq<string>)
    ensures WithDates(line, dates) == if |dates| == 0 then line else line + " " + Join(" ", dates)
    decreases |dates|
  {
    if |dates| == 1 {
      assert WithDates(line, dates) == WithDates(line + " " + dates[0], []);
    } else if |dates| > 1 {
      var rest := dates[1..];
      WithDatesAppends(line + " " + dates[0], rest);
      assert dates == [dates[0]] + rest;
      JoinCons(" ", dates[0], rest);
      assert line + " " + dates[0] + " " + Join(" ", rest) == line + " " + (dates[0] + " " + Join(" ", rest));
    }
  }

  /**
   * `_preprocess_text`: the dates are found on the raw line, the line is
   * scrubbed, the dates are appended, the line is polished, and then its
   * whitespace is collapsed and stripped. The result has no whitespace at
   * either end, every whitespace character in it is a plain space, and no
   * two of them are adjacent.
   */
  function Preprocess(line: string, scrub: string -> string, polish: string -> string): (r: string)
    ensures |r| == 0 || (!IsSpace(r[0]) && !IsSpace(r[|r| - 1]))
    ensures forall k :: 0 <= k < |r| && IsSpace(r[k]) ==> r[k] == ' '
    ensures NoDoubleSpace(r)
    ensures '\n' !in r
  {
    var r := Collapse(polish(WithDates(scrub(line), DatePattern.FindAll(line))));
    assert forall k :: 0 <= k < |r| ==> r[k] != '\n';
    r
  }

  /** The cleaned line is the words of the polished line, after the dates, joined by single spaces. */
  lemma PreprocessIsWords(line: string, scrub: string -> string, polish: string -> string)
    ensures var dates := DatePattern.FindAll(line);
      var appended := if |dates| == 0 then scrub(line) else scrub(line) + " " + Join(" ", dates);
      Preprocess(line, scrub, polish) == Join(" ", Split(polish(appended)))
  {
    WithDatesAppends(scrub(line), DatePattern.FindAll(line));
    CollapseIsJoinOfSplit(polish(WithDates(scrub(line), DatePattern.FindAll(line))));
  }

  /*
   * Page assembly.
   */

  /** `[line.strip() for line in lines if line.strip()]`. */
  function StripNonBlank(lines: seq<string>): (r: seq<string>)
    ensures |r| <= |lines|
    ensures forall k :: 0 <= k < |r| ==> |r[k]| > 0
  {
    if |lines| == 0 then []
    else if Strip(lines[0]) != "" then [Strip(lines[0])] + StripNonBlank(lines[1..])
    else StripNonBlank(lines[1..])
  }

  /** A line that is not blank is kept, stripped. */
  lemma {:induction false} StripNonBlankHas(lines: seq<string>, j: nat)
    requires j < |lines| && Strip(lines[j]) != ""
    ensures Strip(lines[j]) in StripNonBlank(lines)
    decreases j
  {
    var first, rest := Strip(lines[0]), StripNonBlank(lines[1..]);
    if j == 0 {
      assert StripNonBlank(lines) == [first] + rest;
    } else {
      assert lines[1..][j - 1] == lines[j];
      StripNonBlankHas(lines[1..], j - 1);
      assert StripNonBlank(lines) == rest || StripNonBlank(lines) == [first] + rest;
    }
  }

  /** Every kept line is the stripped form of a line. */
  lemma {:induction false} StripNonBlankFrom(lines: seq<string>, x: string)
    requires x in StripNonBlank(lines)
    ensures exists j :: 0 <= j < |lines| && x == Strip(lines[j])
    decreases |lines|
  {
    if x != Strip(lines[0]) {
      StripNonBlankFrom(lines[1..], x);
      var j :| 0 <= j < |lines[1..]| && x == Strip(lines[1..][j]);
      assert x == Strip(lines[j + 1]);
    }
  }

  /** The kept lines are exactly the non-empty stripped lines. */
  lemma StripNonBlankKeeps(lines: seq<string>)
    ensures forall x :: x in StripNonBlank(lines) <==> x != "" && exists j :: 0 <= j < |lines| && x == Strip(lines[j])
  {
    forall x | x in StripNonBlank(lines)
      ensures x != "" && exists j :: 0 <= j < |lines| && x == Strip(lines[j])
    {
      StripNonBlankFrom(lines, x);
    }
    forall j | 0 <= j < |lines| && Strip(lines[j]) != ""
      ensures Strip(lines[j]) in StripNonBlank(lines)
    {
      StripNonBlankHas(lines, j);
    }
  }

  /** Every grouped line cleaned. */
  function Cleaned(groups: seq<string>, scrub: string -> string, polish: string -> string): seq<string> {
    seq(|groups|, k requires 0 <= k < |groups| => Preprocess(groups[k], scrub, polish))
  }

  /** The cleaned, non-blank lines of the grouped text. */
  function KeptLines(groups: seq<string>, scrub: string -> string, polish: string -> string): seq<string> {
    StripNonBlank(Cleaned(groups, scrub, polish))
  }

  /** The page text from its grouped lines: kept lines joined by newlines, lowercased. */
  function Assemble(groups: seq<string>, scrub: string -> string, polish: string -> string): string {
    Lower(Join("\n", KeptLines(groups, scrub, polish)))
  }

  /** No string of `xs` contains a newline. */
  predicate NoNewlines(xs: seq<string>) {
    forall k :: 0 <= k < |xs| ==> '\n' !in xs[k]
  }

  /** Stripping lines that have no newline leaves lines that have none. */
  lemma {:induction false} StripNonBlankNoNewline(lines: seq<string>)
    requires NoNewlines(lines)
    ensures NoNewlines(StripNonBlank(lines))
    decreases |lines|
  {
    if |lines| > 0 {
      StripNonBlankNoNewline(lines[1..]);
      StripWithin(lines[0], '\n');
      var rest := StripNonBlank(lines[1..]);
      if Strip(lines[0]) != "" {
        var r := [Strip(lines[0])] + rest;
        forall k | 0 <= k < |r|
          ensures '\n' !in r[k]
        {
          if k > 0 {
            assert r[k] == rest[k - 1];
          }
        }
      }
    }
  }

  /** The kept lines have no newline. */
  lemma KeptLinesNoNewline(groups: seq<string>, scrub: string -> string, polish: string -> string)
    ensures NoNewlines(KeptLines(groups, scrub, polish))
  {
    StripNonBlankNoNewline(Cleaned(groups, scrub, polish));
  }

  /** Lowercasing adds no newline. */
  lemma LowerEachNoNewline(xs: seq<string>)
    requires NoNewlines(xs)
    ensures NoNewlines(LowerEach(xs))
  {
    var lowered := LowerEach(xs);
    forall k | 0 <= k < |lowered|
      ensures '\n' !in lowered[k]
    {
      assert forall j :: 0 <= j < |xs[k]| ==> xs[k][j] != '\n';
      assert forall j :: 0 <= j < |lowered[k]| ==> lowered[k][j] == LowerChar(xs[k][j]);
    }
  }

  /**
   * The page text has one line per kept line: splitting it on newlines
   * gives back the kept lines, lowercased. With no kept line it is "".
   */
  lemma AssembleLines(groups: seq<string>, scrub: string -> string, polish: string -> string)
    ensures var kept := KeptLines(groups, scrub, polish);
      && (kept == [] ==> Assemble(groups, scrub, polish) == "")
      && (kept != [] ==> SplitOn(Assemble(groups, scrub, polish), '\n') == LowerEach(kept))
  {
    var kept := KeptLines(groups, scrub, polish);
    LowerJoin("\n", kept);
    assert Lower("\n") == "\n";
    if kept != [] {
      KeptLinesNoNewline(groups, scrub, polish);
      LowerEachNoNewline(kept);
      JoinSplitOnRoundTrip(LowerEach(kept), '\n');
    }
  }

  /** `extract_text` as written: "" when the OCR found nothing on the page. */
  function ExtractText(result: seq<Option<seq<Detection>>>, scrub: string -> string, polish: string -> string): (r: string)
    ensures |result| == 0 || result[0].None? || |result[0].value| == 0 ==> r == ""
  {
    if |result| == 0 || result[0].None? || |result[0].value| == 0 then ""
    else Assemble(GroupInline(result[0].value, DefaultTolerance), scrub, polish)
  }

  /** `extract_text` with every line of the page grouped, the last one included. */
  function ExtractTextFixed(result: seq<Option<seq<Detection>>>, scrub: string -> string, polish: string -> string): (r: string)
    ensures |result| == 0 || result[0].None? || |result[0].value| == 0 ==> r == ""
  {
    if |result| == 0 || result[0].None? || |result[0].value| == 0 then ""
    else Assemble(GroupInlineFixed(result[0].value, DefaultTolerance), scrub, polish)
  }

  /** A page whose detections all lie on one line yields "" as written. */
  lemma OneLinePageIsEmpty(page: seq<Detection>, scrub: string -> string, polish: string -> string)
    requires |page| > 0 && Distinct(page) && NoBreakFrom(page, DefaultTolerance, 1)
    ensures ExtractText([Some(page)], scrub, polish) == ""
  {
    GroupInlineDropsFinalGroup(page, DefaultTolerance);
    assert KeptLines([], scrub, polish) == [];
  }
}
