/**
 * The date pattern `\b\d{2}[./-]\d{2}[./-]\d{2,4}\b` that the entity
 * engine and the OCR text cleaner both search for: two digits, a
 * separator, two digits, a separator and a two- to four-digit year,
 * standing between word boundaries. Word characters are the ASCII ones.
 */
module DatePattern {
  import opened Wrappers
  import opened Text
  import opened Numbers

  predicate IsDateSeparator(c: char) {
    c == '.' || c == '/' || c == '-'
  }

  /** Two digits, a separator, two digits, a separator, then two to four digits. */
  predicate DateShaped(d: string) {
    && 8 <= |d| <= 10
    && IsDigit(d[0]) && IsDigit(d[1]) && IsDateSeparator(d[2])
    && IsDigit(d[3]) && IsDigit(d[4]) && IsDateSeparator(d[5])
    && AllDigits(d[6..])
  }

  /** `\b` at position `i`, next to a word character on the right or the left. */
  predicate WordBoundaryBefore(t: string, i: nat)
    requires i <= |t|
  {
    i == 0 || !IsWordChar(t[i - 1])
  }

  predicate WordBoundaryAfter(t: string, i: nat)
    requires i <= |t|
  {
    i == |t| || !IsWordChar(t[i])
  }

  /** The pattern `\b\d{2}[./-]\d{2}[./-]\d{2,4}\b` matches the `n` characters of `t` at `i`. */
  predicate DateMatches(t: string, i: nat, n: nat) {
    i + n <= |t| && WordBoundaryBefore(t, i) && DateShaped(t[i..i + n]) && WordBoundaryAfter(t, i + n)
  }

  /** The length of the pattern's match at `i`: the year takes the whole run of digits, which must be two to four long. */
  function DateMatchAt(t: string, i: nat): (r: Option<nat>)
    requires i <= |t|
    ensures r.Some? ==> 8 <= r.value <= 10 && i + r.value <= |t|
  {
    if i + 8 <= |t| && WordBoundaryBefore(t, i)
      && IsDigit(t[i]) && IsDigit(t[i + 1]) && IsDateSeparator(t[i + 2])
      && IsDigit(t[i + 3]) && IsDigit(t[i + 4]) && IsDateSeparator(t[i + 5])
    then
      var e := DigitRunEnd(t, i + 6);
      if 2 <= e - (i + 6) <= 4 && WordBoundaryAfter(t, e) then Some(e - i) else None
    else None
  }

  /** The scan finds a match of length `n` at `i` exactly when the pattern matches there with that length. */
  lemma DateMatchAtIsMatch(t: string, i: nat, n: nat)
    requires i <= |t|
    ensures DateMatchAt(t, i) == Some(n) <==> DateMatches(t, i, n)
  {
    if DateMatchAt(t, i) == Some(n) {
      var d := t[i..i + n];
      assert forall k :: 0 <= k < n - 6 ==> d[6..][k] == t[i + 6 + k];
    }
    if DateMatches(t, i, n) {
      var d := t[i..i + n];
      assert forall k :: 0 <= k < n - 6 ==> d[6..][k] == t[i + 6 + k];
      DigitRunEndAt(t, i + 6, i + n);
    }
  }

  /** The leftmost position at or after `i` where the pattern matches. */
  function FirstDateAt(t: string, i: nat): (r: Option<nat>)
    requires i <= |t|
    ensures r.None? ==> forall p :: i <= p <= |t| ==> DateMatchAt(t, p).None?
    ensures r.Some? ==> i <= r.value <= |t| && DateMatchAt(t, r.value).Some?
    ensures r.Some? ==> forall p :: i <= p < r.value ==> DateMatchAt(t, p).None?
    decreases |t| - i
  {
    if DateMatchAt(t, i).Some? then Some(i)
    else if i == |t| then None
    else FirstDateAt(t, i + 1)
  }

  /** The pattern matches at no position from `lo` up to, not including, `hi`. */
  ghost predicate NoMatchIn(t: string, lo: nat, hi: nat) {
    forall q :: lo <= q < hi && q <= |t| ==> DateMatchAt(t, q).None?
  }

  /** Each `r[k]` is the pattern's match at `ps[k]`. */
  ghost predicate MatchesAt(t: string, r: seq<string>, ps: seq<nat>) {
    && |ps| == |r|
    && forall k :: 0 <= k < |r| ==> (ps[k] + |r[k]| <= |t| && DateMatchAt(t, ps[k]) == Some(|r[k]|)
         && r[k] == t[ps[k]..ps[k] + |r[k]|])
  }

  /** No match overlaps the one before, and none starts in the gap between two. */
  ghost predicate GapsClear(t: string, r: seq<string>, ps: seq<nat>)
    requires |ps| == |r|
  {
    forall k :: 0 < k < |r| ==> ps[k - 1] + |r[k - 1]| <= ps[k] && NoMatchIn(t, ps[k - 1] + |r[k - 1]|, ps[k])
  }

  /** No match starts from `i` before the first one, nor after the last one ends. */
  ghost predicate EndsClear(t: string, i: nat, r: seq<string>, ps: seq<nat>)
    requires |ps| == |r|
  {
    && (|r| == 0 ==> NoMatchIn(t, i, |t| + 1))
    && (|r| > 0 ==> i <= ps[0] && NoMatchIn(t, i, ps[0]) && NoMatchIn(t, ps[|r| - 1] + |r[|r| - 1]|, |t| + 1))
  }

  /**
   * `r` lists the matches of a left-to-right scan from `i` that starts
   * match `k` at `ps[k]`: each is the pattern's match there, none overlaps
   * the one before, and no match starts before the first, in a gap
   * between two, or after the last one ends.
   */
  ghost predicate Scanned(t: string, i: nat, r: seq<string>, ps: seq<nat>) {
    MatchesAt(t, r, ps) && GapsClear(t, r, ps) && EndsClear(t, i, r, ps)
  }

  /**
   * `re.findall(pattern, t)`, the search starting at `i`: the matches from
   * left to right, each search resuming where the previous match ended.
   */
  function FindAllFrom(t: string, i: nat): (r: seq<string>)
    requires i <= |t|
    ensures exists ps :: Scanned(t, i, r, ps)
    decreases |t| - i
  {
    match FirstDateAt(t, i)
    case None =>
      assert Scanned(t, i, [], []);
      []
    case Some(p) =>
      var n := DateMatchAt(t, p).value;
      DateMatchAtIsMatch(t, p, n);
      var e := p + n;
      var rest := FindAllFrom(t, e);
      ScanStep(t, i, p, n, e, t[p..e], rest);
      [t[p..e]] + rest
  }

  /** A match at the leftmost position from `i`, followed by a scan from its end `e`, is a scan from `i`. */
  lemma {:induction false} ScanStep(t: string, i: nat, p: nat, n: nat, e: nat, d: string, rest: seq<string>)
    requires i <= p && e == p + n <= |t| && d == t[p..e] && FirstDateAt(t, i) == Some(p) && DateMatchAt(t, p) == Some(n)
    requires exists ps' :: Scanned(t, e, rest, ps')
    ensures exists ps :: Scanned(t, i, [d] + rest, ps)
  {
    var ps' :| Scanned(t, e, rest, ps');
    ScanStepWith(t, i, p, n, d, rest, ps');
  }

  /** The step of `ScanStep` for a given list `ps'` of the later matches' positions. */
  lemma ScanStepWith(t: string, i: nat, p: nat, n: nat, d: string, rest: seq<string>, ps': seq<nat>)
    requires i <= p && p + n <= |t| && d == t[p..p + n] && FirstDateAt(t, i) == Some(p) && DateMatchAt(t, p) == Some(n)
    requires Scanned(t, p + n, rest, ps')
    ensures Scanned(t, i, [d] + rest, [p] + ps')
  {
    assert MatchesAt(t, rest, ps') && GapsClear(t, rest, ps') && EndsClear(t, p + n, rest, ps');
    ScanStepMatches(t, p, n, d, rest, ps');
    ScanStepGaps(t, p, n, d, rest, ps');
    ScanStepEnds(t, i, p, n, d, rest, ps');
  }

  lemma {:induction false} ScanStepMatches(t: string, p: nat, n: nat, d: string, rest: seq<string>, ps': seq<nat>)
    requires p + n <= |t| && d == t[p..p + n] && DateMatchAt(t, p) == Some(n) && MatchesAt(t, rest, ps')
    ensures MatchesAt(t, [d] + rest, [p] + ps')
  {
    var r := [d] + rest;
    var ps := [p] + ps';
    forall k | 0 <= k < |r|
      ensures ps[k] + |r[k]| <= |t| && DateMatchAt(t, ps[k]) == Some(|r[k]|) && r[k] == t[ps[k]..ps[k] + |r[k]|]
    {
      if k > 0 {
        assert r[k] == rest[k - 1] && ps[k] == ps'[k - 1];
      }
    }
  }

  lemma {:induction false} ScanStepGaps(t: string, p: nat, n: nat, d: string, rest: seq<string>, ps': seq<nat>)
    requires p + n <= |t| && |d| == n && |ps'| == |rest| && GapsClear(t, rest, ps')
    requires |rest| > 0 ==> p + n <= ps'[0] && NoMatchIn(t, p + n, ps'[0])
    ensures GapsClear(t, [d] + rest, [p] + ps')
  {
    var r := [d] + rest;
    var ps := [p] + ps';
    forall k | 0 < k < |r|
      ensures ps[k - 1] + |r[k - 1]| <= ps[k] && NoMatchIn(t, ps[k - 1] + |r[k - 1]|, ps[k])
    {
      if k > 1 {
        assert r[k] == rest[k - 1] && ps[k] == ps'[k - 1];
        assert r[k - 1] == rest[k - 2] && ps[k - 1] == ps'[k - 2];
      }
    }
  }

  lemma {:induction false} ScanStepEnds(t: string, i: nat, p: nat, n: nat, d: string, rest: seq<string>, ps': seq<nat>)
    requires i <= p && p + n <= |t| && |d| == n && FirstDateAt(t, i) == Some(p)
    requires |ps'| == |rest| && EndsClear(t, p + n, rest, ps')
    ensures EndsClear(t, i, [d] + rest, [p] + ps')
  {
    var r := [d] + rest;
    var ps := [p] + ps';
    if |rest| > 0 {
      assert r[|r| - 1] == rest[|rest| - 1] && ps[|r| - 1] == ps'[|rest| - 1];
    }
  }

  /** `re.findall(pattern, t)`: the scan from the start, whose every result is date-shaped. */
  function FindAll(t: string): (r: seq<string>)
    ensures forall k :: 0 <= k < |r| ==> DateShaped(r[k])
  {
    var r := FindAllFrom(t, 0);
    ScannedAreDates(t, 0, r);
    r
  }

  /** Every match a scan lists is date-shaped. */
  lemma {:induction false} ScannedAreDates(t: string, i: nat, r: seq<string>)
    requires exists ps :: Scanned(t, i, r, ps)
    ensures forall k :: 0 <= k < |r| ==> DateShaped(r[k])
  {
    var ps :| Scanned(t, i, r, ps);
    forall k | 0 <= k < |r|
      ensures DateShaped(r[k])
    {
      DateMatchAtIsMatch(t, ps[k], |r[k]|);
    }
  }

  /** The pattern matches nowhere in `t`. */
  ghost predicate NoDate(t: string) {
    forall q, n :: 0 <= q <= |t| ==> !DateMatches(t, q, n)
  }

  /**
   * `r` starts with the match at the leftmost position where the pattern
   * matches at all.
   */
  ghost predicate StartsLeftmost(t: string, r: seq<string>)
    requires |r| > 0
  {
    FirstDateAt(t, 0).Some? && var p, d := FirstDateAt(t, 0).value, r[0];
    DateMatches(t, p, |d|) && d == t[p..p + |d|] && forall q, n :: 0 <= q < p ==> !DateMatches(t, q, n)
  }

  /**
   * `findall` finds something exactly when the pattern matches somewhere,
   * and its first result is the match at the leftmost position where the
   * pattern matches at all.
   */
  lemma {:induction false} FindAllFirstIsLeftmost(t: string)
    ensures |FindAll(t)| == 0 <==> NoDate(t)
    ensures |FindAll(t)| > 0 ==> StartsLeftmost(t, FindAll(t))
  {
    var r := FindAllFrom(t, 0);
    var ps :| Scanned(t, 0, r, ps);
    if |r| == 0 {
      EmptyScan(t, r, ps);
    } else {
      FirstOfScan(t, r, ps);
    }
  }

  /** Whether a result starts leftmost depends on its first date alone. */
  lemma StartsLeftmostHead(t: string, r: seq<string>)
    requires |r| > 0
    ensures StartsLeftmost(t, r) <==> StartsLeftmost(t, [r[0]])
  {
    assert [r[0]][0] == r[0];
  }

  lemma {:induction false} EmptyScan(t: string, r: seq<string>, ps: seq<nat>)
    requires Scanned(t, 0, r, ps) && |r| == 0
    ensures NoDate(t)
  {
    forall q: nat, n: nat | q <= |t|
      ensures !DateMatches(t, q, n)
    {
      DateMatchAtIsMatch(t, q, n);
    }
  }

  lemma {:induction false} FirstOfScan(t: string, r: seq<string>, ps: seq<nat>)
    requires Scanned(t, 0, r, ps) && |r| > 0
    ensures !NoDate(t) && StartsLeftmost(t, r)
  {
    var p := ps[0];
    DateMatchAtIsMatch(t, p, |r[0]|);
    var f := FirstDateAt(t, 0);
    assert f.Some? && !(f.value < p) && !(p < f.value);
    forall q: nat, n: nat | q < p
      ensures !DateMatches(t, q, n)
    {
      DateMatchAtIsMatch(t, q, n);
    }
  }
}
