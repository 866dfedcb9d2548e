/**
 * Character classes and the string operations of Python's `str` that the
 * receipt pipeline relies on: `split()`, `split(sep)`, `join`, `strip()`,
 * `in` (substring), `endswith`, `upper()` and `lower()`.
 *
 * Whitespace is exactly the set Python's `str.isspace()` accepts, which is
 * also what `str.split()`, `str.strip()` and the `\s` regular-expression
 * class use. Digits, letters and case mapping are the ASCII ones.
 */
module Text {
  import opened Seqs

  /** Python's `str.isspace()`. */
  predicate IsSpace(c: char) {
    || c == ' '
    || ('\t' <= c <= '\r')
    || ('\U{1c}' <= c <= '\U{1f}')
    || c == '\U{85}' || c == '\U{a0}' || c == '\U{1680}'
    || ('\U{2000}' <= c <= '\U{200a}')
    || c == '\U{2028}' || c == '\U{2029}' || c == '\U{202f}'
    || c == '\U{205f}' || c == '\U{3000}'
  }

  predicate IsDigit(c: char) {
    '0' <= c <= '9'
  }

  predicate IsUpperLetter(c: char) {
    'A' <= c <= 'Z'
  }

  predicate IsLowerLetter(c: char) {
    'a' <= c <= 'z'
  }

  predicate IsLetter(c: char) {
    IsUpperLetter(c) || IsLowerLetter(c)
  }

  /** The regular-expression class `\w`: letters, digits and underscore. */
  predicate IsWordChar(c: char) {
    IsLetter(c) || IsDigit(c) || c == '_'
  }

  predicate NoSpace(s: string) {
    forall i :: 0 <= i < |s| ==> !IsSpace(s[i])
  }

  predicate AllDigits(s: string) {
    forall i :: 0 <= i < |s| ==> IsDigit(s[i])
  }

  predicate HasDigit(s: string) {
    exists i :: 0 <= i < |s| && IsDigit(s[i])
  }

  function UpperChar(c: char): char {
    if IsLowerLetter(c) then (c as int - 32) as char else c
  }

  function LowerChar(c: char): char {
    if IsUpperLetter(c) then (c as int + 32) as char else c
  }

  /** `str.upper()`: one character out per character in. */
  function Upper(s: string): (r: string)
    ensures |r| == |s|
    ensures forall i :: 0 <= i < |s| ==> r[i] == UpperChar(s[i])
  {
    if |s| == 0 then "" else [UpperChar(s[0])] + Upper(s[1..])
  }

  /** `str.lower()`: one character out per character in. */
  function Lower(s: string): (r: string)
    ensures |r| == |s|
    ensures forall i :: 0 <= i < |s| ==> r[i] == LowerChar(s[i])
  {
    if |s| == 0 then "" else [LowerChar(s[0])] + Lower(s[1..])
  }

  /** `s.replace(a, b)` for single characters. */
  function ReplaceChar(s: string, a: char, b: char): (r: string)
    ensures |r| == |s|
    ensures forall i :: 0 <= i < |s| ==> r[i] == (if s[i] == a then b else s[i])
  {
    if |s| == 0 then "" else [if s[0] == a then b else s[0]] + ReplaceChar(s[1..], a, b)
  }

  predicate OccursAt(s: string, sub: string, i: nat) {
    i + |sub| <= |s| && s[i..i + |sub|] == sub
  }

  /** Python's `sub in s` on strings. */
  predicate Contains(s: string, sub: string) {
    exists i: nat :: i + |sub| <= |s| && OccursAt(s, sub, i)
  }

  predicate StartsWith(s: string, prefix: string) {
    |prefix| <= |s| && s[..|prefix|] == prefix
  }

  /** Python's `s.endswith(suffix)`. */
  predicate EndsWith(s: string, suffix: string) {
    |suffix| <= |s| && s[|s| - |suffix|..] == suffix
  }

  /** `sep.join(words)`. */
  function Join(sep: string, words: seq<string>): string {
    if |words| == 0 then ""
    else if |words| == 1 then words[0]
    else words[0] + sep + Join(sep, words[1..])
  }

  /** End of the run of non-whitespace characters starting at `i`. */
  function WordEnd(s: string, i: nat): (n: nat)
    requires i <= |s|
    ensures i <= n <= |s|
    ensures forall j :: i <= j < n ==> !IsSpace(s[j])
    ensures n < |s| ==> IsSpace(s[n])
    decreases |s| - i
  {
    if i == |s| || IsSpace(s[i]) then i else WordEnd(s, i + 1)
  }

  /** Python's `str.split()` with no argument: the maximal runs of non-whitespace characters, in order. */
  function Split(s: string): (r: seq<string>)
    ensures forall k :: 0 <= k < |r| ==> |r[k]| > 0 && NoSpace(r[k])
    decreases |s|
  {
    if |s| == 0 then []
    else if IsSpace(s[0]) then Split(s[1..])
    else
      var n := WordEnd(s, 0);
      [s[..n]] + Split(s[n..])
  }

  /** Python's `s.split(c)` for a one-character separator: never empty, pieces may be empty. */
  function SplitOn(s: string, c: char): (r: seq<string>)
    ensures |r| >= 1
    ensures forall k :: 0 <= k < |r| ==> c !in r[k]
    decreases |s|
  {
    if c !in s then [s]
    else
      var i := IndexOf(s, c);
      [s[..i]] + SplitOn(s[i + 1..], c)
  }

  /** End of the run of whitespace starting at `i`. */
  function SpaceRunEnd(s: string, i: nat): (n: nat)
    requires i <= |s|
    ensures i <= n <= |s|
    ensures forall j :: i <= j < n ==> IsSpace(s[j])
    ensures n < |s| ==> !IsSpace(s[n])
    decreases |s| - i
  {
    if i == |s| || !IsSpace(s[i]) then i else SpaceRunEnd(s, i + 1)
  }

  /** Start of the run of whitespace ending just before `j`. */
  function SpaceRunStart(s: string, j: nat): (n: nat)
    requires j <= |s|
    ensures n <= j
    ensures forall k :: n <= k < j ==> IsSpace(s[k])
    ensures n > 0 ==> !IsSpace(s[n - 1])
  {
    if j == 0 || !IsSpace(s[j - 1]) then j else SpaceRunStart(s, j - 1)
  }

  /** `str.lstrip()`. */
  function LStrip(s: string): (r: string)
    ensures |r| <= |s| && r == s[|s| - |r|..]
    ensures forall i :: 0 <= i < |s| - |r| ==> IsSpace(s[i])
    ensures |r| == 0 || !IsSpace(r[0])
  {
    s[SpaceRunEnd(s, 0)..]
  }

  /** `str.rstrip()`. */
  function RStrip(s: string): (r: string)
    ensures |r| <= |s| && r == s[..|r|]
    ensures forall i :: |r| <= i < |s| ==> IsSpace(s[i])
    ensures |r| == 0 || !IsSpace(r[|r| - 1])
  {
    s[..SpaceRunStart(s, |s|)]
  }

  /** `str.strip()`. */
  function Strip(s: string): (r: string)
    ensures |r| == 0 || (!IsSpace(r[0]) && !IsSpace(r[|r| - 1]))
  {
    RStrip(LStrip(s))
  }

  /** A non-empty word followed by whitespace (or nothing) is the first piece of the split. */
  lemma {:induction false} SplitAfterWord(w: string, t: string)
    requires |w| > 0 && NoSpace(w)
    requires |t| == 0 || IsSpace(t[0])
    ensures Split(w + t) == [w] + Split(t)
  {
    var s := w + t;
    var n := WordEnd(s, 0);
    assert forall j :: 0 <= j < |w| ==> s[j] == w[j];
    assert |t| > 0 ==> s[|w|] == t[0];
    assert n == |w|;
    assert s[..n] == w && s[n..] == t;
  }

  /** `" ".join` then `split()` gives back the words it joined. */
  lemma {:induction false} SplitJoinRoundTrip(words: seq<string>)
    requires forall k :: 0 <= k < |words| ==> |words[k]| > 0 && NoSpace(words[k])
    ensures Split(Join(" ", words)) == words
  {
    if |words| == 0 {
    } else if |words| == 1 {
      SplitAfterWord(words[0], "");
      assert words[0] + "" == words[0];
    } else {
      var rest := Join(" ", words[1..]);
      assert Join(" ", words) == words[0] + (" " + rest);
      SplitAfterWord(words[0], " " + rest);
      assert (" " + rest)[1..] == rest;
      SplitJoinRoundTrip(words[1..]);
      assert words == [words[0]] + words[1..];
    }
  }

  /** `split(c)` then `c.join` gives back the string that was split. */
  lemma {:induction false} SplitOnJoinRoundTrip(s: string, c: char)
    ensures Join([c], SplitOn(s, c)) == s
    decreases |s|
  {
    if c in s {
      var i := IndexOf(s, c);
      var rest := SplitOn(s[i + 1..], c);
      SplitOnJoinRoundTrip(s[i + 1..], c);
      assert SplitOn(s, c) == [s[..i]] + rest;
      assert Join([c], SplitOn(s, c)) == s[..i] + [c] + Join([c], rest);
      assert s == s[..i] + [c] + s[i + 1..];
    }
  }

  lemma ReplaceCharConcat(a: string, b: string, c: char, d: char)
    ensures ReplaceChar(a + b, c, d) == ReplaceChar(a, c, d) + ReplaceChar(b, c, d)
  {
    var ab := a + b;
    var l, ra, rb := ReplaceChar(ab, c, d), ReplaceChar(a, c, d), ReplaceChar(b, c, d);
    var r := ra + rb;
    assert |l| == |r|;
    forall k | 0 <= k < |l|
      ensures l[k] == r[k]
    {
      if k < |a| {
        assert ab[k] == a[k];
        assert r[k] == ra[k];
      } else {
        assert ab[k] == b[k - |a|];
        assert r[k] == rb[k - |a|];
      }
    }
  }

  /** `d.join(s.split(c))` replaces every `c` in `s` by `d`. */
  lemma {:induction false} JoinSplitOnReplaces(s: string, c: char, d: char)
    ensures Join([d], SplitOn(s, c)) == ReplaceChar(s, c, d)
    decreases |s|
  {
    if c !in s {
      assert SplitOn(s, c) == [s];
      assert forall k :: 0 <= k < |s| ==> s[k] != c;
    } else {
      var i := IndexOf(s, c);
      JoinSplitOnReplaces(s[i + 1..], c, d);
      JoinSplitOnHead(s, c, d, i);
      ReplaceCharHead(s, c, d, i);
    }
  }

  /** Joining a word in front of at least one more word puts the separator between them. */
  lemma JoinCons(sep: string, w: string, words: seq<string>)
    requires |words| >= 1
    ensures Join(sep, [w] + words) == w + sep + Join(sep, words)
  {
    assert ([w] + words)[1..] == words;
  }

  /** Joining the pieces of `s.split(c)`: the first piece, `d`, then the joined rest. */
  lemma JoinSplitOnHead(s: string, c: char, d: char, i: nat)
    requires c in s && i == IndexOf(s, c)
    ensures Join([d], SplitOn(s, c)) == s[..i] + [d] + Join([d], SplitOn(s[i + 1..], c))
  {
    assert SplitOn(s, c) == [s[..i]] + SplitOn(s[i + 1..], c);
    JoinCons([d], s[..i], SplitOn(s[i + 1..], c));
  }

  /** Replacing in `s`: the part before the first `c`, `d`, then the replaced rest. */
  lemma ReplaceCharHead(s: string, c: char, d: char, i: nat)
    requires c in s && i == IndexOf(s, c)
    ensures ReplaceChar(s, c, d) == s[..i] + [d] + ReplaceChar(s[i + 1..], c, d)
  {
    var pre, tail := s[..i], s[i + 1..];
    assert c !in pre && s[i] == c;
    assert s == pre + [c] + tail;
    ReplaceCharAppend(pre + [c], tail, c, d);
    ReplaceCharAppend(pre, [c], c, d);
    assert ReplaceChar(pre, c, d) == pre;
    assert ReplaceChar([c], c, d) == [d];
  }

  /** Replacing characters works piece by piece over a concatenation. */
  lemma {:induction false} ReplaceCharAppend(a: string, b: string, c: char, d: char)
    ensures ReplaceChar(a + b, c, d) == ReplaceChar(a, c, d) + ReplaceChar(b, c, d)
    decreases |a|
  {
    if |a| > 0 {
      assert (a + b)[1..] == a[1..] + b;
      ReplaceCharAppend(a[1..], b, c, d);
    } else {
      assert a + b == b;
    }
  }

  /** A run of whitespace from `i` up to a non-space or the end at `n` ends at `n`. */
  lemma {:induction false} SpaceRunEndAt(s: string, i: nat, n: nat)
    requires i <= n <= |s|
    requires forall k :: i <= k < n ==> IsSpace(s[k])
    requires n == |s| || !IsSpace(s[n])
    ensures SpaceRunEnd(s, i) == n
    decreases n - i
  {
    if i < n {
      SpaceRunEndAt(s, i + 1, n);
    }
  }

  /** A run of whitespace ending before `j` and starting after a non-space (or at 0) at `n` starts at `n`. */
  lemma {:induction false} SpaceRunStartAt(s: string, j: nat, n: nat)
    requires n <= j <= |s|
    requires forall k :: n <= k < j ==> IsSpace(s[k])
    requires n == 0 || !IsSpace(s[n - 1])
    ensures SpaceRunStart(s, j) == n
    decreases j - n
  {
    if n < j {
      SpaceRunStartAt(s, j - 1, n);
    }
  }

  predicate AllSpace(s: string) {
    forall k :: 0 <= k < |s| ==> IsSpace(s[k])
  }

  /** `strip()` removes whitespace padding around a text that neither starts nor ends with whitespace. */
  lemma StripPadded(a: string, t: string, b: string)
    requires AllSpace(a) && AllSpace(b)
    requires |t| == 0 || (!IsSpace(t[0]) && !IsSpace(t[|t| - 1]))
    ensures Strip(a + t + b) == t
  {
    var x := a + t + b;
    if |t| == 0 {
      assert AllSpace(x) by {
        assert forall k :: 0 <= k < |x| ==> x[k] == (if k < |a| then a[k] else b[k - |a|]);
      }
      SpaceRunEndAt(x, 0, |x|);
      assert LStrip(x) == "";
    } else {
      assert forall k :: 0 <= k < |a| ==> x[k] == a[k];
      assert x[|a|] == t[0];
      SpaceRunEndAt(x, 0, |a|);
      var l := LStrip(x);
      assert l == t + b;
      assert forall k :: |t| <= k < |l| ==> l[k] == b[k - |t|];
      assert l[|t| - 1] == t[|t| - 1];
      SpaceRunStartAt(l, |l|, |t|);
      assert l[..|t|] == t;
    }
  }

  /** Leading whitespace does not change what `split()` finds. */
  lemma {:induction false} SplitSkipsSpace(s: string, i: nat)
    requires i <= |s| && forall k :: 0 <= k < i ==> IsSpace(s[k])
    ensures Split(s) == Split(s[i..])
    decreases i
  {
    if i > 0 {
      assert Split(s) == Split(s[1..]);
      SplitSkipsSpace(s[1..], i - 1);
      assert s[1..][i - 1..] == s[i..];
    }
  }

  /** `split()` finds nothing exactly in an all-whitespace string. */
  lemma SplitBlank(s: string)
    ensures Split(s) == [] <==> AllSpace(s)
  {
    var i := SpaceRunEnd(s, 0);
    SplitSkipsSpace(s, i);
    if i == |s| {
      assert s[i..] == "";
    }
  }

  /** No two whitespace characters stand next to each other. */
  predicate NoDoubleSpace(s: string) {
    forall i, j :: 0 <= i < |s| && 0 <= j < |s| && j == i + 1 ==> !(IsSpace(s[i]) && IsSpace(s[j]))
  }

  /**
   * `re.sub(r"\s+", " ", s)`: every maximal run of whitespace becomes one
   * space.
   */
  function CollapseRuns(s: string): string
    decreases |s|
  {
    if |s| == 0 then ""
    else if IsSpace(s[0]) then " " + CollapseRuns(s[SpaceRunEnd(s, 0)..])
    else
      var n := WordEnd(s, 0);
      s[..n] + CollapseRuns(s[n..])
  }

  /**
   * Every whitespace character left by `CollapseRuns` is a plain space, no
   * two of them are adjacent, and the result starts with whitespace exactly
   * when the text does.
   */
  lemma {:induction false} CollapseRunsShape(s: string)
    ensures var r := CollapseRuns(s); forall k :: 0 <= k < |r| && IsSpace(r[k]) ==> r[k] == ' '
    ensures NoDoubleSpace(CollapseRuns(s))
    ensures var r := CollapseRuns(s); |s| > 0 ==> |r| > 0 && (IsSpace(r[0]) <==> IsSpace(s[0]))
    decreases |s|
  {
    var r := CollapseRuns(s);
    if |s| == 0 {
    } else if IsSpace(s[0]) {
      var tail := CollapseRuns(s[SpaceRunEnd(s, 0)..]);
      CollapseRunsShape(s[SpaceRunEnd(s, 0)..]);
      assert r == " " + tail;
      assert forall k :: 1 <= k < |r| ==> r[k] == tail[k - 1];
    } else {
      var n := WordEnd(s, 0);
      var tail := CollapseRuns(s[n..]);
      CollapseRunsShape(s[n..]);
      assert r == s[..n] + tail;
      assert forall k :: n <= k < |r| ==> r[k] == tail[k - n];
      assert forall k :: 0 <= k < n ==> r[k] == s[k];
    }
  }

  /** "" or " ": a leading space of the collapsed text. */
  function LeadingSpace(s: string): string {
    if |s| > 0 && IsSpace(s[0]) then " " else ""
  }

  /** " " exactly when `s` has a word and ends in whitespace. */
  function TrailingSpace(s: string): string {
    if Split(s) != [] && IsSpace(s[|s| - 1]) then " " else ""
  }

  /** The step of `CollapseRunsIsJoin` for text starting with whitespace. */
  lemma CollapseSpaceStep(s: string, e: nat)
    requires |s| > 0 && IsSpace(s[0]) && e == SpaceRunEnd(s, 0)
    requires CollapseRuns(s[e..]) == LeadingSpace(s[e..]) + Join(" ", Split(s[e..])) + TrailingSpace(s[e..])
    ensures CollapseRuns(s) == LeadingSpace(s) + Join(" ", Split(s)) + TrailingSpace(s)
  {
    var rest := s[e..];
    assert Split(s) == Split(rest) by {
      SplitSkipsSpace(s, e);
    }
    assert TrailingSpace(s) == TrailingSpace(rest) by {
      if |rest| > 0 {
        assert rest[|rest| - 1] == s[|s| - 1];
      } else {
        SplitBlank(s);
      }
    }
    CollapseRunsSpaceHead(s, e);
    assert LeadingSpace(s) == " " && LeadingSpace(rest) == "";
    JoinAfterSpace(CollapseRuns(s), CollapseRuns(rest), Join(" ", Split(s)), TrailingSpace(s));
  }

  /** Collapsing text that starts with whitespace gives one space before the collapsed rest. */
  lemma CollapseRunsSpaceHead(s: string, e: nat)
    requires |s| > 0 && IsSpace(s[0]) && e == SpaceRunEnd(s, 0)
    ensures CollapseRuns(s) == " " + CollapseRuns(s[e..])
  {
  }

  /** Regrouping of a leading space before a collapsed tail. */
  lemma JoinAfterSpace(cs: string, cr: string, j: string, t: string)
    requires cs == " " + cr && cr == "" + j + t
    ensures cs == " " + j + t
  {
  }

  /** A word followed by whitespace and more words: the space and the words follow the word. */
  lemma CollapseWordThenWords(w: string, rest: string)
    requires |w| > 0 && NoSpace(w) && |rest| > 0 && IsSpace(rest[0]) && Split(rest) != []
    ensures Join(" ", Split(w + rest)) == w + " " + Join(" ", Split(rest))
    ensures TrailingSpace(w + rest) == TrailingSpace(rest)
  {
    SplitAfterWord(w, rest);
    var s := w + rest;
    assert s[|s| - 1] == rest[|rest| - 1];
  }

  /** Regrouping of a word followed by a collapsed tail that starts a new word. */
  lemma JoinAfterWord(w: string, cs: string, cr: string, js: string, jr: string, ts: string, tr: string)
    requires cs == w + cr && cr == " " + jr + tr
    requires js == w + " " + jr && ts == tr
    ensures cs == "" + js + ts
  {
  }

  /** Collapsing text that starts with a word keeps the word and collapses the rest. */
  lemma CollapseRunsWordHead(s: string, n: nat)
    requires |s| > 0 && !IsSpace(s[0]) && n == WordEnd(s, 0)
    ensures CollapseRuns(s) == s[..n] + CollapseRuns(s[n..])
  {
  }

  /** The step of `CollapseRunsIsJoin` for text starting with a word. */
  lemma CollapseWordStep(s: string, n: nat)
    requires |s| > 0 && !IsSpace(s[0]) && n == WordEnd(s, 0)
    requires CollapseRuns(s[n..]) == LeadingSpace(s[n..]) + Join(" ", Split(s[n..])) + TrailingSpace(s[n..])
    ensures CollapseRuns(s) == LeadingSpace(s) + Join(" ", Split(s)) + TrailingSpace(s)
  {
    if n == |s| {
      CollapseWordOnly(s, n);
    } else {
      SplitBlank(s[n..]);
      if Split(s[n..]) == [] {
        CollapseWordBlank(s, n);
      } else {
        CollapseWordWords(s, n);
      }
    }
  }

  /** `CollapseWordStep` when the word is the whole text. */
  lemma CollapseWordOnly(s: string, n: nat)
    requires |s| > 0 && !IsSpace(s[0]) && n == WordEnd(s, 0) && n == |s|
    ensures CollapseRuns(s) == LeadingSpace(s) + Join(" ", Split(s)) + TrailingSpace(s)
  {
    CollapseRunsWordHead(s, n);
    assert s[..n] == s;
    assert CollapseRuns(s[n..]) == "";
    CollapseWordAlone(s, s);
    assert LeadingSpace(s) == "";
    JoinAfterNothing(CollapseRuns(s), s, Join(" ", Split(s)), TrailingSpace(s));
  }

  /** Regrouping of a word followed by whitespace only. */
  lemma JoinAfterBlank(w: string, cs: string, cr: string, js: string, ts: string)
    requires cs == w + cr && cr == " " && js == w && ts == " "
    ensures cs == "" + js + ts
  {
  }

  /** Regrouping of a lone word. */
  lemma JoinAfterNothing(cs: string, w: string, js: string, ts: string)
    requires cs == w + "" && js == w && ts == ""
    ensures cs == "" + js + ts
  {
  }

  /** `CollapseWordStep` when only whitespace follows the word. */
  lemma CollapseWordBlank(s: string, n: nat)
    requires |s| > 0 && !IsSpace(s[0]) && n == WordEnd(s, 0) && n < |s| && AllSpace(s[n..])
    ensures CollapseRuns(s) == LeadingSpace(s) + Join(" ", Split(s)) + TrailingSpace(s)
  {
    var w, rest := s[..n], s[n..];
    CollapseRunsWordHead(s, n);
    SplitWordThenBlank(s, n);
    assert LeadingSpace(s) == "";
    JoinAfterBlank(w, CollapseRuns(s), CollapseRuns(rest), Join(" ", Split(s)), TrailingSpace(s));
  }

  /** `CollapseWordStep` when more words follow the word. */
  lemma CollapseWordWords(s: string, n: nat)
    requires |s| > 0 && !IsSpace(s[0]) && n == WordEnd(s, 0) && n < |s| && Split(s[n..]) != []
    requires CollapseRuns(s[n..]) == LeadingSpace(s[n..]) + Join(" ", Split(s[n..])) + TrailingSpace(s[n..])
    ensures CollapseRuns(s) == LeadingSpace(s) + Join(" ", Split(s)) + TrailingSpace(s)
  {
    var w, rest := s[..n], s[n..];
    CollapseRunsWordHead(s, n);
    SplitWordThenWords(s, n);
    assert LeadingSpace(rest) == " ";
    JoinAfterWord(w, CollapseRuns(s), CollapseRuns(rest), Join(" ", Split(s)), Join(" ", Split(rest)),
      TrailingSpace(s), TrailingSpace(rest));
    assert LeadingSpace(s) == "";
  }

  /** `CollapseWordThenBlank` for a text cut after its first word. */
  lemma SplitWordThenBlank(s: string, n: nat)
    requires |s| > 0 && !IsSpace(s[0]) && n == WordEnd(s, 0) && n < |s| && AllSpace(s[n..])
    ensures CollapseRuns(s[n..]) == " " && Join(" ", Split(s)) == s[..n] && TrailingSpace(s) == " "
  {
    assert s == s[..n] + s[n..];
    CollapseWordThenBlank(s[..n], s[n..]);
  }

  /** `CollapseWordThenWords` for a text cut after its first word. */
  lemma SplitWordThenWords(s: string, n: nat)
    requires |s| > 0 && !IsSpace(s[0]) && n == WordEnd(s, 0) && n < |s| && Split(s[n..]) != []
    ensures Join(" ", Split(s)) == s[..n] + " " + Join(" ", Split(s[n..]))
    ensures TrailingSpace(s) == TrailingSpace(s[n..])
  {
    assert s == s[..n] + s[n..];
    CollapseWordThenWords(s[..n], s[n..]);
  }

  /** A lone word collapses to itself. */
  lemma CollapseWordAlone(s: string, w: string)
    requires |w| > 0 && NoSpace(w) && s == w
    ensures Join(" ", Split(s)) == w && TrailingSpace(s) == ""
  {
    SplitAfterWord(w, "");
    assert w + "" == w;
  }

  /** A word followed by whitespace only collapses to the word and one space. */
  lemma CollapseWordThenBlank(w: string, rest: string)
    requires |w| > 0 && NoSpace(w) && |rest| > 0 && AllSpace(rest)
    ensures Join(" ", Split(w + rest)) == w && TrailingSpace(w + rest) == " "
    ensures CollapseRuns(rest) == " "
  {
    SplitAfterWord(w, rest);
    SplitBlank(rest);
    var s := w + rest;
    assert s[|s| - 1] == rest[|rest| - 1];
    SpaceRunEndAt(rest, 0, |rest|);
    assert rest[|rest|..] == "";
  }

  /** The collapsed text is the words joined by single spaces, with one space where the text started or ended with whitespace. */
  lemma {:induction false} CollapseRunsIsJoin(s: string)
    ensures CollapseRuns(s) == LeadingSpace(s) + Join(" ", Split(s)) + TrailingSpace(s)
    decreases |s|
  {
    if |s| == 0 {
    } else if IsSpace(s[0]) {
      var e := SpaceRunEnd(s, 0);
      CollapseRunsIsJoin(s[e..]);
      CollapseSpaceStep(s, e);
    } else {
      var n := WordEnd(s, 0);
      CollapseRunsIsJoin(s[n..]);
      CollapseWordStep(s, n);
    }
  }

  /** The words joined by single spaces neither start nor end with whitespace. */
  lemma JoinWordsTrimmed(words: seq<string>)
    requires forall k :: 0 <= k < |words| ==> |words[k]| > 0 && NoSpace(words[k])
    ensures var j := Join(" ", words); |j| == 0 <==> |words| == 0
    ensures var j := Join(" ", words); |j| == 0 || (!IsSpace(j[0]) && !IsSpace(j[|j| - 1]))
    decreases |words|
  {
    if |words| > 1 {
      JoinWordsTrimmed(words[1..]);
      var rest := Join(" ", words[1..]);
      var j := Join(" ", words);
      assert j == words[0] + " " + rest;
      assert j[0] == words[0][0];
      assert j[|j| - 1] == rest[|rest| - 1];
    }
  }

  /**
   * `re.sub(r"\s+", " ", s).strip()`: words separated by single spaces,
   * no whitespace at either end.
   */
  function Collapse(s: string): (r: string)
    ensures forall k :: 0 <= k < |r| && IsSpace(r[k]) ==> r[k] == ' '
    ensures NoDoubleSpace(r)
    ensures |r| == 0 || (!IsSpace(r[0]) && !IsSpace(r[|r| - 1]))
  {
    CollapseRunsShape(s);
    var c := CollapseRuns(s);
    var l := LStrip(c);
    var r := RStrip(l);
    var a := |c| - |l|;
    assert r == c[a..a + |r|];
    SliceShape(c, a, a + |r|);
    r
  }

  /** A slice of single-spaced text is single-spaced. */
  lemma SliceShape(c: string, a: nat, b: nat)
    requires a <= b <= |c|
    requires forall k :: 0 <= k < |c| && IsSpace(c[k]) ==> c[k] == ' '
    requires NoDoubleSpace(c)
    ensures var r := c[a..b]; forall k :: 0 <= k < |r| && IsSpace(r[k]) ==> r[k] == ' '
    ensures NoDoubleSpace(c[a..b])
  {
    var r := c[a..b];
    assert forall k :: 0 <= k < |r| ==> r[k] == c[a + k];
  }

  /** Collapsing whitespace is `" ".join(s.split())`. */
  lemma CollapseIsJoinOfSplit(s: string)
    ensures Collapse(s) == Join(" ", Split(s))
  {
    var a, t, b := LeadingSpace(s), Join(" ", Split(s)), TrailingSpace(s);
    CollapseRunsIsJoin(s);
    JoinWordsTrimmed(Split(s));
    assert AllSpace(a) && AllSpace(b);
    StripPadded(a, t, b);
    assert Collapse(s) == Strip(CollapseRuns(s));
  }

  /** `c.join(pieces).split(c)` gives back the pieces when none of them contains `c`. */
  lemma {:induction false} JoinSplitOnRoundTrip(pieces: seq<string>, c: char)
    requires |pieces| > 0
    requires forall k :: 0 <= k < |pieces| ==> c !in pieces[k]
    ensures SplitOn(Join([c], pieces), c) == pieces
    decreases |pieces|
  {
    if |pieces| == 1 {
      assert SplitOn(pieces[0], c) == [pieces[0]];
    } else {
      var rest := pieces[1..];
      JoinSplitOnRoundTrip(rest, c);
      assert pieces == [pieces[0]] + rest;
      JoinCons([c], pieces[0], rest);
      SplitOnAfterPiece(pieces[0], Join([c], rest), c);
    }
  }

  /** Splitting a piece without `c`, then `c`, then more text: the piece comes first. */
  lemma SplitOnAfterPiece(p: string, t: string, c: char)
    requires c !in p
    ensures SplitOn(p + [c] + t, c) == [p] + SplitOn(t, c)
  {
    var s := p + [c] + t;
    assert s[|p|] == c;
    assert forall k :: 0 <= k < |p| ==> s[k] == p[k];
    assert s[..|p|] == p;
    assert s[|p| + 1..] == t;
    assert IndexOf(s, c) == |p|;
  }

  /** Lowercasing works character by character, so it distributes over concatenation. */
  lemma LowerConcat(a: string, b: string)
    ensures Lower(a + b) == Lower(a) + Lower(b)
  {
    var l, r := Lower(a + b), Lower(a) + Lower(b);
    forall k | 0 <= k < |l|
      ensures l[k] == r[k]
    {
      if k < |a| {
        assert (a + b)[k] == a[k];
      } else {
        assert (a + b)[k] == b[k - |a|];
      }
    }
  }

  /** Every string of `xs` lowercased. */
  function LowerEach(xs: seq<string>): seq<string> {
    seq(|xs|, k requires 0 <= k < |xs| => Lower(xs[k]))
  }

  /** Lowercasing a joined text is joining the lowercased pieces with the lowercased separator. */
  lemma {:induction false} LowerJoin(sep: string, xs: seq<string>)
    ensures Lower(Join(sep, xs)) == Join(Lower(sep), LowerEach(xs))
    decreases |xs|
  {
    if |xs| > 1 {
      LowerJoin(sep, xs[1..]);
      LowerConcat(xs[0] + sep, Join(sep, xs[1..]));
      LowerConcat(xs[0], sep);
      assert LowerEach(xs)[1..] == LowerEach(xs[1..]);
    }
  }

  /** Stripping text that already has no whitespace at either end changes nothing. */
  lemma StripTrimmed(t: string)
    requires |t| == 0 || (!IsSpace(t[0]) && !IsSpace(t[|t| - 1]))
    ensures Strip(t) == t
  {
    StripPadded("", t, "");
    assert "" + t + "" == t;
  }

  /** Stripping only removes characters: a character absent from `s` is absent from `s.strip()`. */
  lemma StripWithin(s: string, c: char)
    requires c !in s
    ensures c !in Strip(s)
  {
    var l := LStrip(s);
    var r := RStrip(l);
    forall k | 0 <= k < |r|
      ensures r[k] != c
    {
      assert r[k] == l[k] == s[|s| - |l| + k];
    }
  }
}
