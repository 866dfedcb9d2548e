/**
 * Decimal numerals: which strings Python's `int()` and `float()` accept,
 * the value of a digit string, and `str()` of a natural number.
 *
 * `int(s)` and `float(s)` both ignore surrounding whitespace and accept one
 * leading sign. `float` also accepts a fractional part, an exponent and the
 * words "inf", "infinity" and "nan" in any case.
 */
module Numbers {
  import opened Wrappers
  import opened Text

  function DigitValue(c: char): nat
    requires IsDigit(c)
  {
    c as int - '0' as int
  }

  function DigitChar(d: nat): (c: char)
    requires d < 10
    ensures IsDigit(c) && DigitValue(c) == d
  {
    ('0' as int + d) as char
  }

  /** Value of a string of decimal digits, most significant first; leading zeros are allowed. */
  function DigitsValue(s: string): nat
    requires AllDigits(s)
  {
    if |s| == 0 then 0 else 10 * DigitsValue(s[..|s| - 1]) + DigitValue(s[|s| - 1])
  }

  /** Python's `str(n)` for a natural number: decimal digits without a leading zero. */
  function NatToString(n: nat): (r: string)
    ensures |r| > 0 && AllDigits(r)
    ensures r[0] == '0' ==> |r| == 1
  {
    if n < 10 then [DigitChar(n)] else NatToString(n / 10) + [DigitChar(n % 10)]
  }

  /** Reading back what `str(n)` wrote gives `n`. */
  lemma {:induction false} NatToStringRoundTrip(n: nat)
    ensures DigitsValue(NatToString(n)) == n
  {
    if n >= 10 {
      var p := NatToString(n / 10);
      var r := NatToString(n);
      assert r[..|r| - 1] == p;
      NatToStringRoundTrip(n / 10);
    }
  }

  predicate IsSign(c: char) {
    c == '+' || c == '-'
  }

  /**
   * Where a scan of `int(s)` stands: in leading whitespace, just after the
   * sign, among the digits, or in trailing whitespace.
   */
  datatype IntState = IntLead | IntSign | IntDigits | IntTrail

  /** Whether the rest of `s` from `i` completes a literal `int()` accepts, the scan being in state `st`. */
  predicate IntScan(s: string, i: nat, st: IntState)
    requires i <= |s|
    decreases |s| - i
  {
    if i == |s| then st == IntDigits || st == IntTrail
    else
      var c := s[i];
      match st
      case IntLead =>
        if IsSpace(c) then IntScan(s, i + 1, IntLead)
        else if IsSign(c) then IntScan(s, i + 1, IntSign)
        else IsDigit(c) && IntScan(s, i + 1, IntDigits)
      case IntSign => IsDigit(c) && IntScan(s, i + 1, IntDigits)
      case IntDigits =>
        if IsDigit(c) then IntScan(s, i + 1, IntDigits)
        else IsSpace(c) && IntScan(s, i + 1, IntTrail)
      case IntTrail => IsSpace(c) && IntScan(s, i + 1, IntTrail)
  }

  /** `int(s)` in base 10 succeeds: optional whitespace, an optional sign, one or more digits, optional whitespace. */
  predicate IntLiteral(s: string) {
    IntScan(s, 0, IntLead)
  }

  /** The value the scan reads from `i` on, `acc` holding the digits read so far and `negative` the sign. */
  function IntRead(s: string, i: nat, st: IntState, acc: nat, negative: bool): int
    requires i <= |s| && IntScan(s, i, st)
    decreases |s| - i
  {
    if i == |s| then (if negative then 0 - acc else acc)
    else
      var c := s[i];
      match st
      case IntLead =>
        if IsSpace(c) then IntRead(s, i + 1, IntLead, acc, negative)
        else if IsSign(c) then IntRead(s, i + 1, IntSign, acc, c == '-')
        else IntRead(s, i + 1, IntDigits, DigitValue(c), negative)
      case IntSign => IntRead(s, i + 1, IntDigits, DigitValue(c), negative)
      case IntDigits =>
        if IsDigit(c) then IntRead(s, i + 1, IntDigits, 10 * acc + DigitValue(c), negative)
        else IntRead(s, i + 1, IntTrail, acc, negative)
      case IntTrail => IntRead(s, i + 1, IntTrail, acc, negative)
  }

  /** The value `int(s)` returns. */
  function IntValue(s: string): int
    requires IntLiteral(s)
  {
    IntRead(s, 0, IntLead, 0, false)
  }

  /**
   * Where a scan of `float(s)` stands: leading whitespace, after the sign,
   * in the integer digits, just after a point with no digit yet, in the
   * fraction, just after the exponent letter, after the exponent's sign, in
   * the exponent digits, or in trailing whitespace.
   */
  datatype FloatState = FloatLead | FloatSign | FloatInt | FloatPoint | FloatFrac | FloatExp | FloatExpSign | FloatExpDigits | FloatTrail

  /** `b.lower() == word` for a lower-case ASCII `word`. */
  predicate CaselessIs(b: string, word: string) {
    |b| == |word| && forall i :: 0 <= i < |b| ==> LowerChar(b[i]) == word[i]
  }

  /** The special values `float()` accepts in any case, with trailing whitespace. */
  predicate SpecialLiteral(t: string) {
    var b := RStrip(t);
    CaselessIs(b, "inf") || CaselessIs(b, "infinity") || CaselessIs(b, "nan")
  }

  /** Whether the rest of `s` from `i` completes a literal `float()` accepts, the scan being in state `st`. */
  predicate FloatScan(s: string, i: nat, st: FloatState)
    requires i <= |s|
    decreases |s| - i
  {
    if i == |s| then st == FloatInt || st == FloatFrac || st == FloatExpDigits || st == FloatTrail
    else
      var c := s[i];
      match st
      case FloatLead =>
        if IsSpace(c) then FloatScan(s, i + 1, FloatLead)
        else if IsSign(c) then FloatScan(s, i + 1, FloatSign)
        else if IsDigit(c) then FloatScan(s, i + 1, FloatInt)
        else if c == '.' then FloatScan(s, i + 1, FloatPoint)
        else SpecialLiteral(s[i..])
      case FloatSign =>
        if IsDigit(c) then FloatScan(s, i + 1, FloatInt)
        else if c == '.' then FloatScan(s, i + 1, FloatPoint)
        else SpecialLiteral(s[i..])
      case FloatInt =>
        if IsDigit(c) then FloatScan(s, i + 1, FloatInt)
        else if c == '.' then FloatScan(s, i + 1, FloatFrac)
        else if c == 'e' || c == 'E' then FloatScan(s, i + 1, FloatExp)
        else IsSpace(c) && FloatScan(s, i + 1, FloatTrail)
      case FloatPoint => IsDigit(c) && FloatScan(s, i + 1, FloatFrac)
      case FloatFrac =>
        if IsDigit(c) then FloatScan(s, i + 1, FloatFrac)
        else if c == 'e' || c == 'E' then FloatScan(s, i + 1, FloatExp)
        else IsSpace(c) && FloatScan(s, i + 1, FloatTrail)
      case FloatExp =>
        if IsSign(c) then FloatScan(s, i + 1, FloatExpSign)
        else IsDigit(c) && FloatScan(s, i + 1, FloatExpDigits)
      case FloatExpSign => IsDigit(c) && FloatScan(s, i + 1, FloatExpDigits)
      case FloatExpDigits =>
        if IsDigit(c) then FloatScan(s, i + 1, FloatExpDigits)
        else IsSpace(c) && FloatScan(s, i + 1, FloatTrail)
      case FloatTrail => IsSpace(c) && FloatScan(s, i + 1, FloatTrail)
  }

  /**
   * `float(s)` succeeds: optional whitespace and sign, then digits with an
   * optional point and fraction (at least one digit) and an optional
   * exponent, or one of the special words; then optional whitespace.
   */
  predicate FloatLiteral(s: string) {
    FloatScan(s, 0, FloatLead)
  }

  /** The float scan state that shadows each state of the int scan. */
  function FloatShadow(st: IntState): FloatState {
    match st
    case IntLead => FloatLead
    case IntSign => FloatSign
    case IntDigits => FloatInt
    case IntTrail => FloatTrail
  }

  lemma {:induction false} IntScanImpliesFloatScan(s: string, i: nat, st: IntState)
    requires i <= |s| && IntScan(s, i, st)
    ensures FloatScan(s, i, FloatShadow(st))
    decreases |s| - i
  {
    if i < |s| {
      var c := s[i];
      match st
      case IntLead =>
        if IsSpace(c) {
          IntScanImpliesFloatScan(s, i + 1, IntLead);
        } else if IsSign(c) {
          IntScanImpliesFloatScan(s, i + 1, IntSign);
        } else {
          IntScanImpliesFloatScan(s, i + 1, IntDigits);
        }
      case IntSign => IntScanImpliesFloatScan(s, i + 1, IntDigits);
      case IntDigits =>
        if IsDigit(c) {
          IntScanImpliesFloatScan(s, i + 1, IntDigits);
        } else {
          IntScanImpliesFloatScan(s, i + 1, IntTrail);
        }
      case IntTrail => IntScanImpliesFloatScan(s, i + 1, IntTrail);
    }
  }

  /** Everything `int()` accepts, `float()` accepts too. */
  lemma IntLiteralIsFloatLiteral(s: string)
    requires IntLiteral(s)
    ensures FloatLiteral(s)
  {
    IntScanImpliesFloatScan(s, 0, IntLead);
  }

  /** `IntLiteralIsFloatLiteral` for every string. */
  lemma IntLiteralImpliesFloatLiteral(s: string)
    ensures IntLiteral(s) ==> FloatLiteral(s)
  {
    if IntLiteral(s) {
      IntLiteralIsFloatLiteral(s);
    }
  }

  /** Reading digits from `i` on continues the value of the digits before `i`. */
  lemma {:induction false} DigitsReadOn(s: string, i: nat)
    requires 0 < i <= |s| && AllDigits(s)
    ensures IntScan(s, i, IntDigits)
    ensures IntRead(s, i, IntDigits, DigitsValue(s[..i]), false) == DigitsValue(s)
    decreases |s| - i
  {
    if i == |s| {
      assert s[..i] == s;
    } else {
      assert s[..i + 1][..i] == s[..i];
      DigitsReadOn(s, i + 1);
    }
  }

  /** A non-empty string of digits is accepted by both `int()` and `float()`, and `int()` reads its digits. */
  lemma DigitStringIsNumeric(s: string)
    requires |s| > 0 && AllDigits(s)
    ensures IntLiteral(s) && FloatLiteral(s)
    ensures IntValue(s) == DigitsValue(s)
  {
    DigitsReadOn(s, 1);
    assert DigitsValue(s[..1]) == DigitValue(s[0]) by {
      assert s[..1][..0] == [];
    }
    assert !IsSpace(s[0]) && !IsSign(s[0]);
    IntLiteralIsFloatLiteral(s);
  }

  /** End of the run of digits starting at `i`. */
  function DigitRunEnd(s: string, i: nat): (j: nat)
    requires i <= |s|
    ensures i <= j <= |s|
    ensures forall k :: i <= k < j ==> IsDigit(s[k])
    ensures j < |s| ==> !IsDigit(s[j])
    decreases |s| - i
  {
    if i == |s| || !IsDigit(s[i]) then i else DigitRunEnd(s, i + 1)
  }

  /** A run of digits from `i` to a non-digit or the end at `j` ends at `j`. */
  lemma {:induction false} DigitRunEndAt(s: string, i: nat, j: nat)
    requires i <= j <= |s|
    requires forall k :: i <= k < j ==> IsDigit(s[k])
    requires j == |s| || !IsDigit(s[j])
    ensures DigitRunEnd(s, i) == j
    decreases j - i
  {
    if i < j {
      DigitRunEndAt(s, i + 1, j);
    }
  }

  /** Position of the first digit at or after `i`. */
  function FirstDigitAt(s: string, i: nat): (r: Option<nat>)
    requires i <= |s|
    ensures r.None? ==> forall j :: i <= j < |s| ==> !IsDigit(s[j])
    ensures r.Some? ==> i <= r.value < |s| && IsDigit(s[r.value]) && forall j :: i <= j < r.value ==> !IsDigit(s[j])
    decreases |s| - i
  {
    if i == |s| then None
    else if IsDigit(s[i]) then Some(i)
    else FirstDigitAt(s, i + 1)
  }

  /** Python's `re.search(r"\d+", s)`: the leftmost maximal run of digits, if any. */
  function FirstDigitRun(s: string): (r: Option<string>)
    ensures r.None? <==> !HasDigit(s)
    ensures r.Some? ==> |r.value| > 0 && AllDigits(r.value)
    ensures r.Some? ==> exists i :: (0 <= i && i + |r.value| <= |s| && OccursAt(s, r.value, i) && !HasDigit(s[..i])
      && (i + |r.value| == |s| || !IsDigit(s[i + |r.value|])))
  {
    match FirstDigitAt(s, 0)
    case None => None
    case Some(p) =>
      var j := DigitRunEnd(s, p);
      var run := s[p..j];
      assert OccursAt(s, run, p);
      assert forall k :: 0 <= k < p ==> s[..p][k] == s[k];
      Some(run)
  }

  /**
   * `re.match(r"^\d+X$", w)`, or with `re.IGNORECASE` when `caseless`:
   * digits then the letter X, where `$` also matches before one final newline.
   */
  predicate QuantityWord(w: string, caseless: bool) {
    var b := if |w| > 0 && w[|w| - 1] == '\n' then w[..|w| - 1] else w;
    && |b| >= 2
    && (b[|b| - 1] == 'X' || (caseless && b[|b| - 1] == 'x'))
    && AllDigits(b[..|b| - 1])
  }
}
