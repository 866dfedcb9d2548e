/** Searches over sequences that the pipeline's "first line such that" loops reduce to, and `list` helpers. */
module Seqs {
  import opened Wrappers

  /** Position of the first `true` in `flags`, if any. */
  function FirstTrue(flags: seq<bool>): (r: Option<nat>)
    ensures r.None? <==> forall k :: 0 <= k < |flags| ==> !flags[k]
    ensures r.Some? ==> r.value < |flags| && flags[r.value] && forall j :: 0 <= j < r.value ==> !flags[j]
  {
    if |flags| == 0 then None
    else if flags[0] then Some(0)
    else
      match FirstTrue(flags[1..])
      case None => None
      case Some(k) => Some(k + 1)
  }

  /** The elements of `s` that `keep` accepts, in order: a list comprehension with a condition. */
  function Filter<T>(s: seq<T>, keep: T -> bool): (r: seq<T>)
    ensures |r| <= |s|
    ensures forall k :: 0 <= k < |r| ==> keep(r[k]) && r[k] in s
    ensures forall k :: 0 <= k < |s| && keep(s[k]) ==> s[k] in r
  {
    if |s| == 0 then []
    else
      var rest := Filter(s[1..], keep);
      assert forall k :: 1 <= k < |s| ==> s[k] == s[1..][k - 1];
      if keep(s[0]) then [s[0]] + rest else rest
  }

  /** Filtering twice with the same condition is filtering once; a list whose every element passes is unchanged. */
  lemma {:induction false} FilterIdempotent<T>(s: seq<T>, keep: T -> bool)
    ensures Filter(Filter(s, keep), keep) == Filter(s, keep)
    ensures (forall k :: 0 <= k < |s| ==> keep(s[k])) ==> Filter(s, keep) == s
  {
    if |s| > 0 {
      FilterIdempotent(s[1..], keep);
      assert forall k :: 1 <= k < |s| ==> s[k] == s[1..][k - 1];
    }
  }

  /** `list.index(x)`: the position of the first element equal to `x`. */
  function IndexOf<T(==)>(s: seq<T>, x: T): (i: nat)
    requires x in s
    ensures i < |s| && s[i] == x && x !in s[..i]
  {
    if s[0] == x then 0 else 1 + IndexOf(s[1..], x)
  }

  /** No element occurs twice. */
  predicate Distinct<T(==)>(s: seq<T>) {
    forall i, j :: 0 <= i < |s| && 0 <= j < |s| && i != j ==> s[i] != s[j]
  }

  /** In a list without repeats, `list.index` finds the element's own position. */
  lemma IndexOfDistinct<T>(s: seq<T>, k: nat)
    requires Distinct(s) && k < |s|
    ensures IndexOf(s, s[k]) == k
  {
  }

  /** The lists of `xss` one after another. */
  function Concat<T>(xss: seq<seq<T>>): seq<T> {
    if |xss| == 0 then [] else xss[0] + Concat(xss[1..])
  }

  /** Position of the first present value of `opts`, if any. */
  function FirstSomeAt<T>(opts: seq<Option<T>>): (r: Option<nat>)
    ensures r.None? <==> forall k :: 0 <= k < |opts| ==> opts[k].None?
    ensures r.Some? ==> r.value < |opts| && opts[r.value].Some? && forall j :: 0 <= j < r.value ==> opts[j].None?
  {
    if |opts| == 0 then None
    else if opts[0].Some? then Some(0)
    else
      match FirstSomeAt(opts[1..])
      case None => None
      case Some(k) => Some(k + 1)
  }

  /** The positions of `true` in `flags` from `from` on, in increasing order. */
  function Positions(flags: seq<bool>, from: nat): (r: seq<nat>)
    requires from <= |flags|
    ensures forall m :: 0 <= m < |r| ==> from <= r[m] < |flags| && flags[r[m]]
    ensures forall k :: from <= k < |flags| && flags[k] ==> k in r
    ensures forall m, n :: 0 <= m < n < |r| ==> r[m] < r[n]
    decreases |flags| - from
  {
    if from == |flags| then []
    else
      var rest := Positions(flags, from + 1);
      if flags[from] then [from] + rest else rest
  }

  /** A step that found a value. */
  predicate Found<T, E>(o: Result<Option<T>, E>) {
    o.Success? && o.value.Some?
  }

  /** Which steps found a value. */
  function FoundFlags<T, E>(outcomes: seq<Result<Option<T>, E>>): (r: seq<bool>)
    ensures |r| == |outcomes| && forall k :: 0 <= k < |outcomes| ==> r[k] == Found(outcomes[k])
  {
    seq(|outcomes|, k requires 0 <= k < |outcomes| => Found(outcomes[k]))
  }

  /** A present value with none before it is the first. */
  lemma FirstSomeAtIs<T>(opts: seq<Option<T>>, k: nat)
    requires k < |opts| && opts[k].Some? && forall j :: 0 <= j < k ==> opts[j].None?
    ensures FirstSomeAt(opts) == Some(k)
  {
    var at := FirstSomeAt(opts);
    assert at.Some? && !(at.value < k) && !(k < at.value);
  }

  /**
   * A loop that appends what each step finds and stops at the first step
   * that raises. On success the result holds, in step order, exactly the
   * values of the steps from `i` on that found one; on failure it is the
   * error of the first step that raised.
   */
  function Collect<T, E>(outcomes: seq<Result<Option<T>, E>>, i: nat): (r: Result<seq<T>, E>)
    requires i <= |outcomes|
    ensures r.Success? ==> |r.value| == |Positions(FoundFlags(outcomes), i)|
    ensures r.Success? ==> forall m :: 0 <= m < |r.value| ==>
      outcomes[Positions(FoundFlags(outcomes), i)[m]] == Success(Some(r.value[m]))
    ensures r.Failure? <==> exists k :: i <= k < |outcomes| && outcomes[k].Failure?
    ensures r.Failure? ==> exists k :: (i <= k < |outcomes| && outcomes[k] == Failure(r.error)
      && forall j :: i <= j < k ==> outcomes[j].Success?)
    decreases |outcomes| - i
  {
    if i == |outcomes| then Success([])
    else
      match outcomes[i]
      case Failure(e) =>
        assert outcomes[i] == Failure(e);
        Failure(e)
      case Success(found) =>
        match Collect(outcomes, i + 1)
        case Failure(e) =>
          LaterFailure(outcomes, i, e);
          Failure(e)
        case Success(rest) =>
          CollectStep(outcomes, i, rest);
          Success(if found.Some? then [found.value] + rest else rest)
  }

  /** A failure that is first from `i + 1` on is first from `i` on when step `i` succeeded. */
  lemma LaterFailure<T, E>(outcomes: seq<Result<Option<T>, E>>, i: nat, e: E)
    requires i < |outcomes| && outcomes[i].Success?
    requires exists k :: (i + 1 <= k < |outcomes| && outcomes[k] == Failure(e)
      && forall j :: i + 1 <= j < k ==> outcomes[j].Success?)
    ensures exists k :: (i <= k < |outcomes| && outcomes[k] == Failure(e)
      && forall j :: i <= j < k ==> outcomes[j].Success?)
  {
    var k :| i + 1 <= k < |outcomes| && outcomes[k] == Failure(e) && forall j :: i + 1 <= j < k ==> outcomes[j].Success?;
    assert forall j :: i <= j < k ==> outcomes[j].Success?;
  }

  /** The values found from `i + 1` on, preceded by step `i`'s value if it found one, sit at the found positions from `i` on. */
  lemma CollectStep<T, E>(outcomes: seq<Result<Option<T>, E>>, i: nat, rest: seq<T>)
    requires i < |outcomes| && outcomes[i].Success?
    requires |rest| == |Positions(FoundFlags(outcomes), i + 1)|
    requires forall m :: 0 <= m < |rest| ==> outcomes[Positions(FoundFlags(outcomes), i + 1)[m]] == Success(Some(rest[m]))
    ensures var r := if outcomes[i].value.Some? then [outcomes[i].value.value] + rest else rest;
      |r| == |Positions(FoundFlags(outcomes), i)|
      && forall m :: 0 <= m < |r| ==> outcomes[Positions(FoundFlags(outcomes), i)[m]] == Success(Some(r[m]))
  {
    var found := outcomes[i].value;
    var r := if found.Some? then [found.value] + rest else rest;
    var flags := FoundFlags(outcomes);
    var ks := Positions(flags, i);
    var ks' := Positions(flags, i + 1);
    assert flags[i] == found.Some?;
    assert ks == if flags[i] then [i] + ks' else ks';
    if found.Some? {
      assert |r| == |ks|;
      forall m | 0 <= m < |r|
        ensures outcomes[ks[m]] == Success(Some(r[m]))
      {
        if m > 0 {
          assert r[m] == rest[m - 1] && ks[m] == ks'[m - 1];
        }
      }
    } else {
      assert r == rest && ks == ks';
    }
  }

  /** Filtering is determined by what it does to one element and by distributing over concatenation. */
  lemma {:induction false} FilterSplits<T>(a: seq<T>, b: seq<T>, x: T, keep: T -> bool)
    ensures Filter([], keep) == []
    ensures Filter([x], keep) == if keep(x) then [x] else []
    ensures Filter(a + b, keep) == Filter(a, keep) + Filter(b, keep)
  {
    assert [x][1..] == [];
    if |a| > 0 {
      assert (a + b)[1..] == a[1..] + b;
      FilterSplits(a[1..], b, x, keep);
    } else {
      assert a + b == b;
    }
  }
}
