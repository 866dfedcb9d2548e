/**
 * The total scan shared by both classifier-era engines (`get_total_entities`):
 * the text is split on single spaces, and from the first token containing a
 * marker word on, the first token `int()` accepts is the total.
 */
module Totals {
  import opened Text
  import opened Numbers

  /** The loop of `get_total_entities`, `started` recording whether the marker has been seen. */
  function TotalScan(tokens: seq<string>, marker: string, started: bool): int {
    if |tokens| == 0 then 0
    else
      var on := started || Contains(tokens[0], marker);
      if on && IntLiteral(tokens[0]) then IntValue(tokens[0]) else TotalScan(tokens[1..], marker, on)
  }

  /** Token `t` is the first one containing the marker. */
  predicate FirstMarkerAt(tokens: seq<string>, marker: string, t: nat) {
    t < |tokens| && Contains(tokens[t], marker) && forall j :: 0 <= j < t ==> !Contains(tokens[j], marker)
  }

  /** Token `k` is the first one from `t` on that `int()` accepts. */
  predicate FirstIntFrom(tokens: seq<string>, t: nat, k: nat) {
    t <= k < |tokens| && IntLiteral(tokens[k]) && forall j :: t <= j < k ==> !IntLiteral(tokens[j])
  }

  /** No token from `t` on is accepted by `int()`. */
  predicate NoIntFrom(tokens: seq<string>, t: nat) {
    forall j :: t <= j < |tokens| ==> !IntLiteral(tokens[j])
  }

  /**
   * `get_total_entities(text)` with the given marker word: 0 without a
   * marker token; otherwise the first integer token from the first marker
   * token on, or 0 when there is none.
   */
  function TotalOf(text: string, marker: string): (r: int)
    ensures (forall j :: 0 <= j < |SplitOn(text, ' ')| ==> !Contains(SplitOn(text, ' ')[j], marker)) ==> r == 0
    ensures forall t: nat, k: nat :: FirstMarkerAt(SplitOn(text, ' '), marker, t) && FirstIntFrom(SplitOn(text, ' '), t, k)
              ==> r == IntValue(SplitOn(text, ' ')[k])
    ensures forall t: nat :: FirstMarkerAt(SplitOn(text, ' '), marker, t) && NoIntFrom(SplitOn(text, ' '), t) ==> r == 0
  {
    var tokens := SplitOn(text, ' ');
    TotalScanMeaning(tokens, marker);
    TotalScan(tokens, marker, false)
  }

  /** The scan's result, read through the first marker token and the first integer token after it. */
  lemma TotalScanMeaning(tokens: seq<string>, marker: string)
    ensures (forall j :: 0 <= j < |tokens| ==> !Contains(tokens[j], marker)) ==> TotalScan(tokens, marker, false) == 0
    ensures forall t: nat, k: nat :: FirstMarkerAt(tokens, marker, t) && FirstIntFrom(tokens, t, k)
              ==> TotalScan(tokens, marker, false) == IntValue(tokens[k])
    ensures forall t: nat :: FirstMarkerAt(tokens, marker, t) && NoIntFrom(tokens, t) ==> TotalScan(tokens, marker, false) == 0
  {
    if forall j :: 0 <= j < |tokens| ==> !Contains(tokens[j], marker) {
      TotalWithoutMarker(tokens, marker);
    }
    forall t: nat, k: nat | FirstMarkerAt(tokens, marker, t) && FirstIntFrom(tokens, t, k)
      ensures TotalScan(tokens, marker, false) == IntValue(tokens[k])
    {
      TotalAfterMarker(tokens, marker, t, k);
    }
    forall t: nat | FirstMarkerAt(tokens, marker, t) && NoIntFrom(tokens, t)
      ensures TotalScan(tokens, marker, false) == 0
    {
      TotalAfterMarker(tokens, marker, t, |tokens|);
    }
  }

  /** After the scan has started, it returns the first integer token, or 0 if there is none. */
  lemma {:induction false} TotalScanStarted(tokens: seq<string>, marker: string, k: nat)
    requires k <= |tokens|
    requires forall j :: 0 <= j < k ==> !IntLiteral(tokens[j])
    ensures k < |tokens| && IntLiteral(tokens[k]) ==> TotalScan(tokens, marker, true) == IntValue(tokens[k])
    ensures k == |tokens| ==> TotalScan(tokens, marker, true) == 0
  {
    if k > 0 {
      assert forall j :: 0 <= j < k - 1 ==> tokens[1..][j] == tokens[j + 1];
      assert TotalScan(tokens, marker, true) == TotalScan(tokens[1..], marker, true);
      TotalScanStarted(tokens[1..], marker, k - 1);
    }
  }

  /** Before the first marker token the scan only moves on. */
  lemma {:induction false} TotalScanSkips(tokens: seq<string>, marker: string, t: nat)
    requires t <= |tokens|
    requires forall j :: 0 <= j < t ==> !Contains(tokens[j], marker)
    ensures TotalScan(tokens, marker, false) == TotalScan(tokens[t..], marker, false)
  {
    if t > 0 {
      TotalScanSkips(tokens[1..], marker, t - 1);
      assert tokens[1..][t - 1..] == tokens[t..];
    }
  }

  /** Without a marker token the total is 0. */
  lemma TotalWithoutMarker(tokens: seq<string>, marker: string)
    requires forall j :: 0 <= j < |tokens| ==> !Contains(tokens[j], marker)
    ensures TotalScan(tokens, marker, false) == 0
  {
    TotalScanSkips(tokens, marker, |tokens|);
  }

  /**
   * With `t` the first marker token, the total is the first token from `t`
   * on (that one included) which `int()` accepts, or 0 when none is.
   */
  lemma TotalAfterMarker(tokens: seq<string>, marker: string, t: nat, k: nat)
    requires t <= k <= |tokens| && t < |tokens|
    requires Contains(tokens[t], marker) && forall j :: 0 <= j < t ==> !Contains(tokens[j], marker)
    requires forall j :: t <= j < k ==> !IntLiteral(tokens[j])
    ensures k < |tokens| && IntLiteral(tokens[k]) ==> TotalScan(tokens, marker, false) == IntValue(tokens[k])
    ensures k == |tokens| ==> TotalScan(tokens, marker, false) == 0
  {
    TotalScanSkips(tokens, marker, t);
    var rest := tokens[t..];
    assert TotalScan(rest, marker, false) == TotalScan(rest, marker, true) by {
      assert Contains(rest[0], marker);
    }
    assert forall j :: 0 <= j < k - t ==> rest[j] == tokens[t + j];
    TotalScanStarted(rest, marker, k - t);
  }
}
