/** The token categories the receipt classifier assigns, and line-level helpers over them. */
module Labels {

  /** `O`, `ITEM_NAME`, `PRICE`, `DATE` and `ADDRESS`. */
  datatype Label = O | ItemName | Price | Date | Address

  /** `[tag] * n`. */
  function Repeat(tag: Label, n: nat): (r: seq<Label>)
    ensures |r| == n
    ensures forall i :: 0 <= i < n ==> r[i] == tag
  {
    if n == 0 then [] else [tag] + Repeat(tag, n - 1)
  }

  /** `labels.count(tag)`. */
  function Count(labels: seq<Label>, tag: Label): (n: nat)
    ensures n <= |labels|
    ensures n == 0 <==> tag !in labels
    ensures n == multiset(labels)[tag]
  {
    if |labels| == 0 then 0
    else
      assert labels == [labels[0]] + labels[1..];
      (if labels[0] == tag then 1 else 0) + Count(labels[1..], tag)
  }

  predicate Uniform(labels: seq<Label>, tag: Label) {
    forall i :: 0 <= i < |labels| ==> labels[i] == tag
  }
}
