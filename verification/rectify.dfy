/**
 * The bookkeeping around the perspective correction of a receipt photo,
 * in both image engines (`ImageProcessor` in the picscan app and
 * `PageExtractor` in the api app): choosing the contour to straighten,
 * ordering its four points into corners, sizing the padded output and
 * placing the destination corners. Contour areas, polygon approximation,
 * edge lengths and the warp itself belong to the image library and are
 * inputs here.
 */
module Rectify {
  import opened Geometry

  /*
   * First extremes, as `np.argmin`, `np.argmax` and `max(..., key=...)` find them.
   */

  /** `i` is the first position holding the smallest key. */
  predicate IsFirstMin(keys: seq<real>, i: nat) {
    && i < |keys|
    && (forall j :: 0 <= j < |keys| ==> keys[i] <= keys[j])
    && (forall j :: 0 <= j < i ==> keys[i] < keys[j])
  }

  /** `i` is the first position holding the largest key. */
  predicate IsFirstMax(keys: seq<real>, i: nat) {
    && i < |keys|
    && (forall j :: 0 <= j < |keys| ==> keys[j] <= keys[i])
    && (forall j :: 0 <= j < i ==> keys[j] < keys[i])
  }

  /** The scan of `np.argmin` from position `k`, holding the first smallest so far at `best`. */
  function ArgMinFrom(keys: seq<real>, k: nat, best: nat): (i: nat)
    requires best < k <= |keys| && IsFirstMin(keys[..k], best)
    ensures IsFirstMin(keys, i)
    decreases |keys| - k
  {
    if k == |keys| then
      assert keys[..k] == keys;
      best
    else
      var prefix := keys[..k + 1];
      assert prefix[..k] == keys[..k];
      if keys[k] < keys[best] then ArgMinFrom(keys, k + 1, k)
      else ArgMinFrom(keys, k + 1, best)
  }

  /** `np.argmin`: the first position of the smallest key. */
  function ArgMin(keys: seq<real>): (i: nat)
    requires |keys| > 0
    ensures IsFirstMin(keys, i)
  {
    ArgMinFrom(keys, 1, 0)
  }

  function Negate(keys: seq<real>): (r: seq<real>)
    ensures |r| == |keys| && forall j :: 0 <= j < |keys| ==> r[j] == -keys[j]
  {
    seq(|keys|, j requires 0 <= j < |keys| => -keys[j])
  }

  /** At most one position is the first largest. */
  lemma FirstMaxUnique(keys: seq<real>, i: nat)
    requires IsFirstMax(keys, i)
    ensures forall j: nat :: IsFirstMax(keys, j) ==> j == i
  {
    forall j: nat | IsFirstMax(keys, j)
      ensures j == i
    {
      assert keys[j] <= keys[i] && keys[i] <= keys[j];
    }
  }

  /** `np.argmax`: the first position of the largest key, which is the first smallest of the negated keys. */
  function ArgMax(keys: seq<real>): (i: nat)
    requires |keys| > 0
    ensures IsFirstMax(keys, i)
  {
    var i := ArgMin(Negate(keys));
    assert forall j :: 0 <= j < |keys| ==> Negate(keys)[i] <= Negate(keys)[j];
    i
  }

  /*
   * Corner ordering (`_contour_to_rectangle`).
   */

  /** x + y, the row sum `pts.sum(axis=1)`: smallest at the top-left, largest at the bottom-right. */
  function Sum(p: Point): real {
    (p.x + p.y) as real
  }

  /** y − x, the row difference `np.diff(pts, axis=1)`: smallest at the top-right, largest at the bottom-left. */
  function Diff(p: Point): real {
    (p.y - p.x) as real
  }

  function Sums(pts: seq<Point>): (r: seq<real>)
    ensures |r| == |pts| && forall j :: 0 <= j < |pts| ==> r[j] == Sum(pts[j])
  {
    seq(|pts|, j requires 0 <= j < |pts| => Sum(pts[j]))
  }

  function Diffs(pts: seq<Point>): (r: seq<real>)
    ensures |r| == |pts| && forall j :: 0 <= j < |pts| ==> r[j] == Diff(pts[j])
  {
    seq(|pts|, j requires 0 <= j < |pts| => Diff(pts[j]))
  }

  /**
   * Orders the four points of a contour as top-left, top-right,
   * bottom-right, bottom-left: the first point of least and of greatest
   * x + y, and the first point of least and of greatest y − x. The
   * division by the resize ratio is left out: it scales every point alike.
   */
  function OrderCorners(pts: seq<Point>): (q: Quad)
    requires |pts| == 4
    ensures exists i: nat :: IsFirstMin(Sums(pts), i) && q.p0 == pts[i]
    ensures exists i: nat :: IsFirstMin(Diffs(pts), i) && q.p1 == pts[i]
    ensures exists i: nat :: IsFirstMax(Sums(pts), i) && q.p2 == pts[i]
    ensures exists i: nat :: IsFirstMax(Diffs(pts), i) && q.p3 == pts[i]
  {
    var sums, diffs := Sums(pts), Diffs(pts);
    var tl, tr, br, bl := ArgMin(sums), ArgMin(diffs), ArgMax(sums), ArgMax(diffs);
    Quad(pts[tl], pts[tr], pts[br], pts[bl])
  }

  /** The corners of the axis-aligned rectangle from `(left, top)` to `(right, bottom)`, in the detector's order. */
  function Rectangle(left: int, top: int, right: int, bottom: int): Quad {
    Quad(Point(left, top), Point(right, top), Point(right, bottom), Point(left, bottom))
  }

  function Corners(q: Quad): seq<Point> {
    [q.p0, q.p1, q.p2, q.p3]
  }

  /** A point that beats every other point's key is the one found first. */
  lemma StrictMinFound(pts: seq<Point>, keys: seq<real>, c: Point, m: nat)
    requires |keys| == |pts| && IsFirstMin(keys, m) && c in pts
    requires forall j, k :: 0 <= j < |pts| && 0 <= k < |pts| && pts[j] == c && pts[k] != c ==> keys[j] < keys[k]
    ensures pts[m] == c
  {
    var j :| 0 <= j < |pts| && pts[j] == c;
    assert keys[m] <= keys[j];
  }

  lemma StrictMaxFound(pts: seq<Point>, keys: seq<real>, c: Point, m: nat)
    requires |keys| == |pts| && IsFirstMax(keys, m) && c in pts
    requires forall j, k :: 0 <= j < |pts| && 0 <= k < |pts| && pts[j] == c && pts[k] != c ==> keys[k] < keys[j]
    ensures pts[m] == c
  {
    var j :| 0 <= j < |pts| && pts[j] == c;
    assert keys[j] <= keys[m];
  }

  /** Every point of a shuffled rectangle is one of its corners. */
  lemma ShuffledCorners(pts: seq<Point>, q: Quad)
    requires multiset(pts) == multiset(Corners(q))
    ensures |pts| == 4
    ensures q.p0 in pts && q.p1 in pts && q.p2 in pts && q.p3 in pts
    ensures forall k :: 0 <= k < |pts| ==> pts[k] in Corners(q)
  {
    assert |multiset(pts)| == |pts|;
    assert q.p0 in multiset(Corners(q)) && q.p1 in multiset(Corners(q));
    assert q.p2 in multiset(Corners(q)) && q.p3 in multiset(Corners(q));
    forall k | 0 <= k < |pts|
      ensures pts[k] in Corners(q)
    {
      assert pts[k] in multiset(pts);
    }
  }

  /**
   * Whatever order the contour lists them in, the corners of an
   * axis-aligned rectangle come out as top-left, top-right, bottom-right,
   * bottom-left.
   */
  lemma OrderCornersOfRectangle(pts: seq<Point>, left: int, top: int, right: int, bottom: int)
    requires left < right && top < bottom
    requires multiset(pts) == multiset(Corners(Rectangle(left, top, right, bottom)))
    ensures |pts| == 4 && OrderCorners(pts) == Rectangle(left, top, right, bottom)
  {
    var q := Rectangle(left, top, right, bottom);
    ShuffledCorners(pts, q);
    SumsOfRectangle(pts, left, top, right, bottom);
    DiffsOfRectangle(pts, left, top, right, bottom);
    StrictMinFound(pts, Sums(pts), q.p0, ArgMin(Sums(pts)));
    StrictMinFound(pts, Diffs(pts), q.p1, ArgMin(Diffs(pts)));
    StrictMaxFound(pts, Sums(pts), q.p2, ArgMax(Sums(pts)));
    StrictMaxFound(pts, Diffs(pts), q.p3, ArgMax(Diffs(pts)));
  }

  /** Among a rectangle's corners the top-left has the least x + y and the bottom-right the greatest, both strictly. */
  lemma SumsOfRectangle(pts: seq<Point>, left: int, top: int, right: int, bottom: int)
    requires left < right && top < bottom
    requires forall k :: 0 <= k < |pts| ==> pts[k] in Corners(Rectangle(left, top, right, bottom))
    ensures var q, keys := Rectangle(left, top, right, bottom), Sums(pts);
      && (forall j, k :: 0 <= j < |pts| && 0 <= k < |pts| && pts[j] == q.p0 && pts[k] != q.p0 ==> keys[j] < keys[k])
      && (forall j, k :: 0 <= j < |pts| && 0 <= k < |pts| && pts[j] == q.p2 && pts[k] != q.p2 ==> keys[k] < keys[j])
  {
    var q, keys := Rectangle(left, top, right, bottom), Sums(pts);
    forall k | 0 <= k < |pts|
      ensures pts[k] != q.p0 ==> Sum(q.p0) < keys[k]
      ensures pts[k] != q.p2 ==> keys[k] < Sum(q.p2)
    {
      assert pts[k] in Corners(q);
    }
  }

  /** Among a rectangle's corners the top-right has the least y − x and the bottom-left the greatest, both strictly. */
  lemma DiffsOfRectangle(pts: seq<Point>, left: int, top: int, right: int, bottom: int)
    requires left < right && top < bottom
    requires forall k :: 0 <= k < |pts| ==> pts[k] in Corners(Rectangle(left, top, right, bottom))
    ensures var q, keys := Rectangle(left, top, right, bottom), Diffs(pts);
      && (forall j, k :: 0 <= j < |pts| && 0 <= k < |pts| && pts[j] == q.p1 && pts[k] != q.p1 ==> keys[j] < keys[k])
      && (forall j, k :: 0 <= j < |pts| && 0 <= k < |pts| && pts[j] == q.p3 && pts[k] != q.p3 ==> keys[k] < keys[j])
  {
    var q, keys := Rectangle(left, top, right, bottom), Diffs(pts);
    forall k | 0 <= k < |pts|
      ensures pts[k] != q.p1 ==> Diff(q.p1) < keys[k]
      ensures pts[k] != q.p3 ==> keys[k] < Diff(q.p3)
    {
      assert pts[k] in Corners(q);
    }
  }

  /*
   * Output size and destination corners (`_warp_perspective`).
   */

  /** A Euclidean edge length, as `np.linalg.norm` returns it. */
  type Length = x: real | 0.0 <= x

  /** The four edges of the ordered contour. */
  datatype Edges = Edges(top: Length, right: Length, bottom: Length, left: Length)

  /** The default of `_warp_perspective`'s `padding` parameter, in both engines. */
  const DefaultPadding: int := 50

  datatype Size = Size(width: int, height: int)

  function MaxLength(a: Length, b: Length): Length {
    if a < b then b else a
  }

  function MaxInt(a: int, b: int): int {
    if a < b then b else a
  }

  /** Python's `int()` on a non-negative float: the whole part. */
  function Trunc(x: Length): (n: nat)
    ensures n as real <= x < n as real + 1.0
  {
    x.Floor
  }

  /** `ImageProcessor`: the longer of each pair of opposite edges, truncated, plus the padding on both sides. */
  function WarpSize(e: Edges, padding: int): (s: Size)
    ensures (s.width - 2 * padding) as real <= MaxLength(e.top, e.bottom) < (s.width - 2 * padding + 1) as real
    ensures (s.height - 2 * padding) as real <= MaxLength(e.left, e.right) < (s.height - 2 * padding + 1) as real
    ensures s.width >= 2 * padding && s.height >= 2 * padding
  {
    Size(Trunc(MaxLength(e.bottom, e.top)) + 2 * padding, Trunc(MaxLength(e.right, e.left)) + 2 * padding)
  }

  /** `PageExtractor`: each edge truncated first, then the longer of each pair, plus the padding on both sides. */
  function WarpSizeOlder(e: Edges, padding: int): (s: Size)
    ensures s.width - 2 * padding == MaxInt(Trunc(e.bottom), Trunc(e.top))
    ensures s.height - 2 * padding == MaxInt(Trunc(e.right), Trunc(e.left))
  {
    Size(MaxInt(Trunc(e.bottom), Trunc(e.top)) + 2 * padding, MaxInt(Trunc(e.right), Trunc(e.left)) + 2 * padding)
  }

  /** Truncation keeps the order of lengths. */
  lemma TruncMonotone(a: Length, b: Length)
    requires a <= b
    ensures Trunc(a) <= Trunc(b)
  {
    assert Trunc(a) as real <= a <= b < (Trunc(b) + 1) as real;
  }

  /** Truncating the longer edge and taking the longer truncated edge give the same size. */
  lemma WarpSizesAgree(e: Edges, padding: int)
    ensures WarpSize(e, padding) == WarpSizeOlder(e, padding)
  {
    if e.bottom <= e.top { TruncMonotone(e.bottom, e.top); } else { TruncMonotone(e.top, e.bottom); }
    if e.right <= e.left { TruncMonotone(e.right, e.left); } else { TruncMonotone(e.left, e.right); }
  }

  /** The destination corners: the output's corners moved `padding` pixels inwards. */
  function Destination(size: Size, padding: int): (q: Quad)
    ensures q.p0.x == q.p3.x == padding && q.p0.y == q.p1.y == padding
    ensures q.p1.x == q.p2.x == size.width - 1 - padding
    ensures q.p2.y == q.p3.y == size.height - 1 - padding
  {
    Rectangle(padding, padding, size.width - padding - 1, size.height - padding - 1)
  }

  /**
   * The destination lies inside the output image once each inner size is
   * at least one pixel, and it is already in corner order once each inner
   * size is at least two pixels.
   */
  lemma DestinationInsideOutput(e: Edges, padding: int)
    requires padding >= 0
    requires Trunc(MaxLength(e.top, e.bottom)) >= 1 && Trunc(MaxLength(e.left, e.right)) >= 1
    ensures var size := WarpSize(e, padding);
      forall p :: p in Corners(Destination(size, padding)) ==>
        0 <= p.x < size.width && 0 <= p.y < size.height
  {
  }

  lemma DestinationOrdered(e: Edges, padding: int)
    requires Trunc(MaxLength(e.top, e.bottom)) >= 2 && Trunc(MaxLength(e.left, e.right)) >= 2
    ensures var dst := Destination(WarpSize(e, padding), padding);
      OrderCorners(Corners(dst)) == dst
  {
    var size := WarpSize(e, padding);
    OrderCornersOfRectangle(Corners(Destination(size, padding)), padding, padding,
      size.width - padding - 1, size.height - padding - 1);
  }

  /*
   * Whether to straighten the photo at all (`_cut_image_to_contours`).
   */

  /** A contour as the image library reports it: its area and its polygon approximation. */
  datatype Contour = Contour(area: real, approx: seq<Point>)

  /** The outcome: the original photo, or the photo warped from these ordered corners. */
  datatype Cut = KeepOriginal | Warp(corners: Quad)

  function Areas(cs: seq<Contour>): (r: seq<real>)
    ensures |r| == |cs| && forall j :: 0 <= j < |cs| ==> r[j] == cs[j].area
  {
    seq(|cs|, j requires 0 <= j < |cs| => cs[j].area)
  }

  /** The cut from one chosen contour: warp iff its approximation has exactly four points. */
  function CutFrom(c: Contour): Cut {
    if |c.approx| == 4 then Warp(OrderCorners(c.approx)) else KeepOriginal
  }

  /**
   * `ImageProcessor`: no contours keep the original; otherwise the first
   * contour of largest area decides.
   */
  function CutImage(cs: seq<Contour>): (r: Cut)
    ensures |cs| == 0 ==> r == KeepOriginal
    ensures forall i: nat :: IsFirstMax(Areas(cs), i) ==> r == CutFrom(cs[i])
  {
    if |cs| == 0 then KeepOriginal
    else
      var i := ArgMax(Areas(cs));
      FirstMaxUnique(Areas(cs), i);
      CutFrom(cs[i])
  }

  /**
   * `sorted(contours, key=area, reverse=True)[:1]`: Python's sort is
   * stable, and stays so when reversed, so the single contour kept is the
   * first of largest area.
   */
  function LargestContours(cs: seq<Contour>): (r: seq<Contour>)
    ensures |cs| == 0 ==> r == []
    ensures forall i: nat :: IsFirstMax(Areas(cs), i) ==> r == [cs[i]]
  {
    if |cs| == 0 then []
    else
      var i := ArgMax(Areas(cs));
      FirstMaxUnique(Areas(cs), i);
      [cs[i]]
  }

  /** `_get_receipt_contour`: the approximation of the first contour that has four points, or none. */
  function ReceiptContour(cs: seq<Contour>): (r: seq<Point>)
    ensures r == [] <==> forall i :: 0 <= i < |cs| ==> |cs[i].approx| != 4
    ensures r != [] ==> exists i :: 0 <= i < |cs| && r == cs[i].approx &&
                                  forall j :: 0 <= j < i ==> |cs[j].approx| != 4
  {
    if |cs| == 0 then []
    else if |cs[0].approx| == 4 then cs[0].approx
    else
      var r := ReceiptContour(cs[1..]);
      assert forall i :: 1 <= i < |cs| ==> cs[i] == cs[1..][i - 1];
      if r != [] then
        var i :| 0 <= i < |cs[1..]| && r == cs[1..][i].approx && forall j :: 0 <= j < i ==> |cs[1..][j].approx| != 4;
        assert r == cs[i + 1].approx && forall j :: 0 <= j < i + 1 ==> |cs[j].approx| != 4;
        r
      else
        r
  }

  /**
   * `PageExtractor`: the receipt contour among the largest ones, warped when
   * there is one. No contours keep the original; otherwise the first contour
   * of largest area decides, warped iff it has four corners.
   */
  function CutPage(cs: seq<Contour>): (r: Cut)
    ensures |cs| == 0 ==> r == KeepOriginal
    ensures forall i: nat :: IsFirstMax(Areas(cs), i) ==> r == CutFrom(cs[i])
  {
    var rc := ReceiptContour(LargestContours(cs));
    LargestFourCornered(cs, rc);
    if |rc| > 0 then Warp(OrderCorners(rc)) else KeepOriginal
  }

  /** The four-cornered contour among the largest ones is the first largest one, when that has four corners. */
  lemma LargestFourCornered(cs: seq<Contour>, rc: seq<Point>)
    requires rc == ReceiptContour(LargestContours(cs))
    ensures forall i: nat :: IsFirstMax(Areas(cs), i) ==> (|rc| > 0 <==> |cs[i].approx| == 4) && (|rc| > 0 ==> rc == cs[i].approx)
    ensures |cs| == 0 ==> rc == []
  {
    if |cs| > 0 {
      var i := ArgMax(Areas(cs));
      FirstMaxUnique(Areas(cs), i);
      assert LargestContours(cs) == [cs[i]];
      assert rc != [] <==> |cs[i].approx| == 4;
      if rc != [] {
        assert rc == cs[i].approx;
      }
    }
  }

  /** Both engines look only at the first contour of largest area, so they always decide alike. */
  lemma CutEnginesAgree(cs: seq<Contour>)
    ensures CutPage(cs) == CutImage(cs)
  {
    if |cs| > 0 {
      var i := ArgMax(Areas(cs));
      assert CutPage(cs) == CutFrom(cs[i]) == CutImage(cs);
    }
  }
}
