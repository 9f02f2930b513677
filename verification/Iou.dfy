/** Intersection over union of integer boxes, as an exact ratio. */
module Iou {

  datatype Box = Box(x1: int, y1: int, x2: int, y2: int)

  function Max(a: int, b: int): int { if a >= b then a else b }

  function Min(a: int, b: int): int { if a <= b then a else b }

  function Area(b: Box): nat { Product(Max(0, b.x2 - b.x1), Max(0, b.y2 - b.y1)) }

  function Product(w: nat, h: nat): nat { w * h }

  function Common(a: Box, b: Box): Box {
    Box(Max(a.x1, b.x1), Max(a.y1, b.y1), Min(a.x2, b.x2), Min(a.y2, b.y2))
  }

  predicate Overlap(a: Box, b: Box) {
    var c := Common(a, b);
    c.x1 < c.x2 && c.y1 < c.y2
  }

  function ComputeIou(a: Box, b: Box): real {
    if !Overlap(a, b) then 0.0
    else
      var c := Common(a, b);
      var intersection := Product(c.x2 - c.x1, c.y2 - c.y1);
      var union := Area(a) + Area(b) - intersection;
      if union <= 0 then 0.0 else intersection as real / union as real
  }

  // A smaller rectangle of equal area is the same rectangle.
  lemma ProductMonotone(w: nat, h: nat, w': nat, h': nat)
    requires 0 < w <= w' && 0 < h <= h'
    ensures 0 < Product(w, h) <= Product(w', h')
    ensures Product(w, h) == Product(w', h') ==> w == w' && h == h'
  {
    assert w' * h' == w * h + w * (h' - h) + (w' - w) * h';
    if w < w' { assert (w' - w) * h' > 0; }
    if h < h' { assert w * (h' - h) > 0; }
    assert w * h > 0 && w * (h' - h) >= 0 && (w' - w) * h' >= 0;
  }

  lemma CommonInside(a: Box, b: Box)
    requires Overlap(a, b)
    ensures 0 < Area(Common(a, b)) <= Area(a)
    ensures Area(Common(a, b)) == Area(a) ==> Common(a, b) == a
  {
    var c := Common(a, b);
    ProductMonotone(c.x2 - c.x1, c.y2 - c.y1, a.x2 - a.x1, a.y2 - a.y1);
  }

  lemma Ratio(n: int, d: int)
    requires 0 < n <= d
    ensures 0.0 < n as real / d as real <= 1.0
    ensures n as real / d as real == 1.0 <==> n == d
  {
    var q := n as real / d as real;
    assert q * d as real == n as real;
    assert (1.0 - q) * d as real == d as real - n as real;
  }

  // Symmetric, between zero and one, positive exactly on a real overlap, and one
  // exactly for equal nonempty boxes.
  lemma IouFacts(a: Box, b: Box)
    ensures ComputeIou(a, b) == ComputeIou(b, a)
    ensures 0.0 <= ComputeIou(a, b) <= 1.0
    ensures ComputeIou(a, b) > 0.0 <==> Overlap(a, b)
    ensures ComputeIou(a, b) == 1.0 <==> a == b && a.x1 < a.x2 && a.y1 < a.y2
  {
    assert Common(a, b) == Common(b, a);
    if Overlap(a, b) {
      CommonInside(a, b);
      CommonInside(b, a);
      var c := Common(a, b);
      assert Area(c) == Product(c.x2 - c.x1, c.y2 - c.y1);
      Ratio(Area(c), Area(a) + Area(b) - Area(c));
    }
  }

  // The cell whose upper left corner is (x, y) lies in the box.
  predicate Covers(b: Box, x: int, y: int) { b.x1 <= x < b.x2 && b.y1 <= y < b.y2 }

  // The common box has exactly the common cells.
  lemma CommonCells(a: Box, b: Box, x: int, y: int)
    ensures Covers(Common(a, b), x, y) <==> Covers(a, x, y) && Covers(b, x, y)
  {
  }

  // The ratio is positive exactly where two boxes have a cell in common, and then the
  // ratio times the area of the union is that of the common box.
  lemma IouIs(a: Box, b: Box)
    ensures ComputeIou(a, b) > 0.0 <==> exists x, y :: Covers(a, x, y) && Covers(b, x, y)
    ensures ComputeIou(a, b) > 0.0 ==>
      ComputeIou(a, b) * (Area(a) + Area(b) - Area(Common(a, b))) as real == Area(Common(a, b)) as real
  {
    IouFacts(a, b);
    var c := Common(a, b);
    if Overlap(a, b) {
      assert Covers(a, c.x1, c.y1) && Covers(b, c.x1, c.y1);
      IouRatio(a, b);
    }
  }

  lemma IouRatio(a: Box, b: Box)
    requires Overlap(a, b)
    ensures ComputeIou(a, b) * (Area(a) + Area(b) - Area(Common(a, b))) as real == Area(Common(a, b)) as real
  {
    var n, d := Area(Common(a, b)), Area(a) + Area(b) - Area(Common(a, b));
    RatioOfAreas(a, b);
    Divided(ComputeIou(a, b), n, d);
  }

  lemma RatioOfAreas(a: Box, b: Box)
    requires Overlap(a, b)
    ensures var d := Area(a) + Area(b) - Area(Common(a, b));
      d > 0 && ComputeIou(a, b) == Area(Common(a, b)) as real / d as real
  {
    CommonInside(a, b);
    CommonInside(b, a);
    var c := Common(a, b);
    assert Area(c) == Product(c.x2 - c.x1, c.y2 - c.y1);
  }

  lemma Divided(r: real, n: int, d: int)
    requires d > 0 && r == n as real / d as real
    ensures r * d as real == n as real
  {
  }

  // The area of a box is that of its sides, and nothing where they are crossed.
  lemma AreaIs(b: Box)
    ensures b.x1 <= b.x2 && b.y1 <= b.y2 ==> Area(b) == (b.x2 - b.x1) * (b.y2 - b.y1)
    ensures b.x1 >= b.x2 || b.y1 >= b.y2 ==> Area(b) == 0
  {
  }
}
