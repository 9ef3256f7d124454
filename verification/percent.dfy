/** Percentages of counts, rounded the way the pages round them. All arithmetic is exact: the
    model computes the rounded value of the rational `part / whole * 100`, leaving out the
    floating-point error of the JavaScript expression. */
module Percent {

  /** `whole > 0 ? Math.round(part / whole * 100) : 0`: the whole percentage nearest to
      `100 * part / whole`, halves rounded up. */
  function RoundedPercent(part: nat, whole: nat): (r: nat)
    ensures whole == 0 ==> r == 0
    ensures whole > 0 ==> 2 * whole * r <= 200 * part + whole < 2 * whole * (r + 1)
  {
    if whole > 0 then (200 * part + whole) / (2 * whole) else 0
  }

  /** Cancelling a positive factor keeps a strict inequality. */
  lemma CancelLess(w: int, a: int, b: int)
    requires w > 0 && w * a < w * b
    ensures a < b
  {
    assert w * (b - a) > 0;
  }

  /** A part no larger than the whole is at most 100 percent, and the whole is exactly 100. */
  lemma RoundedPercentBounds(part: nat, whole: nat)
    requires whole > 0
    ensures part <= whole ==> RoundedPercent(part, whole) <= 100
    ensures RoundedPercent(whole, whole) == 100
    ensures RoundedPercent(0, whole) == 0
  {
    var w2 := 2 * whole;
    if part <= whole {
      var r := RoundedPercent(part, whole);
      assert w2 * r <= 201 * whole;
      assert 201 * whole < w2 * 101;
      CancelLess(w2, r, 101);
    }
    var full := RoundedPercent(whole, whole);
    assert w2 * full <= 201 * whole < w2 * (full + 1);
    assert w2 * 100 < w2 * (full + 1);
    CancelLess(w2, 100, full + 1);
    assert w2 * full < w2 * 101;
    CancelLess(w2, full, 101);
    var none := RoundedPercent(0, whole);
    assert w2 * none < w2 * 1;
    CancelLess(w2, none, 1);
  }

  /** A larger part never gets a smaller percentage of the same whole. */
  lemma RoundedPercentMonotonic(a: nat, b: nat, whole: nat)
    requires a <= b
    ensures RoundedPercent(a, whole) <= RoundedPercent(b, whole)
  {
    if whole > 0 {
      var ra := RoundedPercent(a, whole);
      var rb := RoundedPercent(b, whole);
      assert 2 * whole * ra <= 200 * a + whole <= 200 * b + whole < 2 * whole * (rb + 1);
      CancelLess(2 * whole, ra, rb + 1);
    }
  }
}
