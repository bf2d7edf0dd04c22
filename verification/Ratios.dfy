/** Comparing a quotient with a threshold. */
module Ratios {

  lemma ScaledKeepsOrder(x: real, y: real, k: real)
    requires k > 0.0
    ensures x >= y <==> x * k >= y * k
  {
    if x >= y {
      assert (x - y) * k >= 0.0;
    } else {
      assert (y - x) * k > 0.0;
    }
  }

  /** A quotient reaches a threshold exactly when the product does. */
  lemma QuotientReaches(part: real, whole: real, ratio: real)
    requires whole > 0.0
    ensures part / whole >= ratio <==> part >= ratio * whole
  {
    ScaledKeepsOrder(part / whole, ratio, whole);
    assert part / whole * whole == part;
  }
}
