/** Records shared by the execution adapters. */
module Execution {
  import opened Common

  datatype Venue = BinancePm | Hyperliquid | InteractiveBrokers

  datatype VenueOrderState = Open | PartiallyFilled | Filled | Canceled | Rejected | Unknown

  datatype VenueOrderSnapshot = VenueOrderSnapshot(
    venueOrderId: string, clientOrderId: Option<string>, asset: string, side: Side,
    requested: real, filled: real, limitPrice: Option<real>, state: VenueOrderState)

  datatype AssetKey = AssetKey(venue: Venue, asset: string)

  function Signed(quantity: real, side: Side): real {
    if side.Buy? then quantity else -quantity
  }

  /** The quantity-weighted price of `q0` at `p0` and `q1` at `p1`. */
  function WeightedPrice(p0: real, q0: real, p1: real, q1: real, total: real): real
    requires total != 0.0
  {
    (p0 * q0 + p1 * q1) / total
  }

  /** The whole quantity at the weighted price costs what the parts cost. */
  lemma WeightedPriceCost(p0: real, q0: real, p1: real, q1: real, total: real)
    requires total != 0.0
    ensures WeightedPrice(p0, q0, p1, q1, total) * total == p0 * q0 + p1 * q1
  {
  }

  /** It lies between any bounds on both prices. */
  lemma WeightedPriceBetween(p0: real, q0: real, p1: real, q1: real, lo: real, hi: real)
    requires q0 > 0.0 && q1 > 0.0 && lo <= p0 <= hi && lo <= p1 <= hi
    ensures lo <= WeightedPrice(p0, q0, p1, q1, q0 + q1) <= hi
  {
    var d := q0 + q1;
    Scale(lo, p0, q0);
    Scale(lo, p1, q1);
    Scale(p0, hi, q0);
    Scale(p1, hi, q1);
    SumAbove(lo, p0, q0, p1, q1, d);
    SumBelow(hi, p0, q0, p1, q1, d);
    QuotientBetween(p0 * q0 + p1 * q1, d, lo, hi);
  }

  lemma Scale(x: real, y: real, k: real)
    requires x <= y && k > 0.0
    ensures x * k <= y * k
  {
  }

  lemma SumAbove(x: real, p0: real, q0: real, p1: real, q1: real, d: real)
    requires d == q0 + q1 && x * q0 <= p0 * q0 && x * q1 <= p1 * q1
    ensures x * d <= p0 * q0 + p1 * q1
  {
    assert x * d == x * q0 + x * q1;
  }

  lemma SumBelow(x: real, p0: real, q0: real, p1: real, q1: real, d: real)
    requires d == q0 + q1 && x * q0 >= p0 * q0 && x * q1 >= p1 * q1
    ensures x * d >= p0 * q0 + p1 * q1
  {
    assert x * d == x * q0 + x * q1;
  }

  lemma QuotientBetween(n: real, d: real, lo: real, hi: real)
    requires d > 0.0 && lo * d <= n <= hi * d
    ensures lo <= n / d <= hi
  {
    var r := n / d;
    assert r * d == n;
    CancelFactor(lo, r, d);
    CancelFactor(r, hi, d);
  }

  lemma CancelFactor(x: real, y: real, k: real)
    requires k > 0.0 && x * k <= y * k
    ensures x <= y
  {
    assert (y - x) * k == y * k - x * k;
  }

  function DecimalText(n: nat): string {
    if n < 10 then [('0' as int + n) as char] else DecimalText(n / 10) + [('0' as int + n % 10) as char]
  }

  lemma {:induction false} DecimalTextInjective(a: nat, b: nat)
    requires DecimalText(a) == DecimalText(b)
    ensures a == b
    decreases a + b
  {
    var s, t := DecimalText(a), DecimalText(b);
    DecimalTextNonEmpty(a / 10);
    DecimalTextNonEmpty(b / 10);
    assert s[|s| - 1] == t[|t| - 1];
    if a >= 10 && b >= 10 {
      assert s[..|s| - 1] == DecimalText(a / 10) && t[..|t| - 1] == DecimalText(b / 10);
      DecimalTextInjective(a / 10, b / 10);
    }
  }

  lemma DecimalTextNonEmpty(n: nat)
    ensures DecimalText(n) != ""
  {
  }
}
