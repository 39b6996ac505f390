/**
 * The trade record, the 2-decimal rounding of `toFixed(2)`, and the on-device
 * store: one list of trades under the key "trades" and one list of known
 * stock names under the key "stockList", each read and replaced in full.
 * JSON serialisation is taken to be the identity.
 */
module TradeData {

  /** The `type` field of a trade: 'Buy' or 'Sell'. */
  datatype Side = Buy | Sell

  /**
   * One trade record. `date` is the trade date as a timestamp, `quantity`
   * and `price` are the already-parsed numbers, and `strategy` is the tag
   * ('Intraday' or 'Swing') as free text, since the screens compare it both
   * case-sensitively and case-insensitively.
   */
  datatype Trade = Trade(
    id: string,
    stockName: string,
    side: Side,
    price: real,
    quantity: int,
    date: int,
    strategy: string)

  /** The value of one trade: quantity times price. */
  function Value(t: Trade): real {
    t.quantity as real * t.price
  }

  /**
   * The number of hundredths `toFixed(2)` rounds `x` to: the nearest whole
   * number of hundredths, halves away from zero (toFixed rounds the
   * magnitude and then restores the sign).
   */
  function Hundredths(x: real): int {
    if x < 0.0 then -((-x * 100.0 + 0.5).Floor) else (x * 100.0 + 0.5).Floor
  }

  /** `Number(x.toFixed(2))` on an exact real. */
  function Round2(x: real): real {
    Hundredths(x) as real / 100.0
  }

  /**
   * The rounded amount is a whole number of hundredths, at most half a
   * hundredth away from `x`, and has the sign of `x`.
   */
  lemma Round2Spec(x: real)
    ensures Round2(x) * 100.0 == Hundredths(x) as real
    ensures -0.005 <= Round2(x) - x <= 0.005
    ensures x == 0.0 ==> Round2(x) == 0.0
    ensures x >= 0.0 ==> Round2(x) >= 0.0
    ensures x <= 0.0 ==> Round2(x) <= 0.0
  {
  }

  /** An amount already on the hundredths grid is left as it is. */
  lemma Round2Exact(n: int)
    ensures Round2(n as real / 100.0) == n as real / 100.0
  {
    var x := n as real / 100.0;
    assert x * 100.0 == n as real;
    if x < 0.0 {
      assert -x * 100.0 + 0.5 == (-n) as real + 0.5;
      assert ((-n) as real + 0.5).Floor == -n;
    } else {
      assert x * 100.0 + 0.5 == n as real + 0.5;
      assert (n as real + 0.5).Floor == n;
    }
  }

  /**
   * The persisted state: the full trade list and the stock-name registry
   * used for autocompletion. A missing key reads as the empty list.
   */
  class TradeStore {
    var trades: seq<Trade>
    var stockNames: seq<string>

    /** A fresh install: neither key is present. */
    constructor ()
      ensures trades == [] && stockNames == []
    {
      trades := [];
      stockNames := [];
    }
  }
}
