/**
 * What the market-data source hands the dashboards: option-chain rows as the
 * options and demo dashboards read them (volatility with `row.get(..., 0)`),
 * and the price fields the stock and demo dashboards fall back through.
 */
module MarketData {
  import opened Common

  /**
   * An implied volatility as a quote row holds it: the column may be absent
   * (`row.get(..., default)` then yields the default) or hold NaN.
   */
  datatype RawIv = Missing | NaN | Value(v: real)

  /** One row of an option chain; numeric columns other than the volatility already defaulted. */
  datatype Quote = Quote(strike: real, lastPrice: real, bid: real, ask: real, volume: int, openInterest: int, iv: RawIv)

  datatype Chain = Chain(calls: seq<Quote>, puts: seq<Quote>)

  /**
   * The volatility a row then works with: `row.get('impliedVolatility', 0)`
   * for an absent column; NaN is read as 0 too, as `pd.isna(iv)` makes it,
   * or as `iv > 0` treats it.
   */
  function IvOrZero(iv: RawIv): real
  {
    match iv
    case Value(v) => v
    case _ => 0.0
  }

  /**
   * The price fields of `stock.info` (`currentPrice`, `regularMarketPrice`)
   * and the last close of a one-day history; `None` where absent or empty
   * (a field present with the value `None` is not modelled).
   */
  datatype PriceInfo = PriceInfo(currentPrice: Option<real>, regularMarketPrice: Option<real>, lastClose: Option<real>)

  /**
   * `info.get('currentPrice', info.get('regularMarketPrice', 0))`, replaced by
   * the last close only when that reads 0 and a close exists.
   */
  function QuotedPrice(info: PriceInfo): (p: real)
    ensures info.currentPrice.Some? && info.currentPrice.value != 0.0 ==> p == info.currentPrice.value
    ensures info.currentPrice.None? && info.regularMarketPrice.Some? && info.regularMarketPrice.value != 0.0 ==> p == info.regularMarketPrice.value
    ensures p != 0.0 ==> Some(p) == info.currentPrice || Some(p) == info.regularMarketPrice || Some(p) == info.lastClose
    ensures p == 0.0 ==> info.lastClose.None? || info.lastClose.value == 0.0
    ensures info.currentPrice == Some(0.0) || (info.currentPrice.None? && info.regularMarketPrice in {None, Some(0.0)})
            ==> p == (if info.lastClose.Some? then info.lastClose.value else 0.0)
  {
    var quoted := match info.currentPrice
      case Some(p) => p
      case None => match info.regularMarketPrice case Some(p) => p case None => 0.0;
    if quoted == 0.0 && info.lastClose.Some? then info.lastClose.value else quoted
  }
}
