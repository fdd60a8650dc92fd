/**
 The two scalar lookups with best-effort fallbacks: the current price of the
 underlying and the risk-free rate proxy. Each provider answer is an Option:
 None when asking for it raised.
 */
module MarketScalars {
  import opened Wrappers

  /** The provider's quote summary: field name to numeric value. */
  type Info = map<string, real>

  const CurrentPriceKey: string := "currentPrice"
  const RegularMarketPriceKey: string := "regularMarketPrice"

  /** The rate returned whenever the Treasury-bill history is unavailable. */
  const FallbackRiskFreeRate: real := 0.0525

  /** The most recent close of a price history; None when fetching the history
      raised or when it is empty (taking the last element of an empty column
      raises). */
  function LastClose(closes: Option<seq<real>>): (r: Option<real>)
    ensures r.Some? <==> closes.Some? && |closes.value| > 0
    ensures r.Some? ==> r.value == closes.value[|closes.value| - 1]
  {
    match closes
    case None => None
    case Some(cs) => if |cs| == 0 then None else Some(cs[|cs| - 1])
  }

  /** The current price: the `currentPrice` field if present, else the
      `regularMarketPrice` field, else the last close of the five-day history,
      else no price. */
  function GetCurrentPrice(info: Option<Info>, fiveDayCloses: Option<seq<real>>): (r: Option<real>)
    ensures info.Some? && CurrentPriceKey in info.value ==> r == Some(info.value[CurrentPriceKey])
    ensures info.Some? && CurrentPriceKey !in info.value && RegularMarketPriceKey in info.value
         ==> r == Some(info.value[RegularMarketPriceKey])
    ensures (info.None? || (CurrentPriceKey !in info.value && RegularMarketPriceKey !in info.value))
         ==> r == LastClose(fiveDayCloses)
    ensures r.None? <==>
      && (info.None? || (CurrentPriceKey !in info.value && RegularMarketPriceKey !in info.value))
      && (fiveDayCloses.None? || fiveDayCloses.value == [])
  {
    if info.Some? && CurrentPriceKey in info.value then Some(info.value[CurrentPriceKey])
    else if info.Some? && RegularMarketPriceKey in info.value then Some(info.value[RegularMarketPriceKey])
    else LastClose(fiveDayCloses)
  }

  /** A price, when there is one, is a value some provider answer gave. */
  lemma CurrentPriceComesFromProvider(info: Option<Info>, fiveDayCloses: Option<seq<real>>)
    ensures GetCurrentPrice(info, fiveDayCloses).Some? ==>
      || (info.Some? && GetCurrentPrice(info, fiveDayCloses).value in info.value.Values)
      || (fiveDayCloses.Some? && GetCurrentPrice(info, fiveDayCloses).value in fiveDayCloses.value)
  {
    var r := GetCurrentPrice(info, fiveDayCloses);
    if info.Some? && CurrentPriceKey in info.value {
      assert info.value[CurrentPriceKey] in info.value.Values;
    } else if info.Some? && RegularMarketPriceKey in info.value {
      assert info.value[RegularMarketPriceKey] in info.value.Values;
    }
  }

  /** The risk-free rate: the last close of the Treasury-bill history, quoted in
      percent, as a decimal; the fixed fallback when the history is unavailable
      or empty. */
  function GetRiskFreeRate(treasuryCloses: Option<seq<real>>): (r: real)
    ensures LastClose(treasuryCloses).Some? ==> r * 100.0 == LastClose(treasuryCloses).value
    ensures LastClose(treasuryCloses).None? ==> r == FallbackRiskFreeRate
  {
    match treasuryCloses
    case Some(cs) => if |cs| > 0 then cs[|cs| - 1] / 100.0 else FallbackRiskFreeRate
    case None => FallbackRiskFreeRate
  }
}
