# Option-row pipeline of the options data download script

This project models the data-shaping core of `scripts/download_data.py`. That script downloads one
ticker's price history and option chains from a market-data provider and writes them to files. The
model covers the parts that are logic rather than I/O:

- **Liquidity filter.** A contract row is kept only when its volume, open interest, bid and ask are
  all strictly positive. Calls and puts go through the same filter.
- **Chain assembly (`get_options_chain`).** The first `max_expirations` listed expirations are
  fetched in provider order. Each row is tagged with its expiration's date string, day count, year
  fraction (days / 365.25) and mid price ((bid + ask) / 2), then filtered for liquidity. The
  per-expiration tables of each leg are concatenated in expiration order. An empty listing, a failed
  listing, or a failure on any fetched expiration gives two empty legs.
- **Expiry-window filter (`filter_target_expiry`).** Keeps the rows whose day count lies in
  `[target - tolerance, target + tolerance]`. The defaults are 90 and 15.
- **Fallback lookups.** The current price is `currentPrice`, else `regularMarketPrice`, else the
  last close of a five-day history, else no price. The risk-free rate is the last Treasury-bill
  close divided by 100, else the constant 0.0525.

The provider is input data. The expiration listing is an `Option` (None when asking for it raised).
Each expiration carries its date string, the calendar day number that string denotes, and either its
calls and puts or a failure. The quote summary is an `Option` of a field map. Each price history is
an `Option` of its closes. "Now" is a parameter: a day number plus microseconds since midnight. The
day count is the floor of the exact day difference to the expiration's midnight, so an expiration
dated today, seen after midnight, is -1 days away.

Prices, `time_to_expiry` and `mid_price` are reals, so "time = days / 365.25" and
"mid = (bid + ask) / 2" hold exactly. A missing (NaN) volume or open interest is `None`, and it fails
the liquidity predicate, as a NaN comparison does.

Modules: `Wrappers` (Option), `Seqs` (order-preserving selection and concatenation), `Quotes`
(rows, tagging, liquidity, day count), `ExpiryWindow`, `OptionsChain` (the reference function
`OptionsChainOf` and the loop `GetOptionsChain` proved equal to it), `MarketScalars`, and `Pipeline`
(the options part of `main`).

`max_expirations` is an integer with Python slice meaning: `exps[:k]` with a negative `k` drops
`-k` expirations from the end. The empty-table guard of `filter_target_expiry` matters in the
source only because an empty column-less table has no `days_to_expiry` column. On sequences it
returns the empty input unchanged, and the model states that.

## Model

| member | source | states |
|---|---|---|
| Seqs.Filter | scripts/download_data.py:52-63 | the mask selection is no longer than its input and every kept row satisfies the predicate |
| Seqs.FilterMultiplicity | scripts/download_data.py:116-119 | a row the predicate accepts occurs in the result exactly as often as in the input; any other row does not occur |
| Seqs.FilterMembers | scripts/download_data.py:116-119 | a row is in the selection iff it is in the input and satisfies the predicate (soundness and completeness) |
| Seqs.FilterIsSubsequence | scripts/download_data.py:116-119 | the selection is a subsequence of the input: rows are only deleted, never reordered |
| Seqs.FilterIdempotent | scripts/download_data.py:116-119 | selecting twice with the same predicate gives the result of selecting once |
| Seqs.Concat | scripts/download_data.py:68-69 | the tables joined one after another in list order; its properties are carried by ConcatMembers, ConcatBlocks and ConcatLength |
| Seqs.ConcatMembers | scripts/download_data.py:68-69 | a row is in the concatenated tables iff it is in one of the tables |
| Seqs.ConcatBlocks | scripts/download_data.py:68-69 | table k occupies the block of the concatenation that starts after the rows of tables 0 .. k-1, so the tables are joined in list order |
| Seqs.ConcatLength | scripts/download_data.py:68-69 | the concatenation is exactly as long as all the tables together |
| Quotes.DaysUntil | scripts/download_data.py:39-40 | the day count d satisfies d <= exact day difference < d + 1 (floor); an expiration dated today, after midnight, is -1 |
| Quotes.Tag | scripts/download_data.py:42-49 | a tagged row keeps its contract and carries the expiration string and day count, with time * 365.25 = days and mid * 2 = bid + ask |
| Quotes.TagAll | scripts/download_data.py:42-49 | tagging a leg keeps its length and order and tags every row with the same expiration fields |
| Quotes.TagAllKeepsRows | scripts/download_data.py:35-49 | dropping the added columns gives back exactly the provider's rows |
| Quotes.IsLiquid | scripts/download_data.py:52-63 | the row predicate: volume, open interest, bid and ask all strictly positive, a missing value failing; its meaning for the filter is carried by LiquidRowsSoundAndComplete and LiquidRowsMultiplicity |
| Quotes.LiquidRows | scripts/download_data.py:52-63 | the liquidity filter never adds rows |
| Quotes.LiquidRowsSoundAndComplete | scripts/download_data.py:52-63 | every kept row has volume, open interest, bid and ask > 0; every such input row is kept; order is preserved |
| Quotes.LiquidRowsMultiplicity | scripts/download_data.py:52-63 | each liquid row is kept as often as it occurs; every row failing one of the four conditions is dropped entirely |
| Quotes.LiquidRowsIdempotent | scripts/download_data.py:52-63 | filtering for liquidity twice equals filtering once |
| ExpiryWindow.FilterTargetExpiry | scripts/download_data.py:111-119 | an empty input is returned unchanged; exactly the input rows with target - tolerance <= days <= target + tolerance are kept, as a subsequence |
| ExpiryWindow.FilterTargetExpiryMultiplicity | scripts/download_data.py:116-119 | each row in the window is kept as often as it occurs; no other row appears |
| ExpiryWindow.FilterTargetExpiryIdempotent | scripts/download_data.py:116-119 | applying the expiry-window filter twice equals applying it once |
| ExpiryWindow.DefaultWindow | scripts/download_data.py:111 | with the defaults (90 from the configuration, 15) the kept rows are exactly those with 75 <= days <= 105 |
| OptionsChain.SliceEnd | scripts/download_data.py:32 | the length of `exps[:max_expirations]`: min(k, n) for k >= 0, n + k (at least 0) for negative k, never more than listed |
| OptionsChain.Selected | scripts/download_data.py:32 | the fetched expirations `exps[:max_expirations]`, a prefix in provider order; its properties are carried by SliceEnd, ChainFetchesFirstExpirations and ChainIgnoresLaterExpirations |
| OptionsChain.Frame | scripts/download_data.py:39-63 | one leg of one expiration tagged with its date and day count and filtered for liquidity; its properties are carried by FrameMembers |
| OptionsChain.OptionsChainOf | scripts/download_data.py:19-75 | the reference chain: empty for an unavailable or empty listing or any failed fetched expiration, else each leg's per-expiration frames concatenated in order; its properties are carried by GetOptionsChain and the Chain… lemmas |
| OptionsChain.ChainFetchesFirstExpirations | scripts/download_data.py:32-66 | when none of the first max_expirations expirations fails, every liquid call and put of each of them (index j < max_expirations) is in the chain, tagged with that expiration's date and day count |
| OptionsChain.GetOptionsChain | scripts/download_data.py:19-75 | the loop that appends each expiration's liquid calls and puts and concatenates them returns exactly the reference chain; an unavailable or empty listing, or a failure on any fetched expiration, gives empty calls and puts |
| OptionsChain.FrameMembers | scripts/download_data.py:39-63 | a row is in an expiration's table iff it is one of that leg's liquid contracts tagged with that expiration's date and day count |
| OptionsChain.ChainCallsMembers | scripts/download_data.py:32-69 | a row is among the chain's calls iff the listing is non-empty, no fetched expiration failed, and it is a liquid call contract of one of the first max_expirations expirations tagged with that expiration's fields |
| OptionsChain.ChainPutsMembers | scripts/download_data.py:32-69 | the same characterization for the puts |
| OptionsChain.ChainCallsInExpirationOrder | scripts/download_data.py:32-69 | when the chain does not collapse, the k-th fetched expiration's liquid tagged calls form one contiguous block of the calls, right after the frames of the expirations before it |
| OptionsChain.ChainPutsInExpirationOrder | scripts/download_data.py:32-69 | the same block placement for the puts |
| OptionsChain.ChainLengthBound | scripts/download_data.py:65-69 | each leg has at most as many rows as the provider delivered for that leg across the fetched expirations |
| OptionsChain.ChainIgnoresLaterExpirations | scripts/download_data.py:32 | expirations past the first max_expirations are never fetched: appending more of them, failing or not, does not change the chain |
| OptionsChain.ChainLegsSymmetric | scripts/download_data.py:35-66 | calls and puts are treated alike: exchanging every expiration's calls and puts exchanges the two legs of the chain |
| MarketScalars.LastClose | scripts/download_data.py:105-109 | the last close exists iff the history was fetched and is non-empty, and it is the history's final element |
| MarketScalars.GetCurrentPrice | scripts/download_data.py:93-109 | currentPrice wins when present, else regularMarketPrice, else the last five-day close; there is no price iff neither field is available and the history is missing or empty |
| MarketScalars.CurrentPriceComesFromProvider | scripts/download_data.py:98-107 | a returned price is a value of the quote summary or a close of the history, never invented |
| MarketScalars.GetRiskFreeRate | scripts/download_data.py:82-91 | with a non-empty Treasury history the rate times 100 is the last close; otherwise (empty history or failure) the rate is 0.0525 |
| Pipeline.TargetOptions | scripts/download_data.py:131-135 | the chain with both legs narrowed by the expiry-window filter with its defaults; its properties are carried by TargetCallsMembers, TargetPutsMembers, TargetCallsInvariant, TargetPutsInvariant, NoExpirationsNoOptions and TwoOfThreeCallsKept |
| Pipeline.TargetCallsMembers | scripts/download_data.py:131-135 | a call row is in the output iff it is among the chain's calls and 75 <= days <= 105 |
| Pipeline.TargetPutsMembers | scripts/download_data.py:131-135 | a put row is in the output iff it is among the chain's puts and 75 <= days <= 105 |
| Pipeline.TargetCallsInvariant | scripts/download_data.py:131-135 | every call row that reaches the output is liquid, has 75 <= days <= 105, time * 365.25 = days and mid * 2 = bid + ask |
| Pipeline.TargetPutsInvariant | scripts/download_data.py:131-135 | the same for every put row that reaches the output |
| Pipeline.NoExpirationsNoOptions | scripts/download_data.py:25-26 | with no expirations, or no listing, both output legs are empty |
| Pipeline.TwoOfThreeCallsKept | scripts/download_data.py:131-135 | one expiration 90 days out with three call rows, one with zero volume: exactly the other two calls reach the output, in their order |

## Left out

- The provider calls (`yf.Ticker`, `.options`, `.option_chain`, `.info`, `.history`): network I/O through a library that is not part of this model. Their answers are inputs, and a raised exception is `None` or `ChainError`.
- `get_stock_data` and the fatal price-history fetch of `main`: a bare provider call with no logic.
- `calculate_volatility`: floating-point `pct_change`, sample standard deviation and a square root, which reals in Dafny cannot state faithfully.
- `main`'s directory creation, CSV and JSON writing, console printing and timestamp, including the `:.2f` format of a possibly absent price. Only its options steps (lines 131-135) are modelled, in `Pipeline.TargetOptions`.
- Wall-clock time: `datetime.now()` is the `now` parameter.
- Parsing the expiration string with `pd.to_datetime`: each expiration carries the day number its string denotes. A malformed string, which would raise and empty the chain, is not modelled.
- Floating-point rounding of `days / 365.25` and `(bid + ask) / 2`: stated over exact reals.
- NaN bid or ask: bid and ask are always numbers. A missing volume or open interest is modelled.
- Quote-summary fields present with a null or non-numeric value: the summary is a map from field name to number.
- `hist['Close'][-1]` is modelled as positional access to the last close; pandas versions in which integer keys on a date index are no longer positional would raise, and the rate would then fall back.
- The console message printed when the chain fetch fails (download_data.py:74): output only; the model returns the two empty legs.
- A NaN last close: `iloc[-1]` (line 107) would return NaN as the price and `hist['Close'][-1] / 100` (line 88) NaN as the rate; histories are sequences of reals, so neither case can arise in the model.
- Exceptions from anything other than the provider calls (a chain table missing a column, for instance) are not modelled.
- pandas mechanics (`.copy()`, boolean masks, `pd.concat` with `ignore_index`): only their sequence meaning is kept. Row indexes are not modelled.
- `scripts/config.py` beyond `TARGET_EXPIRY_DAYS = 90`: the symbol, period and volatility window only feed the parts left out above.
