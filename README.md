# Options dashboards: a verified model of their selection, filtering and caching rules

The repository holds three near-copies of one options-chain dashboard, each a
Flask server that fetches option chains from Yahoo Finance, attaches
Black-Scholes Greeks to every contract and serves them to a JavaScript page
that filters them:

- `options_dashboard.py` returns one flat list of contracts for a
  comma-separated ticker list, and its page filters that list;
- `stock_options_dashboard.py` keeps a global per-ticker snapshot grouped by
  expiration, refreshed by `update_options_data`, and its page filters the
  groups, dropping the expirations left empty;
- `demo_dashboard.py` wraps the computation in an `OptionsAnalyzer` whose
  results are cached for 300 seconds under a key built from the ticker and
  the target horizons, and answers a JSON list of tickers with one result
  per ticker.

This project models the deterministic core of the three programs and proves
what each promises:

- **Expiration selection**, shared in `Expirations`: for each horizon (90,
  120 and 150 days by default), in the given order, the listed expiration
  nearest to `now + horizon` is picked. Ties go to the first date in list
  order. A pick is appended only when it is not already selected. Each
  dashboard measures "nearest" its own way:
  - seconds between timestamps in `options_dashboard.py`;
  - whole calendar days in `stock_options_dashboard.py`;
  - `timedelta.days`, floored before `abs`, in `demo_dashboard.py`.
- **The Greeks guard** (`Greeks`): `T <= 0` or `sigma <= 0` gives the zero
  vector. The closed form itself is a parameter `formula`.
- **Per-row and per-expiration assembly** of each dashboard, with the
  failing-chain skip.
- **Ticker parsing** of the two routes.
- **The client filters**:
  - `OptionsFilter` is the flat list filter, with `|delta|` bounds and
    `|| null` fields;
  - `StockFilter` is the grouped filter, with signed call and put delta
    bounds, `|| default` fields, the `allData` / `filteredData` / `atmOnly`
    page state and its handlers.
- **The global snapshot store** of `update_options_data` (`StockDashboard`).
- **The TTL cache** of `OptionsAnalyzer` and the `/api/options` route of the
  demo (`DemoDashboard`).

Where the code works by updating state step by step, the model is imperative
and each method is proved against a function of its inputs:

- the selection loops, the row and expiration loops and the route loops are
  methods with loop invariants;
- `OptionsAnalyzer` is a class over the two cache maps;
- the stock page is a class `Dashboard`;
- the stock server's globals are a class `OptionsServer`.

Inputs that the programs read from the outside world are parameters:

- the clock, as `now` and the cache clocks, in integer seconds;
- the market data, as a `Market` value per ticker, where a chain that cannot
  be fetched is a date missing from the `chains` map;
- the closed form of the Greeks, as `formula`.

Dates are day numbers; `strptime`/`strftime` between day numbers and
`'YYYY-MM-DD'` strings are taken to be one to one.

The cache key joins the horizons in the order given
(`DemoDashboard.CacheKeyKeepsOrder`).

Modules:

| file | module |
|---|---|
| common.dfy | `Common`: Option, Result, `Filter` as `Array.filter`, subsequence and distinctness |
| text.dfy | `Text`: `strip`, `upper`, `split`, `join`, `str(int)` |
| greeks.dfy | `Greeks`: the calculator guard |
| market.dfy | `MarketData`: quote rows, raw volatility, price fallback |
| expirations.dfy | `Expirations`: shared nearest-date rule and selection loop |
| options_dashboard.dfy | `OptionsDashboard` |
| options_filter.dfy | `OptionsFilter` |
| stock_dashboard.dfy | `StockDashboard` |
| stock_filter.dfy | `StockFilter` |
| demo_dashboard.dfy | `DemoDashboard` |

## Model

| member | source | states |
|---|---|---|
| `Greeks.CalculateGreeks` | options_dashboard.py:61-89 | `T <= 0` or `sigma <= 0` gives exactly the zero vector; otherwise the closed form's result, or zero when it raises; a non-zero result always comes from the closed form with positive `T` and `sigma` |
| `Greeks.YearsToExpiry` | options_dashboard.py:141-142 | `days / 365.0` is non-positive exactly when the whole days are |
| `Greeks.ExpiredIsZero` | demo_dashboard.py:148-149 | a contract expiring today or earlier gets the zero vector whatever its volatility |
| `MarketData.QuotedPrice` | stock_options_dashboard.py:115-121 | `currentPrice`, else `regularMarketPrice`, else 0; a quoted 0 (from either source, or neither being present) is replaced by the last close when one exists and stays 0 otherwise; a non-zero quote is kept; a non-zero price comes from one of the three sources |
| `Expirations.TargetInstants` | options_dashboard.py:91-98 | one target instant `now + offset days` per offset, in offset order |
| `Expirations.DaysUntil` | options_dashboard.py:141 | `(exp_date - now).days`: whole days to the expiration's midnight, rounded down |
| `Expirations.FirstNearestIndex` | options_dashboard.py:106-107 | `min` with a key: a position of least distance, and no earlier position is as near |
| `Expirations.FirstNearestUnique` | options_dashboard.py:106-107 | the first-nearest position is unique, so `min`'s answer is determined |
| `Expirations.Nearest` | options_dashboard.py:100-108 | `None` exactly on an empty list; otherwise a listed date, no farther than any other, and the first such date in list order |
| `Expirations.NearestIndexRespectsOrder` | stock_options_dashboard.py:107 | two distances that order all dates alike pick the same position |
| `Expirations.Picks` | options_dashboard.py:131-132 | the pick of every target, in target order |
| `Expirations.CollectFacts` | options_dashboard.py:131-134 | the selection has no duplicates, holds exactly the picked dates and is no longer than the picks |
| `Expirations.CollectKeepsPickOrder` | options_dashboard.py:131-134 | every selected date was picked, and selected dates appear in the order of their first pick |
| `Expirations.SelectExpirations` | stock_options_dashboard.py:130-134 | the append-if-absent loop builds exactly the selection of the picks |
| `Expirations.SelectionFacts` | options_dashboard.py:128-134 | with a rule that picks listed dates whenever any is listed: no duplicates, only listed dates, at most one per target, at least one when something is listed, every target's pick present |
| `OptionsDashboard.SecondsApart` | options_dashboard.py:105-107 | `abs(x.timestamp() - target_timestamp)` in seconds |
| `OptionsDashboard.FindClosestExpiration` | options_dashboard.py:100-108 | `None` exactly on an empty list; else a listed date whose midnight is nearest the target instant, the first such in list order |
| `OptionsDashboard.ClosestRulePicksListed` | options_dashboard.py:100-108 | the rule picks only listed dates, and picks one exactly when some date is listed |
| `OptionsDashboard.SelectExpirations` | options_dashboard.py:128-134 | the selection loop: no duplicates, only listed dates, at most one per target, at least one when any is listed, every target's closest date present, first-pick order |
| `OptionsDashboard.Selection` | options_dashboard.py:128-134 | reference definition of the selected expirations: the first-occurrence collection of each target's closest date; specified by `OptionsDashboard.SelectExpirations` and `Expirations.SelectionFacts` |
| `OptionsDashboard.RowGreeks` | options_dashboard.py:152-159 | a row without positive volatility (absent, NaN or `<= 0`), or expiring within the day, gets the zero vector |
| `OptionsDashboard.RowGuardAgreesWithCalculator` | options_dashboard.py:152-159 | the `iv > 0` test gives the same Greeks as calling the calculator on every row with the volatility read as 0 |
| `OptionsDashboard.NormalTickersMembers` | options_dashboard.py:952 | a ticker comes out exactly when some non-blank piece strips and upper-cases to it |
| `OptionsDashboard.NormalTickersInOrder` | options_dashboard.py:952 | one ticker per non-blank piece, in input order with duplicates kept: the k-th ticker is the normal form of the k-th non-blank piece |
| `OptionsDashboard.NormalTickers` | options_dashboard.py:952 | reference definition of the ticker comprehension; specified by `OptionsDashboard.NormalTickersMembers` and `OptionsDashboard.NormalTickersInOrder` |
| `OptionsDashboard.ParseTickers` | options_dashboard.py:952-955 | the error "No valid tickers provided" exactly when every piece is blank; otherwise at least one ticker, no more than the pieces, each trimmed, upper-case, non-empty and comma-free; the k-th ticker is the normal form of the k-th non-blank piece |
| `OptionsDashboard.ParseJoinedTickers` | options_dashboard.py:952 | round trip: already normal tickers joined with commas parse back to themselves, in order |
| `OptionsDashboard.NormalTickerFixed` | options_dashboard.py:952 | a normal ticker is not blank and is its own normal form |
| `OptionsDashboard.Row` | options_dashboard.py:151-178 | the quote's strike, last price, bid, ask, volume and open interest are kept with the ticker, kind, expiration, days and price; the volatility is shown in percent, 0 when absent or NaN; the Greeks are `RowGreeks` (the calculator at rate 0.05 when the volatility is positive); a row with no positive volatility shown, or expiring within the day, carries the zero Greeks |
| `OptionsDashboard.QuoteRows` | options_dashboard.py:151-178 | one row per quote, in chain order |
| `OptionsDashboard.AppendRows` | options_dashboard.py:181-208 | the append loop adds exactly the rows of the quotes, in order, after the rows already built |
| `OptionsDashboard.AppendExpiration` | options_dashboard.py:146-208 | one expiration adds its call rows, then its put rows |
| `OptionsDashboard.BuildRows` | options_dashboard.py:139-212 | the loop over the selected expirations builds exactly their rows in order, skipping one whose chain fails |
| `OptionsDashboard.ExpirationRows` | options_dashboard.py:139-208 | reference definition of one expiration's rows: its call rows, then its put rows, at the days to expiry; specified by `OptionsDashboard.AppendExpiration` and `OptionsDashboard.OptionsRowsFacts` |
| `OptionsDashboard.OptionsRows` | options_dashboard.py:139-212 | reference definition of the rows of the selected expirations, in order, skipping one without a chain; specified by `OptionsDashboard.BuildRows` and `OptionsDashboard.OptionsRowsFacts` |
| `OptionsDashboard.OptionsRowsFacts` | options_dashboard.py:139-212 | every row belongs to the ticker and to a selected expiration with a fetched chain, with the spot price and the days to expiry; every quote of every fetched selected chain has its row |
| `OptionsDashboard.OptionsData` | options_dashboard.py:110-122 | no result exactly when the price is missing or 0 or no expiration is listed |
| `OptionsDashboard.GetOptionsData` | options_dashboard.py:110-214 | the method computes exactly that result |
| `OptionsDashboard.GatheredFacts` | options_dashboard.py:957-963 | every gathered row names a requested ticker whose data was available |
| `OptionsDashboard.TickerRows` | options_dashboard.py:959-963 | reference definition of one ticker's contribution: its rows, or none without data; specified by `OptionsDashboard.FetchTicker` |
| `OptionsDashboard.Gathered` | options_dashboard.py:957-963 | reference definition of the route's rows: each ticker's rows in ticker order; specified by `OptionsDashboard.GatherAll` and `OptionsDashboard.GatheredFacts` |
| `OptionsDashboard.FetchTicker` | options_dashboard.py:961-965 | a ticker adds its rows, or nothing when its analysis gives none |
| `OptionsDashboard.GatherAll` | options_dashboard.py:957-963 | the route's loop concatenates the tickers' rows in ticker order |
| `OptionsDashboard.GetOptions` | options_dashboard.py:945-967 | the parse error, or the rows of the parsed tickers in order |
| `OptionsFilter.OrNull` | options_dashboard.py:690-701 | `parseFloat(x) \|\| null` is null exactly for NaN and 0, else the number |
| `OptionsFilter.OrNullInt` | options_dashboard.py:698-702 | `parseInt(x) \|\| null` is null exactly for NaN and 0, else the number |
| `OptionsFilter.ApplyFilters` | options_dashboard.py:686-737 | nothing is redisplayed exactly when no data is loaded; otherwise no more rows than loaded |
| `OptionsFilter.ReadFilters` | options_dashboard.py:689-705 | reference definition of reading the filter form, each field `parseFloat`/`parseInt` or null; specified by `OptionsFilter.ReadingTwiceIsReadingOnce` and the `...IsEmpty` lemmas |
| `OptionsFilter.Keep` | options_dashboard.py:707-737 | reference definition of the `filter` callback; specified by `OptionsFilter.KeptMeetsEnteredBounds`, `OptionsFilter.AtmAndTypeSelection` and `OptionsFilter.DeltaBoundsIgnoreSign` |
| `OptionsFilter.FilterPreservesOrder` | options_dashboard.py:707-737 | the result is an order-preserving subsequence of the loaded rows, and a row is kept exactly when loaded and accepted by the callback |
| `OptionsFilter.KeptMeetsEnteredBounds` | options_dashboard.py:709-734 | every kept row meets each bound entered as a non-zero number, inclusively, delta bounds against `\|delta\|`, and the ATM and type choices |
| `OptionsFilter.UnrestrictedIsIdentity` | options_dashboard.py:689-737 | with every bound null, ATM off and both types, the loaded rows come back unchanged |
| `OptionsFilter.ZeroDeltaGammaIsEmpty` | options_dashboard.py:690-693 | a delta or gamma bound entered as 0 filters as an empty field does |
| `OptionsFilter.ZeroThetaVegaIsEmpty` | options_dashboard.py:694-697 | a theta or vega bound entered as 0 filters as an empty field does |
| `OptionsFilter.ZeroDaysIvVolumeIsEmpty` | options_dashboard.py:698-702 | a days, volatility or volume bound entered as 0 filters as an empty field does |
| `OptionsFilter.ReadingTwiceIsReadingOnce` | options_dashboard.py:689-705 | reading an already read form changes nothing |
| `OptionsFilter.DeltaBoundsIgnoreSign` | options_dashboard.py:709-710 | with both types shown, a call and a put with opposite deltas, otherwise alike, pass or fail together |
| `OptionsFilter.AtmAndTypeSelection` | options_dashboard.py:726-734 | with no bound set, a row is kept exactly when its strike is within 5% of spot (if ATM is on) and its type matches the choice |
| `StockDashboard.CalendarDay` | stock_options_dashboard.py:105 | `target_date.date()`: the day whose midnight precedes the instant by less than a day |
| `StockDashboard.DaysApart` | stock_options_dashboard.py:107 | `abs((x - target_date).days)` between calendar days |
| `StockDashboard.FindClosestExpiration` | stock_options_dashboard.py:99-108 | `None` exactly on an empty list; else a listed date nearest in whole days to the target's calendar day, the first such in list order |
| `StockDashboard.ClosestRulePicksListed` | stock_options_dashboard.py:99-108 | the rule picks only listed dates, and picks one exactly when some date is listed |
| `StockDashboard.SelectExpirations` | stock_options_dashboard.py:127-134 | the selection loop: no duplicates, only listed dates, at most one per target, at least one when any is listed, every target's closest date present, first-pick order |
| `StockDashboard.Selection` | stock_options_dashboard.py:127-134 | reference definition of the selected expirations: the first-occurrence collection of each target's closest date; specified by `StockDashboard.SelectExpirations` and `Expirations.SelectionFacts` |
| `StockDashboard.IvForGreeks` | stock_options_dashboard.py:152-155 | `get('impliedVolatility', 0.2)`: 0.2 for an absent volatility, else the value |
| `StockDashboard.RowGreeks` | stock_options_dashboard.py:152-155 | zero when the contract expires within the day or its volatility is not positive; a non-zero result comes from the closed form at rate 0.02 |
| `StockDashboard.MissingIvUsesDefault` | stock_options_dashboard.py:175-178 | a row without volatility is priced at 20% volatility |
| `StockDashboard.Row` | stock_options_dashboard.py:151-170 | the row keeps the quote's strike, last price, bid, ask, volume and open interest and its days to expiry; the shown volatility is the quote's, or 0 when absent; the Greeks are `RowGreeks`, priced at 0.2 for an absent volatility and rate 0.02; expired rows carry zero Greeks |
| `StockDashboard.Rows` | stock_options_dashboard.py:150-170 | one processed row per quote, in chain order |
| `StockDashboard.ProcessQuotes` | stock_options_dashboard.py:173-193 | the append loop builds exactly those rows |
| `StockDashboard.Entry` | stock_options_dashboard.py:144-199 | an expiration's entry keeps its date and its days to expiry; its calls are the chain's calls processed as `Call` rows and its puts the chain's puts as `Put` rows, in chain order |
| `StockDashboard.Entries` | stock_options_dashboard.py:135-203 | reference definition of `options_data_by_exp`: one entry per selected date with a chain, in order; specified by `StockDashboard.EntriesFacts` and `StockDashboard.BuildEntries` |
| `StockDashboard.EntriesFacts` | stock_options_dashboard.py:138-203 | the entries are exactly the selected dates whose chain was fetched, in selection order, each built from its own chain |
| `StockDashboard.EntryDatesDistinct` | stock_options_dashboard.py:138-203 | distinct selected dates give distinct entries |
| `StockDashboard.BuildEntries` | stock_options_dashboard.py:138-203 | the loop builds exactly those entries |
| `StockDashboard.FetchedData` | stock_options_dashboard.py:110-213 | no result exactly when the source raises or lists no expiration; a result names the ticker and its quoted price |
| `StockDashboard.FetchedDataFacts` | stock_options_dashboard.py:130-209 | a fetched snapshot's expirations are exactly the selected dates whose chain was fetched, in selection order; distinct, listed, at most one per horizon (three), each built from its own chain at the quoted price |
| `StockDashboard.FetchOptionsData` | stock_options_dashboard.py:110-213 | the method computes exactly that result |
| `StockDashboard.LastSuccess` | stock_options_dashboard.py:218-222 | the position of the last successful fetch of a ticker, or -1 when none succeeded |
| `StockDashboard.Refreshed` | stock_options_dashboard.py:215-225 | reference definition of the store after a pass: each success overwrites its ticker's entry in order; specified by `StockDashboard.RefreshedFacts` |
| `StockDashboard.RefreshedFacts` | stock_options_dashboard.py:215-225 | after a pass the store keeps every key and gains exactly the tickers fetched successfully; an entry is its last successful fetch, or its old value when every fetch of it failed |
| `StockDashboard.RefreshedAt` | stock_options_dashboard.py:215-225 | the same three facts for one ticker |
| `StockDashboard.FetchedAll` | stock_options_dashboard.py:217-219 | one `fetch_options_data` per ticker in list order, each on its own data-source answer and clock reading; every success names the ticker it was fetched for |
| `StockDashboard.RefreshedNamesOwners` | stock_options_dashboard.py:215-222 | when every success names its own ticker, every snapshot the pass adds is filed under its ticker, and a store that named its owners still does |
| `StockDashboard.OptionsServer.constructor` | stock_options_dashboard.py:51-52 | the globals start as an empty store, which names its owners, and the given ticker list |
| `StockDashboard.OptionsServer.UpdateOptionsData` | stock_options_dashboard.py:215-225 | the loop calls `fetch_options_data` for each ticker and leaves the store of the pass above over those fetches; it keeps the ticker list, never loses a key, files every new snapshot under its own ticker, and keeps a store that names its owners naming them |
| `StockFilter.OrDefault` | stock_options_dashboard.py:686-693 | `parseFloat(x) \|\| d` is `d` for NaN and 0, else the number |
| `StockFilter.OrDefaultInt` | stock_options_dashboard.py:688-691 | `parseInt(x) \|\| d` is `d` for NaN and 0, else the number |
| `StockFilter.BlankFormReadsDefaults` | stock_options_dashboard.py:685-694 | an empty or all-zero form reads as delta in [-1, 1], volume 0, open interest 0, days in [0, 365], theta 1, vega 0 |
| `StockFilter.ReadFilters` | stock_options_dashboard.py:685-694 | reference definition of reading the filter form with its defaults; specified by `StockFilter.BlankFormReadsDefaults` |
| `StockFilter.HighlightedPassesAtmFilter` | stock_options_dashboard.py:793-795 | for a non-negative price, a strike `isATM` highlights (3%) passes the ATM filter (5%); at every positive price a strike 4% above passes the filter without being highlighted |
| `StockFilter.FilterOptionBounds` | stock_options_dashboard.py:730-772 | `filterOption` accepts exactly: days in bounds, volume and open interest at least their minimums, a call's delta in [min, max] and a put's in [-max, -min], `\|theta\|` at most the maximum, vega at least the minimum, and the 5% ATM band when the toggle is on |
| `StockFilter.FilterOption` | stock_options_dashboard.py:730-772 | reference definition of `filterOption`, each `return false` in order; specified by `StockFilter.FilterOptionBounds` |
| `StockFilter.EmptyFormKeeps` | stock_options_dashboard.py:685-772 | under an empty form a row passes exactly when it has 0 to 365 days, non-negative volume and open interest, delta in [-1, 1], `\|theta\|` at most 1, non-negative vega, and the ATM band when asked |
| `StockFilter.PutRuleMirrorsCallRule` | stock_options_dashboard.py:742-750 | a put passes exactly when the same row with its delta negated passes as a call |
| `StockFilter.Pruned` | stock_options_dashboard.py:718-722 | a pruned expiration keeps its date and its days to expiry |
| `StockFilter.PrunedFacts` | stock_options_dashboard.py:708-715 | a pruned expiration's calls and puts are order-preserving subsequences holding exactly the originals that pass `filterOption` |
| `StockFilter.PruneAll` | stock_options_dashboard.py:704-724 | every expiration pruned, in order |
| `StockFilter.Survives` | stock_options_dashboard.py:717-723 | reference definition of an expiration that survives: a call or a put is left after pruning; specified by `StockFilter.FilterEntriesKeepsSurvivors` |
| `StockFilter.FilterEntries` | stock_options_dashboard.py:704-724 | reference definition of one ticker's shown expirations; specified by `StockFilter.FilterEntriesIsPrunedSurvivors` and `StockFilter.FilterExpirations` |
| `StockFilter.FilteredView` | stock_options_dashboard.py:696-725 | reference definition of `filteredData`: every ticker with its expirations filtered; specified by `StockFilter.ViewFacts` and `StockFilter.FilterAll` |
| `StockFilter.FilterEntriesIsPrunedSurvivors` | stock_options_dashboard.py:704-724 | the expirations shown are the surviving ones, as an `Array.filter`, each pruned, in their original order |
| `StockFilter.FilterEntriesDates` | stock_options_dashboard.py:717-723 | the dates shown are the surviving dates, in order |
| `StockFilter.FilterEntriesShown` | stock_options_dashboard.py:717-723 | every expiration shown has a call or a put left and is an original expiration pruned |
| `StockFilter.FilterEntriesKeepsSurvivors` | stock_options_dashboard.py:717-723 | an original expiration appears, pruned, exactly when something in it survives |
| `StockFilter.FilterEntriesIdempotent` | stock_options_dashboard.py:704-724 | filtering the filtered expirations again with the same settings changes nothing |
| `StockFilter.PrunedIdempotent` | stock_options_dashboard.py:708-722 | pruning twice is pruning once |
| `StockFilter.ViewFacts` | stock_options_dashboard.py:696-725 | every ticker is kept with its name and price, and re-applying the same settings changes nothing |
| `StockFilter.ShownOptionsPass` | stock_options_dashboard.py:704-724 | every option shown passes `filterOption` at its ticker's price and its expiration is one of `allData`'s |
| `StockFilter.EmptyFormIsNotClearing` | stock_options_dashboard.py:774-786 | applying an empty form can hide options (theta bound 1), while `clearFilters` shows `allData` unchanged |
| `StockFilter.FilterExpirations` | stock_options_dashboard.py:704-724 | one ticker's loop builds exactly the filtered expirations |
| `StockFilter.FilterAll` | stock_options_dashboard.py:696-725 | the loop over the tickers builds exactly the filtered view |
| `StockFilter.Dashboard.constructor` | stock_options_dashboard.py:656-658 | the page starts with empty data and the ATM toggle off |
| `StockFilter.Dashboard.LoadData` | stock_options_dashboard.py:660-670 | both `allData` and `filteredData` become the response |
| `StockFilter.Dashboard.ApplyFilters` | stock_options_dashboard.py:684-728 | `filteredData` becomes the filtered view of `allData`; `allData` and the toggle are unchanged |
| `StockFilter.Dashboard.ToggleATM` | stock_options_dashboard.py:788-791 | the toggle flips and the view is recomputed under it; `allData` is unchanged |
| `StockFilter.Dashboard.ClearFilters` | stock_options_dashboard.py:774-786 | `filteredData` becomes `allData`; the rest is unchanged |
| `DemoDashboard.RiskFreeRate` | demo_dashboard.py:57-65 | the treasury close as a fraction, else 4.5% |
| `DemoDashboard.DaysApartFromNextMidnight` | demo_dashboard.py:128 | since `.days` floors before `abs`, a date's distance is its distance in days to the first midnight at or after the target |
| `DemoDashboard.ClosestExpiration` | demo_dashboard.py:121-131 | `None` exactly on an empty list; else a listed date of least whole-day distance, the first such in list order |
| `DemoDashboard.FindClosest` | demo_dashboard.py:123-131 | the loop with `min_diff` and strict `<` finds exactly that date |
| `DemoDashboard.ClosestRulePicksListed` | demo_dashboard.py:121-131 | the rule picks only listed dates, and picks one exactly when some date is listed |
| `DemoDashboard.SelectTargetExpirations` | demo_dashboard.py:118-134 | the outer loop: no duplicates, only listed dates, at most one per horizon, at least one when any is listed, each horizon's closest date present |
| `DemoDashboard.Selection` | demo_dashboard.py:121-134 | reference definition of the target expirations: the first-occurrence collection of each horizon's closest date; specified by `DemoDashboard.SelectTargetExpirations` and `Expirations.SelectionFacts` |
| `DemoDashboard.CollectClosest` | demo_dashboard.py:121-134 | the outer loop builds exactly the selection of the picks |
| `DemoDashboard.Row` | demo_dashboard.py:154-176 | a volatility value is shown as read, an absent or NaN one as 0 with zero Greeks; the Greeks are `calculate_greeks` at the spot, strike, years to expiry, the snapshot's rate and the shown volatility, zero for a non-positive volatility or an expiring contract; the quote's other columns are kept |
| `DemoDashboard.Rows` | demo_dashboard.py:154-202 | one row per quote, in chain order |
| `DemoDashboard.BuildRows` | demo_dashboard.py:179-202 | the append loop builds exactly those rows |
| `DemoDashboard.ExpiriesFacts` | demo_dashboard.py:144-212 | the entries are exactly the selected dates whose chain was fetched, in selection order, each built from its own chain |
| `DemoDashboard.ExpiriesOfSelection` | demo_dashboard.py:144-212 | for a duplicate-free selection the entries are distinct, no more than selected, each from a selected date's own chain |
| `DemoDashboard.BuildExpiries` | demo_dashboard.py:144-212 | the loop over the selected dates builds exactly those entries |
| `DemoDashboard.Expiries` | demo_dashboard.py:143-212 | reference definition of the per-date entries, in selection order, skipping a date without a chain; specified by `DemoDashboard.ExpiriesFacts` and `DemoDashboard.BuildExpiries` |
| `DemoDashboard.AnalyzeFacts` | demo_dashboard.py:104-216 | a snapshot exists exactly when the source answered with expirations; it names the ticker, the quoted price and the rate from the treasury close; its dates are exactly the selected dates with a fetched chain, in selection order, at most once each and no more than the horizons; each entry is its own chain's `ExpiryOf` with its days to expiry |
| `DemoDashboard.ComputeAnalysis` | demo_dashboard.py:118-212 | the method builds exactly that snapshot |
| `DemoDashboard.Analyze` | demo_dashboard.py:104-212 | reference definition of what a cache miss computes; specified by `DemoDashboard.AnalyzeFacts` and `DemoDashboard.ComputeAnalysis` |
| `DemoDashboard.CacheKeyInjective` | demo_dashboard.py:97 | different tickers or different lists of non-negative horizons never share a cache key |
| `DemoDashboard.CacheKeyKeepsOrder` | demo_dashboard.py:97 | the same horizons in another order are another key |
| `DemoDashboard.CacheKey` | demo_dashboard.py:97 | reference definition of `f"{ticker}_{'-'.join(map(str, target_days))}"`; specified by `DemoDashboard.CacheKeyInjective` and `DemoDashboard.CacheKeyKeepsOrder` |
| `DemoDashboard.Serve` | demo_dashboard.py:99-102 | a fresh entry (in both maps, younger than 300 seconds, strictly) is returned and nothing changes; otherwise the computed result; a failure stores nothing; no other key changes |
| `DemoDashboard.StoredIsServedUntilExpiry` | demo_dashboard.py:214-216 | a stored snapshot is served unchanged by every call in the next 300 seconds, and by none after |
| `DemoDashboard.ServeNamesOwner` | demo_dashboard.py:96-102 | serving a ticker keeps every entry under its owner's key and hands out only that ticker's snapshot |
| `DemoDashboard.OptionsAnalyzer.constructor` | demo_dashboard.py:52-55 | both cache maps start empty |
| `DemoDashboard.OptionsAnalyzer.GetOptionsData` | demo_dashboard.py:96-220 | result and new cache are those of serving the computed snapshot under the key; the result always names the ticker |
| `DemoDashboard.ServeAllStep` | demo_dashboard.py:601-609 | one pass of the route's loop serves the next ticker on the cache the previous passes left |
| `DemoDashboard.ServeNext` | demo_dashboard.py:601-609 | reference definition of one pass of the route's loop; specified by `DemoDashboard.ServeNextKeys`, `DemoDashboard.ServeNextAnswers` and `DemoDashboard.OptionsAnalyzer.AnswerTicker` |
| `DemoDashboard.ServeAll` | demo_dashboard.py:600-609 | reference definition of the route's loop over the tickers; specified by `DemoDashboard.ServeAllKeys`, `DemoDashboard.ServeAllAnswers` and `DemoDashboard.OptionsAnalyzer.GetOptions` |
| `DemoDashboard.OptionsAnalyzer.AnswerTicker` | demo_dashboard.py:602-609 | a blank ticker is skipped; any other is answered with its snapshot or the error naming it |
| `DemoDashboard.OptionsAnalyzer.GetOptions` | demo_dashboard.py:591-611 | an empty list is the error "No tickers provided" and leaves the cache; otherwise the answers and the cache of serving every ticker in turn |
| `DemoDashboard.NamedTickersMembers` | demo_dashboard.py:601-603 | a name is answered for exactly when some non-blank ticker normalises to it |
| `DemoDashboard.ServeAllKeys` | demo_dashboard.py:600-609 | the answers name exactly the non-blank tickers, normalised |
| `DemoDashboard.ServeAllAnswers` | demo_dashboard.py:606-609 | each answer is its ticker's own snapshot or the error naming it, and the cache keeps naming its owners |
| `Text.Strip` | options_dashboard.py:952 | `strip()` leaves no whitespace (the full Unicode set of `str.isspace()`) at either end and is empty exactly for an all-whitespace string |
| `Text.StripIsInfix` | demo_dashboard.py:602 | the stripped string is the part between a whitespace prefix and a whitespace suffix |
| `Text.UpperIdempotent` | demo_dashboard.py:602 | upper-casing twice is upper-casing once and leaves no ASCII lower-case letter |
| `Text.JoinSplit` | options_dashboard.py:952 | joining the pieces of a split with the separator gives back the input |
| `Text.SplitJoin` | options_dashboard.py:952 | splitting a join of separator-free pieces gives back the pieces |
| `Text.NatToStringInjective` | demo_dashboard.py:97 | different numbers print differently |

## Left out

- Network and library calls are inputs: Yahoo Finance (`yf.Ticker`,
  `stock.info`, `history`, `options`, `option_chain`), `get_stock_price`, and
  the `^TNX` close behind `get_risk_free_rate`.
- The Black-Scholes closed form (logarithms, square roots, the normal
  distribution, rounding to 4 decimals) is the uninterpreted `formula`.
  Floating point is Dafny's exact `real`.
- Clocks are parameters: `datetime.now()` and `time.time()` are integer
  seconds, without sub-second precision or time zones.
  - The demo analyzer takes the freshness clock, the store clock and the
    date clock separately.
  - The demo route's model reads the clock once per request: one `clock`
    serves as freshness and store clock and one `now` as date clock for
    every ticker. The code reads `time.time()` and `datetime.now()` again
    for each ticker, so a request that spans a second or midnight can see
    different readings per ticker.
  - `OptionsDashboard.ExpirationRows` takes one `now` for all selected
    expirations. `options_dashboard.py` calls `datetime.now()` again for
    each expiration, so near midnight a later expiration's
    `days_to_exp` can be one less than the model's.
- Exceptions are modelled only where the code catches them into a result:
  - a chain that cannot be fetched is a date missing from `chains`, and is
    skipped;
  - a data source that raises as a whole is `None`;
  - the routes' outer `except` (status 500, `{'error': str(e)}`) is not
    modelled.
- `round(iv * 100, 2)` in `options_dashboard.py` is modelled as `iv * 100`
  without rounding. A NaN volatility is shown there as 0, where the code
  would show NaN.
- `StockDashboard.Quote`'s volatility is present or absent; a NaN value
  is not modelled. In the code a NaN passes the `T <= 0 or sigma <= 0`
  guard (every comparison with NaN is false) and goes into the closed form,
  whose Greeks are then NaN rather than zero.
- JSON encoding, key order of `jsonify`, and the page rendering (HTML, CSS,
  `displayData`, `renderData`, `generateTable`, `debounce`,
  `calculateSummary`, `applyConservativeFilters`) are out of scope. The
  dictionaries built by the code are datatypes, sequences and maps.
- The route of the demo takes a JSON list of strings; non-string items are
  not modelled.
- Threads, the refresh loop of the stock server, Flask, ngrok,
  `install_packages`, the `main` functions and their `input()` ticker
  prompts are out of scope.
- `MarketData.PriceInfo`: a price field stored with the value `None` is not
  modelled. `info.get('currentPrice', ...)` returns such a `None` rather than
  the fallback, `None == 0` is false, and the code goes on without the
  history fallback; the model's `None` means only an absent field.
- `Text.Upper`: upper-cases ASCII letters only. Python's `str.upper()`
  also maps non-ASCII letters and can change the length (`'ß'` becomes
  `'SS'`), so a ticker typed with such letters normalises differently.
- `DemoDashboard.CacheKeyInjective`: proved for non-negative horizons only.
  A negative horizon prints with a `-`, the key's own separator.
- `strptime`/`strftime` between `'YYYY-MM-DD'` strings and day numbers are
  taken to be one to one, so expirations are day numbers throughout.
