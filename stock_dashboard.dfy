/**
 * The server side of `stock_options_dashboard.py`: nearest expiration by
 * whole calendar days, the selection loop and the per-expiration processing
 * of `fetch_options_data`, the Greeks of a row (a missing volatility reads
 * as 0.2), and `update_options_data` over the global `options_data`.
 *
 * Expirations are the `'YYYY-MM-DD'` strings of the data source; they are
 * modelled by their day numbers, which `strptime`/`strftime` map one to one.
 */
module StockDashboard {
  import opened Common
  import opened Greeks
  import opened Expirations
  import MarketData

  const RiskFreeRate: real := 0.02

  /** The volatility `black_scholes_greeks` gets when the column is absent. */
  const DefaultIv: real := 0.2

  /** `target_date.date()`: the calendar day of an instant. */
  function CalendarDay(t: int): (d: Day)
    ensures d * SecondsPerDay <= t < (d + 1) * SecondsPerDay
  {
    t / SecondsPerDay
  }

  /** `abs((x - target_date).days)` between two calendar days. */
  function DaysApart(d: Day, target: Day): (n: nat)
    ensures n == d - target || n == target - d
  {
    Abs(d - target)
  }

  /**
   * `find_closest_expiration`: `None` for an empty list; otherwise a listed
   * date no more whole days from the target's calendar day than any other,
   * and the first such date in list order.
   */
  function FindClosestExpiration(available: seq<Day>, target: int): (r: Option<Day>)
    ensures r.None? <==> |available| == 0
    ensures r.Some? ==> r.value in available
    ensures r.Some? ==> forall d :: d in available ==> DaysApart(r.value, CalendarDay(target)) <= DaysApart(d, CalendarDay(target))
    ensures r.Some? ==> forall j :: 0 <= j < FirstIndex(available, r.value) ==>
                          DaysApart(available[j], CalendarDay(target)) > DaysApart(r.value, CalendarDay(target))
  {
    Nearest(available, d => DaysApart(d, CalendarDay(target)))
  }

  function ClosestRule(available: seq<Day>): int -> Option<Day>
  {
    t => FindClosestExpiration(available, t)
  }

  lemma ClosestRulePicksListed(available: seq<Day>)
    ensures forall t :: ClosestRule(available)(t).None? || ClosestRule(available)(t).value in available
    ensures forall t :: ClosestRule(available)(t).Some? <==> |available| > 0
  {
  }

  function Selection(available: seq<Day>, now: int, offsets: seq<int>): seq<Day>
  {
    Collect(Picks(TargetInstants(now, offsets), ClosestRule(available)))
  }

  /**
   * The selection loop of `fetch_options_data`: no duplicates, only listed
   * dates, at most one per target and at least one when anything is listed,
   * every target's closest date present, dates in the order targets first
   * picked them.
   */
  method SelectExpirations(available: seq<Day>, now: int, offsets: seq<int>) returns (selected: seq<Day>)
    ensures NoDuplicates(selected)
    ensures forall d :: d in selected ==> d in available
    ensures |selected| <= |offsets|
    ensures |available| > 0 && |offsets| > 0 ==> |selected| >= 1
    ensures forall k :: 0 <= k < |offsets| && |available| > 0 ==>
              FindClosestExpiration(available, TargetInstant(now, offsets[k])).value in selected
    ensures forall d :: d in selected <==> Some(d) in Picks(TargetInstants(now, offsets), ClosestRule(available))
    ensures PickOrdered(Picks(TargetInstants(now, offsets), ClosestRule(available)), selected)
    ensures selected == Selection(available, now, offsets)
  {
    var targets := TargetInstants(now, offsets);
    selected := Expirations.SelectExpirations(targets, ClosestRule(available));
    CollectKeepsPickOrder(Picks(targets, ClosestRule(available)));
    ClosestRulePicksListed(available);
    SelectionFacts(available, targets, ClosestRule(available));
    CollectFacts(Picks(targets, ClosestRule(available)));
    forall k | 0 <= k < |offsets| && |available| > 0
      ensures FindClosestExpiration(available, TargetInstant(now, offsets[k])).value in selected
    {
      assert targets[k] == TargetInstant(now, offsets[k]);
      assert ClosestRule(available)(targets[k]).Some?;
    }
  }

  /** `call.get('impliedVolatility', 0.2)` as the Greeks see it. */
  function IvForGreeks(iv: Option<real>): (sigma: real)
    ensures iv.None? ==> sigma == DefaultIv
    ensures iv.Some? ==> sigma == iv.value
  {
    if iv.Some? then iv.value else DefaultIv
  }

  /**
   * The Greeks of a row: the calculator at rate 0.02 on the row's volatility,
   * or 0.2 when it is missing. Zero for a contract within a day of expiry or
   * with a non-positive volatility; otherwise what the closed form gives.
   */
  function RowGreeks(iv: Option<real>, spot: real, strike: real, days: int, kind: Kind, formula: Formula): (g: Greeks)
    ensures days <= 0 || (iv.Some? && iv.value <= 0.0) ==> g == Zero
    ensures g != Zero ==> days > 0 && formula(spot, strike, YearsToExpiry(days), RiskFreeRate, IvForGreeks(iv), kind) == Some(g)
  {
    CalculateGreeks(spot, strike, YearsToExpiry(days), RiskFreeRate, IvForGreeks(iv), kind, formula)
  }

  /**
   * A row without a volatility column is priced at 20% volatility, so,
   * unlike in the options dashboard, it gets the closed form's Greeks.
   */
  lemma MissingIvUsesDefault(spot: real, strike: real, days: int, kind: Kind, formula: Formula)
    requires days > 0
    requires formula(spot, strike, YearsToExpiry(days), RiskFreeRate, DefaultIv, kind).Some?
    ensures RowGreeks(None, spot, strike, days, kind, formula)
         == formula(spot, strike, YearsToExpiry(days), RiskFreeRate, DefaultIv, kind).value
  {
  }

  /** A row of an option chain; `iv` is `None` when the column is absent. */
  datatype Quote = Quote(strike: real, lastPrice: real, bid: real, ask: real, volume: int, openInterest: int, iv: Option<real>)

  datatype Chain = Chain(calls: seq<Quote>, puts: seq<Quote>)

  /** A processed call or put as `fetch_options_data` builds it. */
  datatype OptionRow = OptionRow(
    strike: real, lastPrice: real, bid: real, ask: real, volume: int, openInterest: int,
    impliedVolatility: real, greeks: Greeks, daysToExpiration: int)

  datatype ExpData = ExpData(calls: seq<OptionRow>, puts: seq<OptionRow>, daysToExpiration: int)

  /** One entry of `options_data_by_exp`, which keeps insertion order. */
  datatype ExpEntry = ExpEntry(date: Day, data: ExpData)

  datatype TickerData = TickerData(ticker: string, currentPrice: real, expirations: seq<ExpEntry>)

  /**
   * What the data source answers for one ticker: its price fields, the
   * listed expirations, and the chain of each expiration whose
   * `option_chain` call succeeds.
   */
  datatype Market = Market(price: MarketData.PriceInfo, expirations: seq<Day>, chains: map<Day, Chain>)

  /**
   * The dictionary built for one quote: the quote's columns as given, the
   * raw volatility (0 when absent) shown, while the Greeks use 0.2 for an
   * absent one, at rate 0.02.
   */
  function Row(q: Quote, kind: Kind, days: int, price: real, formula: Formula): (r: OptionRow)
    ensures r.daysToExpiration == days && r.strike == q.strike
    ensures (r.lastPrice, r.bid, r.ask, r.volume, r.openInterest) == (q.lastPrice, q.bid, q.ask, q.volume, q.openInterest)
    ensures q.iv.Some? ==> r.impliedVolatility == q.iv.value
    ensures q.iv.None? ==> r.impliedVolatility == 0.0
    ensures r.greeks == RowGreeks(q.iv, price, q.strike, days, kind, formula)
    ensures days <= 0 ==> r.greeks == Zero
  {
    OptionRow(q.strike, q.lastPrice, q.bid, q.ask, q.volume, q.openInterest,
              if q.iv.Some? then q.iv.value else 0.0,
              RowGreeks(q.iv, price, q.strike, days, kind, formula), days)
  }

  function Rows(quotes: seq<Quote>, kind: Kind, days: int, price: real, formula: Formula): (rows: seq<OptionRow>)
    ensures |rows| == |quotes|
    ensures forall k :: 0 <= k < |quotes| ==> rows[k] == Row(quotes[k], kind, days, price, formula)
  {
    if quotes == [] then [] else Rows(quotes[..|quotes| - 1], kind, days, price, formula) + [Row(quotes[|quotes| - 1], kind, days, price, formula)]
  }

  /** `calls_processed` / `puts_processed`: one row per quote, in chain order. */
  method ProcessQuotes(quotes: seq<Quote>, kind: Kind, days: int, price: real, formula: Formula) returns (rows: seq<OptionRow>)
    ensures rows == Rows(quotes, kind, days, price, formula)
  {
    rows := [];
    var j := 0;
    while j < |quotes|
      invariant 0 <= j <= |quotes|
      invariant rows == Rows(quotes[..j], kind, days, price, formula)
    {
      assert quotes[..j + 1][..j] == quotes[..j];
      rows := rows + [Row(quotes[j], kind, days, price, formula)];
      j := j + 1;
    }
    assert quotes[..j] == quotes;
  }

  function Entry(exp: Day, chain: Chain, now: int, price: real, formula: Formula): (e: ExpEntry)
    ensures e.date == exp && e.data.daysToExpiration == DaysUntil(exp, now)
    ensures |e.data.calls| == |chain.calls| && |e.data.puts| == |chain.puts|
    ensures e.data.calls == Rows(chain.calls, Call, DaysUntil(exp, now), price, formula)
    ensures e.data.puts == Rows(chain.puts, Put, DaysUntil(exp, now), price, formula)
  {
    var days := DaysUntil(exp, now);
    ExpEntry(exp, ExpData(Rows(chain.calls, Call, days, price, formula), Rows(chain.puts, Put, days, price, formula), days))
  }

  /** `options_data_by_exp` after the loop: an expiration whose chain fails is skipped. */
  function Entries(selected: seq<Day>, chains: map<Day, Chain>, now: int, price: real, formula: Formula): seq<ExpEntry>
  {
    if selected == [] then []
    else
      var prev := Entries(selected[..|selected| - 1], chains, now, price, formula);
      var exp := selected[|selected| - 1];
      if exp in chains then prev + [Entry(exp, chains[exp], now, price, formula)] else prev
  }

  function Dates(entries: seq<ExpEntry>): (ds: seq<Day>)
    ensures |ds| == |entries|
    ensures forall k :: 0 <= k < |entries| ==> ds[k] == entries[k].date
  {
    if entries == [] then [] else Dates(entries[..|entries| - 1]) + [entries[|entries| - 1].date]
  }

  /**
   * The entries are exactly the selected expirations whose chain was
   * fetched, in selection order; each is processed from its own chain.
   */
  lemma EntriesFacts(selected: seq<Day>, chains: map<Day, Chain>, now: int, price: real, formula: Formula)
    ensures Dates(Entries(selected, chains, now, price, formula)) == Filter(selected, HasKey(chains))
    ensures forall e :: e in Entries(selected, chains, now, price, formula) ==>
              e.date in chains && e == Entry(e.date, chains[e.date], now, price, formula)
  {
    EntriesDates(selected, chains, now, price, formula);
    EntriesMembers(selected, chains, now, price, formula);
  }

  lemma {:induction false} EntriesDates(selected: seq<Day>, chains: map<Day, Chain>, now: int, price: real, formula: Formula)
    ensures Dates(Entries(selected, chains, now, price, formula)) == Filter(selected, HasKey(chains))
  {
    if selected != [] {
      var init := selected[..|selected| - 1];
      var exp := selected[|selected| - 1];
      SplitLast(selected);
      EntriesDates(init, chains, now, price, formula);
      FilterSnoc(init, exp, HasKey(chains));
      var prev := Entries(init, chains, now, price, formula);
      if exp in chains {
        DatesSnoc(prev, Entry(exp, chains[exp], now, price, formula));
      }
    }
  }

  lemma {:induction false} EntriesMembers(selected: seq<Day>, chains: map<Day, Chain>, now: int, price: real, formula: Formula)
    ensures forall e :: e in Entries(selected, chains, now, price, formula) ==>
              e.date in chains && e == Entry(e.date, chains[e.date], now, price, formula)
  {
    if selected != [] {
      EntriesMembers(selected[..|selected| - 1], chains, now, price, formula);
    }
  }

  lemma DatesSnoc(entries: seq<ExpEntry>, e: ExpEntry)
    ensures Dates(entries + [e]) == Dates(entries) + [e.date]
  {
    assert (entries + [e])[..|entries|] == entries;
  }

  /** Selected expirations carry no duplicates, so neither do the entries' dates. */
  lemma EntryDatesDistinct(selected: seq<Day>, chains: map<Day, Chain>, now: int, price: real, formula: Formula)
    requires NoDuplicates(selected)
    ensures NoDuplicates(Dates(Entries(selected, chains, now, price, formula)))
  {
    EntriesFacts(selected, chains, now, price, formula);
    FilterKeepsDistinct(selected, HasKey(chains));
  }

  /** The `for exp_date in selected_expirations` loop. */
  method BuildEntries(selected: seq<Day>, chains: map<Day, Chain>, now: int, price: real, formula: Formula)
    returns (entries: seq<ExpEntry>)
    ensures entries == Entries(selected, chains, now, price, formula)
  {
    entries := [];
    var i := 0;
    while i < |selected|
      invariant 0 <= i <= |selected|
      invariant entries == Entries(selected[..i], chains, now, price, formula)
    {
      assert selected[..i + 1][..i] == selected[..i];
      var exp := selected[i];
      if exp in chains {
        var days := DaysUntil(exp, now);
        var calls := ProcessQuotes(chains[exp].calls, Call, days, price, formula);
        var puts := ProcessQuotes(chains[exp].puts, Put, days, price, formula);
        entries := entries + [ExpEntry(exp, ExpData(calls, puts, days))];
      }
      i := i + 1;
    }
    assert selected[..i] == selected;
  }

  /**
   * `fetch_options_data`: `None` when the source raises (no market) or lists
   * no expiration; otherwise the ticker, its price and the entries of the
   * selected expirations for horizons of 90, 120 and 150 days.
   */
  function FetchedData(ticker: string, market: Option<Market>, now: int, formula: Formula): (r: Option<TickerData>)
    ensures r.None? <==> market.None? || market.value.expirations == []
    ensures r.Some? ==> r.value.ticker == ticker && r.value.currentPrice == MarketData.QuotedPrice(market.value.price)
  {
    if market.None? || market.value.expirations == [] then None
    else
      var m := market.value;
      var price := MarketData.QuotedPrice(m.price);
      Some(TickerData(ticker, price, Entries(Selection(m.expirations, now, DefaultOffsets), m.chains, now, price, formula)))
  }

  /**
   * A fetched ticker's expirations are the selected dates whose chain was
   * fetched, in selection order: distinct, listed, at most one per horizon,
   * each built from its own chain at the quoted price.
   */
  lemma FetchedDataFacts(ticker: string, market: Option<Market>, now: int, formula: Formula)
    requires FetchedData(ticker, market, now, formula).Some?
    ensures var td := FetchedData(ticker, market, now, formula).value;
            && Dates(td.expirations) == Filter(Selection(market.value.expirations, now, DefaultOffsets), HasKey(market.value.chains))
            && NoDuplicates(Dates(td.expirations))
            && |td.expirations| <= |DefaultOffsets|
            && forall e :: e in td.expirations ==>
                 && e.date in Selection(market.value.expirations, now, DefaultOffsets)
                 && e.date in market.value.expirations && e.date in market.value.chains
                 && e == Entry(e.date, market.value.chains[e.date], now, td.currentPrice, formula)
  {
    var m := market.value;
    var selected := Selection(m.expirations, now, DefaultOffsets);
    ClosestRulePicksListed(m.expirations);
    SelectionFacts(m.expirations, TargetInstants(now, DefaultOffsets), ClosestRule(m.expirations));
    var price := MarketData.QuotedPrice(m.price);
    EntryDatesDistinct(selected, m.chains, now, price, formula);
    EntriesFacts(selected, m.chains, now, price, formula);
    var entries := Entries(selected, m.chains, now, price, formula);
    forall e | e in entries ensures e.date in m.expirations {
      var k :| 0 <= k < |entries| && entries[k] == e;
      assert Dates(entries)[k] == e.date;
      assert e.date in Filter(selected, HasKey(m.chains));
    }
  }

  method FetchOptionsData(ticker: string, market: Option<Market>, now: int, formula: Formula) returns (r: Option<TickerData>)
    ensures r == FetchedData(ticker, market, now, formula)
  {
    if market.None? || market.value.expirations == [] {
      return None;
    }
    var m := market.value;
    var selected := SelectExpirations(m.expirations, now, DefaultOffsets);
    var price := MarketData.QuotedPrice(m.price);
    var entries := BuildEntries(selected, m.chains, now, price, formula);
    r := Some(TickerData(ticker, price, entries));
  }

  /**
   * The global store after one `update_options_data` pass over the tickers,
   * given what each fetch returned: a success overwrites the ticker's entry,
   * a failure leaves it.
   */
  function Refreshed(data: map<string, TickerData>, tickers: seq<string>, fetched: seq<Option<TickerData>>): map<string, TickerData>
    requires |fetched| == |tickers|
  {
    if tickers == [] then data
    else
      var prev := Refreshed(data, tickers[..|tickers| - 1], fetched[..|fetched| - 1]);
      var last := fetched[|fetched| - 1];
      if last.Some? then prev[tickers[|tickers| - 1] := last.value] else prev
  }

  /** Position of the last successful fetch for `t`, or -1 when there is none. */
  function LastSuccess(t: string, tickers: seq<string>, fetched: seq<Option<TickerData>>): (k: int)
    requires |fetched| == |tickers|
    ensures -1 <= k < |tickers|
    ensures k >= 0 ==> tickers[k] == t && fetched[k].Some?
    ensures forall j :: k < j < |tickers| ==> !(tickers[j] == t && fetched[j].Some?)
  {
    if tickers == [] then -1
    else if tickers[|tickers| - 1] == t && fetched[|fetched| - 1].Some? then |tickers| - 1
    else LastSuccess(t, tickers[..|tickers| - 1], fetched[..|fetched| - 1])
  }

  /**
   * After a pass the store keeps every key it had and gains exactly the
   * tickers fetched successfully; a ticker's entry is its last successful
   * fetch, or, when every fetch of it failed, the entry it had before.
   */
  lemma {:induction false} RefreshedFacts(data: map<string, TickerData>, tickers: seq<string>, fetched: seq<Option<TickerData>>)
    requires |fetched| == |tickers|
    ensures forall t :: t in Refreshed(data, tickers, fetched) <==> t in data || LastSuccess(t, tickers, fetched) >= 0
    ensures forall t :: LastSuccess(t, tickers, fetched) >= 0 ==>
              Refreshed(data, tickers, fetched)[t] == fetched[LastSuccess(t, tickers, fetched)].value
    ensures forall t :: t in data && LastSuccess(t, tickers, fetched) < 0 ==> Refreshed(data, tickers, fetched)[t] == data[t]
  {
    var r := Refreshed(data, tickers, fetched);
    forall t ensures t in r <==> t in data || LastSuccess(t, tickers, fetched) >= 0 {
      RefreshedAt(data, tickers, fetched, t);
    }
    forall t | LastSuccess(t, tickers, fetched) >= 0 ensures r[t] == fetched[LastSuccess(t, tickers, fetched)].value {
      RefreshedAt(data, tickers, fetched, t);
    }
    forall t | t in data && LastSuccess(t, tickers, fetched) < 0 ensures r[t] == data[t] {
      RefreshedAt(data, tickers, fetched, t);
    }
  }

  /** What a pass leaves under one ticker `t`. */
  predicate RefreshedEntry(data: map<string, TickerData>, tickers: seq<string>, fetched: seq<Option<TickerData>>, t: string)
    requires |fetched| == |tickers|
  {
    var r, k := Refreshed(data, tickers, fetched), LastSuccess(t, tickers, fetched);
    && (t in r <==> t in data || k >= 0)
    && (k >= 0 ==> t in r && r[t] == fetched[k].value)
    && (t in data && k < 0 ==> t in r && r[t] == data[t])
  }

  lemma {:induction false} RefreshedAt(data: map<string, TickerData>, tickers: seq<string>, fetched: seq<Option<TickerData>>, t: string)
    requires |fetched| == |tickers|
    ensures RefreshedEntry(data, tickers, fetched, t)
  {
    if tickers != [] {
      RefreshedAt(data, tickers[..|tickers| - 1], fetched[..|fetched| - 1], t);
    }
  }

  /**
   * What the fetches of one pass return: `fetch_options_data` of each
   * ticker in list order, the k-th on the k-th answer of the data source
   * and the k-th clock reading.
   */
  function FetchedAll(tickers: seq<string>, markets: seq<Option<Market>>, nows: seq<int>, formula: Formula): (r: seq<Option<TickerData>>)
    requires |markets| == |tickers| && |nows| == |tickers|
    ensures |r| == |tickers|
    ensures forall k :: 0 <= k < |r| ==> r[k] == FetchedData(tickers[k], markets[k], nows[k], formula)
    ensures forall k :: 0 <= k < |r| && r[k].Some? ==> r[k].value.ticker == tickers[k]
  {
    seq(|tickers|, k requires 0 <= k < |tickers| => FetchedData(tickers[k], markets[k], nows[k], formula))
  }

  /** Every snapshot in the store is filed under its own ticker. */
  predicate NamesOwners(store: map<string, TickerData>)
  {
    forall t :: t in store ==> store[t].ticker == t
  }

  /**
   * A pass over fetches that each name their own ticker files every new
   * snapshot under that ticker, so a store that named its owners still does.
   */
  lemma RefreshedNamesOwners(data: map<string, TickerData>, tickers: seq<string>, fetched: seq<Option<TickerData>>)
    requires |fetched| == |tickers|
    requires forall k :: 0 <= k < |fetched| && fetched[k].Some? ==> fetched[k].value.ticker == tickers[k]
    ensures forall t :: t in Refreshed(data, tickers, fetched) && t !in data ==> Refreshed(data, tickers, fetched)[t].ticker == t
    ensures NamesOwners(data) ==> NamesOwners(Refreshed(data, tickers, fetched))
  {
    var r := Refreshed(data, tickers, fetched);
    forall t | t in r && (t !in data || NamesOwners(data)) ensures r[t].ticker == t {
      RefreshedAt(data, tickers, fetched, t);
    }
  }

  /** The module's globals: `options_data` and `tickers_list`. */
  class OptionsServer {
    var optionsData: map<string, TickerData>
    var tickersList: seq<string>

    constructor (tickers: seq<string>)
      ensures optionsData == map[] && tickersList == tickers
      ensures NamesOwners(optionsData)
    {
      optionsData := map[];
      tickersList := tickers;
    }

    /**
     * `update_options_data`: `fetch_options_data` for each ticker in turn,
     * the k-th on the data source's k-th answer `markets[k]` at the k-th
     * clock reading `nows[k]`; a success is stored under its ticker.
     */
    method UpdateOptionsData(markets: seq<Option<Market>>, nows: seq<int>, formula: Formula)
      requires |markets| == |tickersList| && |nows| == |tickersList|
      modifies this
      ensures tickersList == old(tickersList)
      ensures optionsData == Refreshed(old(optionsData), tickersList, FetchedAll(tickersList, markets, nows, formula))
      ensures old(optionsData).Keys <= optionsData.Keys
      ensures forall t :: t in optionsData && t !in old(optionsData) ==> optionsData[t].ticker == t
      ensures NamesOwners(old(optionsData)) ==> NamesOwners(optionsData)
    {
      ghost var start := optionsData;
      ghost var fetched := FetchedAll(tickersList, markets, nows, formula);
      var i := 0;
      while i < |tickersList|
        invariant tickersList == old(tickersList)
        invariant 0 <= i <= |tickersList|
        invariant optionsData == Refreshed(start, tickersList[..i], fetched[..i])
      {
        assert tickersList[..i + 1][..i] == tickersList[..i];
        assert fetched[..i + 1][..i] == fetched[..i];
        var data := FetchOptionsData(tickersList[i], markets[i], nows[i], formula);
        if data.Some? {
          optionsData := optionsData[tickersList[i] := data.value];
        }
        i := i + 1;
      }
      assert tickersList[..i] == tickersList && fetched[..i] == fetched;
      RefreshedFacts(start, tickersList, fetched);
      RefreshedNamesOwners(start, tickersList, fetched);
    }
  }
}
