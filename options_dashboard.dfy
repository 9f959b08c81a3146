/**
 * The server side of `options_dashboard.py`: its nearest-expiration rule
 * (distance in seconds between timestamps), the selection loop of
 * `get_options_data`, the per-row Greeks guard, and the ticker parsing of the
 * `/api/options` route.
 */
module OptionsDashboard {
  import opened Common
  import opened Text
  import opened Greeks
  import opened Expirations
  import opened MarketData

  /** The fixed risk-free rate of `get_options_data`. */
  const RiskFreeRate: real := 0.05

  /** `abs(x.timestamp() - target_timestamp)`: a date's midnight to the target instant, in seconds. */
  function SecondsApart(d: Day, target: int): (n: nat)
    ensures n == d * SecondsPerDay - target || n == target - d * SecondsPerDay
  {
    Abs(d * SecondsPerDay - target)
  }

  /**
   * `find_closest_expiration`: `None` for an empty list; otherwise a listed
   * date whose midnight is no farther from the target than any other's,
   * and the first such date in list order.
   */
  function FindClosestExpiration(available: seq<Day>, target: int): (r: Option<Day>)
    ensures r.None? <==> |available| == 0
    ensures r.Some? ==> r.value in available
    ensures r.Some? ==> forall d :: d in available ==> SecondsApart(r.value, target) <= SecondsApart(d, target)
    ensures r.Some? ==> forall j :: 0 <= j < FirstIndex(available, r.value) ==>
                          SecondsApart(available[j], target) > SecondsApart(r.value, target)
  {
    Nearest(available, d => SecondsApart(d, target))
  }

  /** The rule `get_options_data` applies to each target instant. */
  function ClosestRule(available: seq<Day>): int -> Option<Day>
  {
    t => FindClosestExpiration(available, t)
  }

  /** The rule always picks a listed date, and picks one exactly when any is listed. */
  lemma ClosestRulePicksListed(available: seq<Day>)
    ensures forall t :: ClosestRule(available)(t).None? || ClosestRule(available)(t).value in available
    ensures forall t :: ClosestRule(available)(t).Some? <==> |available| > 0
  {
  }

  /**
   * The selection loop of `get_options_data` over the target dates
   * `now + offset` (canonically 90, 120 and 150 days): the result has no
   * duplicates, holds only listed dates, at most one per target and at
   * least one when anything is listed, holds every target's closest date,
   * and lists dates in the order targets first picked them.
   */
  method SelectExpirations(available: seq<Day>, now: int, offsets: seq<int>) returns (selected: seq<Day>)
    ensures NoDuplicates(selected)
    ensures forall d :: d in selected ==> d in available
    ensures |selected| <= |offsets|
    ensures |available| > 0 && |offsets| > 0 ==> |selected| >= 1
    ensures forall k :: 0 <= k < |offsets| && |available| > 0 ==>
              FindClosestExpiration(available, TargetInstant(now, offsets[k])).value in selected
    ensures forall d :: d in selected <==> Some(d) in Picks(TargetInstants(now, offsets), ClosestRule(available))
    ensures PickOrdered(Picks(TargetInstants(now, offsets), ClosestRule(available)), selected)
    ensures selected == Selection(available, now, offsets)
  {
    var targets := TargetInstants(now, offsets);
    selected := Expirations.SelectExpirations(targets, ClosestRule(available));
    CollectKeepsPickOrder(Picks(targets, ClosestRule(available)));
    ClosestRulePicksListed(available);
    SelectionFacts(available, targets, ClosestRule(available));
    CollectFacts(Picks(targets, ClosestRule(available)));
    forall k | 0 <= k < |offsets| && |available| > 0
      ensures FindClosestExpiration(available, TargetInstant(now, offsets[k])).value in selected
    {
      assert targets[k] == TargetInstant(now, offsets[k]);
      assert ClosestRule(available)(targets[k]).Some?;
    }
  }

  /** The expirations `get_options_data` goes on with, as the selection loop computes them. */
  function Selection(available: seq<Day>, now: int, offsets: seq<int>): seq<Day>
  {
    Collect(Picks(TargetInstants(now, offsets), ClosestRule(available)))
  }

  /**
   * The Greeks a row of `get_options_data` gets: `calculate_greeks` only when
   * `iv > 0` (false for NaN), the zero vector otherwise.
   */
  function RowGreeks(iv: RawIv, spot: real, strike: real, days: int, kind: Kind, formula: Formula): (g: Greeks)
    ensures !(iv.Value? && iv.v > 0.0) ==> g == Zero
    ensures days <= 0 ==> g == Zero
  {
    if iv.Value? && iv.v > 0.0 then CalculateGreeks(spot, strike, YearsToExpiry(days), RiskFreeRate, iv.v, kind, formula)
    else Zero
  }

  /**
   * The `iv > 0` test before `calculate_greeks` changes nothing: calling the
   * calculator on every row, with the row's volatility read as 0 when absent
   * or NaN, gives the same Greeks, because its own guard zeroes `sigma <= 0`.
   */
  lemma RowGuardAgreesWithCalculator(iv: RawIv, spot: real, strike: real, days: int, kind: Kind, formula: Formula)
    ensures RowGreeks(iv, spot, strike, days, kind, formula)
         == CalculateGreeks(spot, strike, YearsToExpiry(days), RiskFreeRate, IvOrZero(iv), kind, formula)
  {
  }

  predicate IsNormalTicker(t: string)
  {
    && t != []
    && ',' !in t
    && !IsSpace(t[0]) && !IsSpace(t[|t| - 1])
    && forall k :: 0 <= k < |t| ==> !('a' <= t[k] <= 'z')
  }

  /** `[p.strip().upper() for p in pieces if p.strip()]` */
  function NormalTickers(pieces: seq<string>): (ts: seq<string>)
    ensures |ts| <= |pieces|
  {
    if pieces == [] then []
    else
      var p := pieces[|pieces| - 1];
      NormalTickers(pieces[..|pieces| - 1]) + (if IsBlank(p) then [] else [NormalTicker(p)])
  }

  /** A ticker comes out exactly when some non-blank piece normalises to it. */
  lemma {:induction false} NormalTickersMembers(pieces: seq<string>)
    ensures forall t :: t in NormalTickers(pieces) <==> exists p :: p in pieces && !IsBlank(p) && t == NormalTicker(p)
  {
    if pieces != [] {
      var init := pieces[..|pieces| - 1];
      NormalTickersMembers(init);
      SplitLast(pieces);
      assert forall q :: q in pieces <==> q in init || q == pieces[|pieces| - 1];
    }
  }

  /** The comprehension's `if p.strip()` as a callback. */
  function NonBlank(): string -> bool
  {
    p => !IsBlank(p)
  }

  /** One ticker per non-blank piece, in input order, duplicates kept: the normal forms of the kept pieces. */
  lemma {:induction false} NormalTickersInOrder(pieces: seq<string>)
    ensures |NormalTickers(pieces)| == |Filter(pieces, NonBlank())|
    ensures forall k :: 0 <= k < |NormalTickers(pieces)| ==>
              NormalTickers(pieces)[k] == NormalTicker(Filter(pieces, NonBlank())[k])
  {
    if pieces == [] {
      assert Filter(pieces, NonBlank()) == [];
    } else {
      var init := pieces[..|pieces| - 1];
      var p := pieces[|pieces| - 1];
      NormalTickersInOrder(init);
      SplitLast(pieces);
      FilterSnoc(init, p, NonBlank());
      var ts, fs := NormalTickers(init), Filter(init, NonBlank());
      assert NonBlank()(p) == !IsBlank(p);
      if !IsBlank(p) {
        assert NormalTickers(pieces) == ts + [NormalTicker(p)];
        assert Filter(pieces, NonBlank()) == fs + [p];
        assert |NormalTickers(pieces)| == |Filter(pieces, NonBlank())|;
        forall k | 0 <= k < |NormalTickers(pieces)|
          ensures NormalTickers(pieces)[k] == NormalTicker(Filter(pieces, NonBlank())[k])
        {
          if k < |ts| {
            assert NormalTickers(pieces)[k] == ts[k] && Filter(pieces, NonBlank())[k] == fs[k];
          } else {
            assert k == |ts| == |fs|;
            var n, f := NormalTickers(pieces), Filter(pieces, NonBlank());
            assert n == ts + [NormalTicker(p)];
            assert n[k] == NormalTicker(p);
            assert f[k] == p;
          }
        }
      } else {
        assert NormalTickers(pieces) == ts;
        assert Filter(pieces, NonBlank()) == fs;
        assert |NormalTickers(pieces)| == |Filter(pieces, NonBlank())|;
      }
    }
  }

  /**
   * Ticker parsing of `get_options`: the comma-separated pieces of the input,
   * trimmed and upper-cased, blanks dropped, one per kept piece in input
   * order with duplicates kept; no ticker at all is the error "No valid tickers provided" (answered with status 400).
   */
  function ParseTickers(input: string): (r: Result<seq<string>, string>)
    ensures r.Err? <==> forall p :: p in Split(input, ',') ==> IsBlank(p)
    ensures r.Err? ==> r.error == "No valid tickers provided"
    ensures r.Ok? ==> |r.value| >= 1 && |r.value| <= |Split(input, ',')|
    ensures r.Ok? ==> forall k :: 0 <= k < |r.value| ==> IsNormalTicker(r.value[k])
    ensures r.Ok? ==> forall t :: t in r.value <==> exists p :: p in Split(input, ',') && !IsBlank(p) && t == NormalTicker(p)
    ensures r.Ok? ==> |r.value| == |Filter(Split(input, ','), NonBlank())|
    ensures r.Ok? ==> forall k :: 0 <= k < |r.value| ==> r.value[k] == NormalTicker(Filter(Split(input, ','), NonBlank())[k])
  {
    var pieces := Split(input, ',');
    var ts := NormalTickers(pieces);
    NormalTickersMembers(pieces);
    NormalTickersInOrder(pieces);
    forall k | 0 <= k < |ts| ensures IsNormalTicker(ts[k]) {
      assert ts[k] in ts;
      var p :| p in pieces && !IsBlank(p) && ts[k] == NormalTicker(p);
      NormalTickerIsNormal(p, pieces);
    }
    forall p | p in pieces && !IsBlank(p) ensures ts != [] {
      assert NormalTicker(p) in ts;
    }
    if ts == [] then
      Err("No valid tickers provided")
    else
      assert ts[0] in ts;
      Ok(ts)
  }

  lemma NormalTickerIsNormal(p: string, pieces: seq<string>)
    requires p in pieces && !IsBlank(p)
    requires forall k :: 0 <= k < |pieces| ==> ',' !in pieces[k]
    ensures IsNormalTicker(NormalTicker(p))
  {
    var k :| 0 <= k < |pieces| && pieces[k] == p;
    StripKeepsOut(p, ',');
    UpperNormal(Strip(p));
  }

  /** A character missing from `p` is missing from `p.strip()`. */
  lemma StripKeepsOut(p: string, c: char)
    requires c !in p
    ensures c !in Strip(p)
  {
    var t := StripStart(p);
    SliceKeepsOut(p, |p| - |t|, |p|, c);
    SliceKeepsOut(t, 0, |StripEnd(t)|, c);
  }

  lemma SliceKeepsOut(p: string, i: int, j: int, c: char)
    requires 0 <= i <= j <= |p| && c !in p
    ensures c !in p[i..j]
  {
    forall k | 0 <= k < j - i ensures p[i..j][k] != c { assert p[i..j][k] == p[i + k]; }
  }

  lemma UpperNormal(s: string)
    requires s != [] && ',' !in s && !IsSpace(s[0]) && !IsSpace(s[|s| - 1])
    ensures IsNormalTicker(Upper(s))
  {
    var u := Upper(s);
    UpperCharKeepsSpace(s[0]);
    UpperCharKeepsSpace(s[|s| - 1]);
    forall k | 0 <= k < |u| ensures u[k] != ',' && !('a' <= u[k] <= 'z') {
      assert u[k] == UpperChar(s[k]);
    }
  }

  lemma UpperCharKeepsSpace(c: char)
    ensures IsSpace(UpperChar(c)) <==> IsSpace(c)
  {
  }

  /** A ticker already in normal form is its own normal form. */
  lemma NormalTickerFixed(t: string)
    requires IsNormalTicker(t)
    ensures !IsBlank(t) && NormalTicker(t) == t
  {
    assert StripStart(t) == t;
    assert StripEnd(t) == t;
    assert Upper(t) == t;
  }

  /**
   * Round trip: parsing tickers that are already trimmed, upper-case, non-empty
   * and free of commas, once joined with commas, gives them back in order.
   */
  lemma {:induction false} ParseJoinedTickers(ts: seq<string>)
    requires |ts| >= 1
    requires forall k :: 0 <= k < |ts| ==> IsNormalTicker(ts[k])
    ensures ParseTickers(Join(ts, [','])) == Ok(ts)
  {
    SplitJoin(ts, ',');
    NormalTickersFixed(ts);
  }

  lemma {:induction false} NormalTickersFixed(ts: seq<string>)
    requires forall k :: 0 <= k < |ts| ==> IsNormalTicker(ts[k])
    ensures NormalTickers(ts) == ts
  {
    if ts != [] {
      var init, last := ts[..|ts| - 1], ts[|ts| - 1];
      SplitLast(ts);
      assert forall k :: 0 <= k < |init| ==> init[k] == ts[k];
      NormalTickersFixed(init);
      NormalTickersSnoc(init, last);
    }
  }

  lemma NormalTickersSnoc(init: seq<string>, last: string)
    requires IsNormalTicker(last)
    ensures NormalTickers(init + [last]) == NormalTickers(init) + [last]
  {
    NormalTickerFixed(last);
    var s := init + [last];
    assert s[..|s| - 1] == init;
  }

  /** A row of the flat list the route returns. */
  datatype FlatOption = FlatOption(
    ticker: string, kind: Kind, expiration: Day, daysToExp: int,
    strike: real, lastPrice: real, bid: real, ask: real, volume: int, openInterest: int,
    impliedVolatility: real, greeks: Greeks, currentPrice: real)

  /**
   * What the market data source answers for one ticker: the spot price
   * (`None` when it cannot be read), the listed expirations, and the chain of
   * each expiration whose `option_chain` call succeeds.
   */
  datatype Market = Market(price: Option<real>, expirations: seq<Day>, chains: map<Day, Chain>)

  /**
   * The dictionary built for one quote: the quote's columns as given, the
   * volatility in percent (0 when absent or NaN), and the Greeks. A row
   * showing no positive implied volatility, or expiring within the day,
   * carries the zero Greeks.
   */
  function Row(ticker: string, kind: Kind, exp: Day, days: int, q: Quote, price: real, formula: Formula): (r: FlatOption)
    ensures r.ticker == ticker && r.kind == kind && r.expiration == exp && r.daysToExp == days && r.currentPrice == price
    ensures r.strike == q.strike && r.lastPrice == q.lastPrice && r.bid == q.bid && r.ask == q.ask
    ensures r.volume == q.volume && r.openInterest == q.openInterest
    ensures q.iv.Value? ==> r.impliedVolatility == q.iv.v * 100.0
    ensures !q.iv.Value? ==> r.impliedVolatility == 0.0
    ensures r.greeks == RowGreeks(q.iv, price, q.strike, days, kind, formula)
    ensures r.impliedVolatility <= 0.0 ==> r.greeks == Zero
    ensures days <= 0 ==> r.greeks == Zero
  {
    FlatOption(ticker, kind, exp, days, q.strike, q.lastPrice, q.bid, q.ask, q.volume, q.openInterest,
               IvOrZero(q.iv) * 100.0, RowGreeks(q.iv, price, q.strike, days, kind, formula), price)
  }

  /** The rows of one side of a chain, one per quote, in chain order. */
  function QuoteRows(ticker: string, kind: Kind, exp: Day, days: int, quotes: seq<Quote>, price: real, formula: Formula): (rows: seq<FlatOption>)
    ensures |rows| == |quotes|
    ensures forall k :: 0 <= k < |quotes| ==> rows[k] == Row(ticker, kind, exp, days, quotes[k], price, formula)
  {
    if quotes == [] then []
    else QuoteRows(ticker, kind, exp, days, quotes[..|quotes| - 1], price, formula)
         + [Row(ticker, kind, exp, days, quotes[|quotes| - 1], price, formula)]
  }

  /** An expiration contributes its calls, then its puts. */
  function ExpirationRows(ticker: string, exp: Day, now: int, chain: Chain, price: real, formula: Formula): seq<FlatOption>
  {
    var days := DaysUntil(exp, now);
    QuoteRows(ticker, Call, exp, days, chain.calls, price, formula)
    + QuoteRows(ticker, Put, exp, days, chain.puts, price, formula)
  }

  /** The rows of the selected expirations in order; one whose chain fails contributes none. */
  function OptionsRows(ticker: string, price: real, selected: seq<Day>, chains: map<Day, Chain>, now: int, formula: Formula): seq<FlatOption>
  {
    if selected == [] then []
    else
      var prev := OptionsRows(ticker, price, selected[..|selected| - 1], chains, now, formula);
      var exp := selected[|selected| - 1];
      if exp in chains then prev + ExpirationRows(ticker, exp, now, chains[exp], price, formula) else prev
  }

  /** The `for exp_date in selected_expirations` loop with its two inner `append` loops. */
  method BuildRows(ticker: string, price: real, selected: seq<Day>, chains: map<Day, Chain>, now: int, formula: Formula)
    returns (rows: seq<FlatOption>)
    ensures rows == OptionsRows(ticker, price, selected, chains, now, formula)
  {
    rows := [];
    var i := 0;
    while i < |selected|
      invariant 0 <= i <= |selected|
      invariant rows == OptionsRows(ticker, price, selected[..i], chains, now, formula)
    {
      assert selected[..i + 1][..i] == selected[..i];
      var exp := selected[i];
      if exp in chains {
        rows := AppendExpiration(rows, ticker, exp, now, chains[exp], price, formula);
      }
      i := i + 1;
    }
    assert selected[..i] == selected;
  }

  /** One pass of that loop for an expiration whose chain was fetched: its calls, then its puts. */
  method AppendExpiration(rows: seq<FlatOption>, ticker: string, exp: Day, now: int, chain: Chain, price: real, formula: Formula)
    returns (out: seq<FlatOption>)
    ensures out == rows + ExpirationRows(ticker, exp, now, chain, price, formula)
  {
    var days := DaysUntil(exp, now);
    var withCalls := AppendRows(rows, ticker, Call, exp, days, chain.calls, price, formula);
    out := AppendRows(withCalls, ticker, Put, exp, days, chain.puts, price, formula);
  }

  /** `for _, call in calls.iterrows(): options_data.append(...)` (and the same for puts). */
  method AppendRows(rows: seq<FlatOption>, ticker: string, kind: Kind, exp: Day, days: int, quotes: seq<Quote>, price: real, formula: Formula)
    returns (out: seq<FlatOption>)
    ensures out == rows + QuoteRows(ticker, kind, exp, days, quotes, price, formula)
  {
    out := rows;
    var j := 0;
    while j < |quotes|
      invariant 0 <= j <= |quotes|
      invariant out == rows + QuoteRows(ticker, kind, exp, days, quotes[..j], price, formula)
    {
      assert quotes[..j + 1][..j] == quotes[..j];
      out := out + [Row(ticker, kind, exp, days, quotes[j], price, formula)];
      j := j + 1;
    }
    assert quotes[..j] == quotes;
  }

  /**
   * Every row belongs to the ticker, to a selected expiration whose chain
   * was fetched, carries the spot price and the whole days to expiry; and
   * every quote of every fetched selected chain has its row.
   */
  lemma {:induction false} OptionsRowsFacts(ticker: string, price: real, selected: seq<Day>, chains: map<Day, Chain>, now: int, formula: Formula)
    ensures forall r :: r in OptionsRows(ticker, price, selected, chains, now, formula) ==>
              && r.ticker == ticker && r.expiration in selected && r.expiration in chains
              && r.currentPrice == price && r.daysToExp == DaysUntil(r.expiration, now)
    ensures forall exp, k :: exp in selected && exp in chains && 0 <= k < |chains[exp].calls| ==>
              Row(ticker, Call, exp, DaysUntil(exp, now), chains[exp].calls[k], price, formula)
                in OptionsRows(ticker, price, selected, chains, now, formula)
    ensures forall exp, k :: exp in selected && exp in chains && 0 <= k < |chains[exp].puts| ==>
              Row(ticker, Put, exp, DaysUntil(exp, now), chains[exp].puts[k], price, formula)
                in OptionsRows(ticker, price, selected, chains, now, formula)
  {
    if selected != [] {
      var init := selected[..|selected| - 1];
      var exp := selected[|selected| - 1];
      OptionsRowsFacts(ticker, price, init, chains, now, formula);
      assert forall d :: d in selected <==> d in init || d == exp;
      if exp in chains {
        var extra := ExpirationRows(ticker, exp, now, chains[exp], price, formula);
        var calls := QuoteRows(ticker, Call, exp, DaysUntil(exp, now), chains[exp].calls, price, formula);
        var puts := QuoteRows(ticker, Put, exp, DaysUntil(exp, now), chains[exp].puts, price, formula);
        assert extra == calls + puts;
        forall r | r in extra ensures r.ticker == ticker && r.expiration == exp && r.currentPrice == price && r.daysToExp == DaysUntil(exp, now) {
          if r in calls {
            var k :| 0 <= k < |calls| && calls[k] == r;
          } else {
            var k :| 0 <= k < |puts| && puts[k] == r;
          }
        }
        forall k | 0 <= k < |chains[exp].calls| ensures calls[k] in extra { assert extra[k] == calls[k]; }
        forall k | 0 <= k < |chains[exp].puts| ensures puts[k] in extra { assert extra[|calls| + k] == puts[k]; }
      }
    }
  }

  /**
   * `get_options_data`: nothing when the spot price cannot be read or is 0,
   * or when no expiration is listed; otherwise the rows of the selected
   * expirations for horizons of 90, 120 and 150 days.
   */
  function OptionsData(ticker: string, market: Market, now: int, formula: Formula): (r: Option<seq<FlatOption>>)
    ensures r.None? <==> market.price.None? || market.price.value == 0.0 || market.expirations == []
  {
    if market.price.None? || market.price.value == 0.0 || market.expirations == [] then None
    else Some(OptionsRows(ticker, market.price.value, Selection(market.expirations, now, DefaultOffsets), market.chains, now, formula))
  }

  method GetOptionsData(ticker: string, market: Market, now: int, formula: Formula) returns (r: Option<seq<FlatOption>>)
    ensures r == OptionsData(ticker, market, now, formula)
  {
    if market.price.None? || market.price.value == 0.0 {
      return None;
    }
    if market.expirations == [] {
      return None;
    }
    var selected := SelectExpirations(market.expirations, now, DefaultOffsets);
    var rows := BuildRows(ticker, market.price.value, selected, market.chains, now, formula);
    r := Some(rows);
  }

  /**
   * The rows a ticker would add to the route's answer: none when its
   * analysis raises (no market data) or yields nothing.
   */
  function TickerRows(t: string, markets: map<string, Market>, now: int, formula: Formula): seq<FlatOption>
  {
    if t in markets && OptionsData(t, markets[t], now, formula).Some? then OptionsData(t, markets[t], now, formula).value else []
  }

  /** `all_options.extend(...)` over the tickers, in order. */
  function Gathered(tickers: seq<string>, markets: map<string, Market>, now: int, formula: Formula): seq<FlatOption>
  {
    if tickers == [] then []
    else Gathered(tickers[..|tickers| - 1], markets, now, formula) + TickerRows(tickers[|tickers| - 1], markets, now, formula)
  }

  /** Every gathered row names one of the requested tickers, and one whose data was available. */
  lemma {:induction false} GatheredFacts(tickers: seq<string>, markets: map<string, Market>, now: int, formula: Formula)
    ensures forall r :: r in Gathered(tickers, markets, now, formula) ==>
              r.ticker in tickers && r.ticker in markets && OptionsData(r.ticker, markets[r.ticker], now, formula).Some?
  {
    if tickers != [] {
      var init := tickers[..|tickers| - 1];
      var t := tickers[|tickers| - 1];
      GatheredFacts(init, markets, now, formula);
      assert forall u :: u in init ==> u in tickers;
      if t in markets && OptionsData(t, markets[t], now, formula).Some? {
        var m := markets[t];
        OptionsRowsFacts(t, m.price.value, Selection(m.expirations, now, DefaultOffsets), m.chains, now, formula);
      }
    }
  }

  /** One pass of the route's loop: the ticker's rows, or none when its analysis gives nothing. */
  method FetchTicker(t: string, markets: map<string, Market>, now: int, formula: Formula) returns (rows: seq<FlatOption>)
    ensures rows == TickerRows(t, markets, now, formula)
  {
    rows := [];
    if t in markets {
      var data := GetOptionsData(t, markets[t], now, formula);
      if data.Some? && data.value != [] {
        rows := data.value;
      }
    }
  }

  /** The route's `for ticker in tickers` loop. */
  method GatherAll(tickers: seq<string>, markets: map<string, Market>, now: int, formula: Formula) returns (all: seq<FlatOption>)
    ensures all == Gathered(tickers, markets, now, formula)
  {
    all := [];
    var i := 0;
    while i < |tickers|
      invariant 0 <= i <= |tickers|
      invariant all == Gathered(tickers[..i], markets, now, formula)
    {
      GatheredStep(tickers, i, markets, now, formula);
      var rows := FetchTicker(tickers[i], markets, now, formula);
      all := all + rows;
      i := i + 1;
    }
    assert tickers[..i] == tickers;
  }

  lemma GatheredStep(tickers: seq<string>, i: nat, markets: map<string, Market>, now: int, formula: Formula)
    requires i < |tickers|
    ensures Gathered(tickers[..i + 1], markets, now, formula)
         == Gathered(tickers[..i], markets, now, formula) + TickerRows(tickers[i], markets, now, formula)
  {
    assert tickers[..i + 1][..i] == tickers[..i];
  }

  /**
   * The `/api/options` route: the parse error, or the concatenated rows of
   * every parsed ticker, in ticker order.
   */
  method GetOptions(input: string, markets: map<string, Market>, now: int, formula: Formula)
    returns (r: Result<seq<FlatOption>, string>)
    ensures ParseTickers(input).Err? ==> r == Err(ParseTickers(input).error)
    ensures ParseTickers(input).Ok? ==> r == Ok(Gathered(ParseTickers(input).value, markets, now, formula))
  {
    var parsed := ParseTickers(input);
    if parsed.Err? {
      return Err(parsed.error);
    }
    var all := GatherAll(parsed.value, markets, now, formula);
    r := Ok(all);
  }
}
