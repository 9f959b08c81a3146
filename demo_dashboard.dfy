/**
 * The server side of `demo_dashboard.py`: the `OptionsAnalyzer` with its
 * five-minute result cache keyed by ticker and target horizons, its
 * nearest-expiration loop (distance in whole days), the per-expiration
 * snapshot it builds, and the `/api/options` route that asks it for every
 * ticker of a JSON list.
 */
module DemoDashboard {
  import opened Common
  import opened Text
  import opened Greeks
  import opened Expirations
  import opened MarketData

  /** `self.cache_duration`: cached results live for 300 seconds. */
  const CacheDuration: int := 300

  /** The rate `get_risk_free_rate` falls back to. */
  const FallbackRate: real := 0.045

  // ---------------------------------------------------------------------
  // Market inputs

  /**
   * What `yf.Ticker(ticker)` yields for one ticker: its price fields, the
   * listed expirations, the chains that can be fetched (a date missing here
   * is one whose `option_chain` raises), and the last close of `^TNX` over
   * five days.
   */
  datatype DemoMarket = DemoMarket(price: PriceInfo, expirations: seq<Day>, chains: map<Day, Chain>, treasuryClose: Option<real>)

  /** `get_risk_free_rate`: the treasury close in percent as a fraction, else 4.5%. */
  function RiskFreeRate(treasuryClose: Option<real>): (r: real)
    ensures treasuryClose.None? ==> r == FallbackRate
    ensures treasuryClose.Some? ==> r * 100.0 == treasuryClose.value
  {
    match treasuryClose
    case Some(c) => c / 100.0
    case None => FallbackRate
  }

  // ---------------------------------------------------------------------
  // Expiration selection

  /** `abs((exp_date - target_date).days)`: the whole days between, rounded down before `abs`. */
  function DaysApart(exp: Day, target: int): nat
  {
    Abs(DaysUntil(exp, target))
  }

  /** The distance the inner loop minimises for one target. */
  function ApartFrom(target: int): Day -> int
  {
    d => DaysApart(d, target)
  }

  /** The day number of the first midnight at or after `t`. */
  function CeilDay(t: int): (c: int)
    ensures (c - 1) * SecondsPerDay < t <= c * SecondsPerDay
  {
    -((-t) / SecondsPerDay)
  }

  /**
   * Since the floor is taken before `abs`, the distance of a date is its
   * distance in days to the first midnight at or after the target, not to
   * the target's own day.
   */
  lemma DaysApartFromNextMidnight(exp: Day, target: int)
    ensures DaysApart(exp, target) == Abs(exp - CeilDay(target))
  {
    var c := CeilDay(target);
    var q := DaysUntil(exp, target);
    assert q * SecondsPerDay <= exp * SecondsPerDay - target < (q + 1) * SecondsPerDay;
    assert (exp - c) * SecondsPerDay <= exp * SecondsPerDay - target < (exp - c + 1) * SecondsPerDay;
  }

  /** The date the inner loop settles on: the first of the listed dates at least distance. */
  function ClosestExpiration(expirations: seq<Day>, target: int): (r: Option<Day>)
    ensures r.None? <==> |expirations| == 0
    ensures r.Some? ==> r.value in expirations
    ensures r.Some? ==> forall d :: d in expirations ==> DaysApart(r.value, target) <= DaysApart(d, target)
    ensures r.Some? ==> forall j :: 0 <= j < FirstIndex(expirations, r.value) ==>
                          DaysApart(expirations[j], target) > DaysApart(r.value, target)
  {
    Nearest(expirations, ApartFrom(target))
  }

  /**
   * The inner loop of `get_options_data`: `min_diff` starts at infinity
   * (here: no candidate yet) and a date replaces the candidate only when
   * strictly nearer, so the first nearest date in list order wins.
   */
  method FindClosest(expirations: seq<Day>, target: int) returns (closest: Option<Day>)
    ensures closest == ClosestExpiration(expirations, target)
  {
    closest := None;
    var minDiff := 0;
    var i := 0;
    ghost var k := 0;
    while i < |expirations|
      invariant 0 <= i <= |expirations|
      invariant closest.None? <==> i == 0
      invariant i > 0 ==> k == FirstNearestIndex(expirations[..i], ApartFrom(target)) && closest == Some(expirations[k])
      invariant closest.Some? ==> minDiff == DaysApart(closest.value, target)
    {
      var diff := DaysApart(expirations[i], target);
      if i > 0 {
        assert expirations[..i + 1][..i] == expirations[..i];
      }
      if closest.None? || diff < minDiff {
        minDiff := diff;
        closest := Some(expirations[i]);
        k := i;
      }
      i := i + 1;
    }
    assert expirations[..i] == expirations;
    if i > 0 {
      NearestAtFirstNearestIndex(expirations, ApartFrom(target));
    }
  }

  /** The rule the outer loop applies to each target instant. */
  function ClosestRule(expirations: seq<Day>): int -> Option<Day>
  {
    t => ClosestExpiration(expirations, t)
  }

  lemma ClosestRulePicksListed(expirations: seq<Day>)
    ensures forall t :: ClosestRule(expirations)(t).None? || ClosestRule(expirations)(t).value in expirations
    ensures forall t :: ClosestRule(expirations)(t).Some? <==> |expirations| > 0
  {
  }

  /** `target_expirations` as the outer loop builds it. */
  function Selection(expirations: seq<Day>, now: int, targetDays: seq<int>): seq<Day>
  {
    Collect(Picks(TargetInstants(now, targetDays), ClosestRule(expirations)))
  }

  /**
   * The outer loop of `get_options_data`: for each horizon in the given
   * order, the closest date, appended when not yet present. The result has
   * no duplicates, only listed dates, at most one per horizon and at least
   * one when anything is listed, and each horizon's closest date.
   */
  method SelectTargetExpirations(expirations: seq<Day>, now: int, targetDays: seq<int>) returns (selected: seq<Day>)
    ensures selected == Selection(expirations, now, targetDays)
    ensures NoDuplicates(selected)
    ensures forall d :: d in selected ==> d in expirations
    ensures |selected| <= |targetDays|
    ensures |expirations| > 0 && |targetDays| > 0 ==> |selected| >= 1
    ensures forall k :: 0 <= k < |targetDays| && |expirations| > 0 ==>
              ClosestExpiration(expirations, TargetInstant(now, targetDays[k])).value in selected
  {
    var targets := TargetInstants(now, targetDays);
    selected := CollectClosest(expirations, targets);
    ClosestRulePicksListed(expirations);
    SelectionFacts(expirations, targets, ClosestRule(expirations));
    forall k | 0 <= k < |targetDays| && |expirations| > 0
      ensures ClosestExpiration(expirations, TargetInstant(now, targetDays[k])).value in selected
    {
      assert targets[k] == TargetInstant(now, targetDays[k]);
      assert ClosestRule(expirations)(targets[k]).Some?;
    }
  }

  /** The outer loop itself, over the target instants. */
  method CollectClosest(expirations: seq<Day>, targets: seq<int>) returns (selected: seq<Day>)
    ensures selected == Collect(Picks(targets, ClosestRule(expirations)))
  {
    selected := [];
    var i := 0;
    while i < |targets|
      invariant 0 <= i <= |targets|
      invariant selected == Collect(Picks(targets[..i], ClosestRule(expirations)))
    {
      CollectStep(targets, i, ClosestRule(expirations));
      var closest := FindClosest(expirations, targets[i]);
      assert closest == ClosestRule(expirations)(targets[i]);
      if closest.Some? && closest.value !in selected {
        selected := selected + [closest.value];
      }
      i := i + 1;
    }
    assert targets[..i] == targets;
  }

  // ---------------------------------------------------------------------
  // The snapshot of one ticker

  datatype DemoRow = DemoRow(
    strike: real, lastPrice: real, bid: real, ask: real, volume: int, openInterest: int,
    impliedVolatility: real, greeks: Greeks)

  datatype Expiry = Expiry(date: Day, daysToExpiry: int, calls: seq<DemoRow>, puts: seq<DemoRow>)

  /** The dictionary `get_options_data` returns and caches. */
  datatype Analysis = Analysis(ticker: string, currentPrice: real, riskFreeRate: real, expirations: seq<Expiry>)

  /**
   * One row: the volatility read as 0 when absent or NaN, and the Greeks of
   * `calculate_greeks` for it, which are zero when the volatility or the
   * days to expiry are not positive.
   */
  function Row(q: Quote, kind: Kind, spot: real, days: int, rate: real, formula: Formula): (r: DemoRow)
    ensures q.iv.Value? ==> r.impliedVolatility == q.iv.v
    ensures !q.iv.Value? ==> r.impliedVolatility == 0.0 && r.greeks == Zero
    ensures r.greeks == CalculateGreeks(spot, q.strike, YearsToExpiry(days), rate, r.impliedVolatility, kind, formula)
    ensures r.impliedVolatility <= 0.0 || days <= 0 ==> r.greeks == Zero
    ensures (r.strike, r.lastPrice, r.bid, r.ask, r.volume, r.openInterest)
         == (q.strike, q.lastPrice, q.bid, q.ask, q.volume, q.openInterest)
  {
    var iv := IvOrZero(q.iv);
    DemoRow(q.strike, q.lastPrice, q.bid, q.ask, q.volume, q.openInterest, iv,
            CalculateGreeks(spot, q.strike, YearsToExpiry(days), rate, iv, kind, formula))
  }

  /** The rows of one side of a chain, one per quote, in chain order. */
  function Rows(quotes: seq<Quote>, kind: Kind, spot: real, days: int, rate: real, formula: Formula): (rows: seq<DemoRow>)
    ensures |rows| == |quotes|
    ensures forall k :: 0 <= k < |quotes| ==> rows[k] == Row(quotes[k], kind, spot, days, rate, formula)
  {
    if quotes == [] then []
    else Rows(quotes[..|quotes| - 1], kind, spot, days, rate, formula) + [Row(quotes[|quotes| - 1], kind, spot, days, rate, formula)]
  }

  /** The `calls_data` / `puts_data` loop. */
  method BuildRows(quotes: seq<Quote>, kind: Kind, spot: real, days: int, rate: real, formula: Formula)
    returns (rows: seq<DemoRow>)
    ensures rows == Rows(quotes, kind, spot, days, rate, formula)
  {
    rows := [];
    var i := 0;
    while i < |quotes|
      invariant 0 <= i <= |quotes|
      invariant rows == Rows(quotes[..i], kind, spot, days, rate, formula)
    {
      assert quotes[..i + 1][..i] == quotes[..i];
      rows := rows + [Row(quotes[i], kind, spot, days, rate, formula)];
      i := i + 1;
    }
    assert quotes[..i] == quotes;
  }

  /** The entry of one expiration whose chain was fetched. */
  function ExpiryOf(date: Day, chain: Chain, now: int, spot: real, rate: real, formula: Formula): Expiry
  {
    var days := DaysUntil(date, now);
    Expiry(date, days, Rows(chain.calls, Call, spot, days, rate, formula), Rows(chain.puts, Put, spot, days, rate, formula))
  }

  /** `result['expirations']`: one entry per selected date whose chain could be fetched, in selection order. */
  function Expiries(selected: seq<Day>, chains: map<Day, Chain>, now: int, spot: real, rate: real, formula: Formula): seq<Expiry>
  {
    if selected == [] then []
    else
      var prev := Expiries(selected[..|selected| - 1], chains, now, spot, rate, formula);
      var d := selected[|selected| - 1];
      if d in chains then prev + [ExpiryOf(d, chains[d], now, spot, rate, formula)] else prev
  }

  function ExpiryDates(exps: seq<Expiry>): (ds: seq<Day>)
    ensures |ds| == |exps|
    ensures forall k :: 0 <= k < |exps| ==> ds[k] == exps[k].date
  {
    if exps == [] then [] else ExpiryDates(exps[..|exps| - 1]) + [exps[|exps| - 1].date]
  }

  /**
   * The entries are exactly the selected dates with a chain, in selection
   * order, each built from its own chain.
   */
  lemma ExpiriesFacts(selected: seq<Day>, chains: map<Day, Chain>, now: int, spot: real, rate: real, formula: Formula)
    ensures ExpiryDates(Expiries(selected, chains, now, spot, rate, formula)) == Filter(selected, HasKey(chains))
    ensures forall e :: e in Expiries(selected, chains, now, spot, rate, formula) ==>
              e.date in chains && e == ExpiryOf(e.date, chains[e.date], now, spot, rate, formula)
  {
    ExpiriesDates(selected, chains, now, spot, rate, formula);
    ExpiriesMembers(selected, chains, now, spot, rate, formula);
  }

  lemma {:induction false} ExpiriesDates(selected: seq<Day>, chains: map<Day, Chain>, now: int, spot: real, rate: real, formula: Formula)
    ensures ExpiryDates(Expiries(selected, chains, now, spot, rate, formula)) == Filter(selected, HasKey(chains))
  {
    if selected != [] {
      var init := selected[..|selected| - 1];
      var d := selected[|selected| - 1];
      SplitLast(selected);
      ExpiriesDates(init, chains, now, spot, rate, formula);
      FilterSnoc(init, d, HasKey(chains));
      var prev := Expiries(init, chains, now, spot, rate, formula);
      if d in chains {
        ExpiryDatesSnoc(prev, ExpiryOf(d, chains[d], now, spot, rate, formula));
      }
    }
  }

  lemma {:induction false} ExpiriesMembers(selected: seq<Day>, chains: map<Day, Chain>, now: int, spot: real, rate: real, formula: Formula)
    ensures forall e :: e in Expiries(selected, chains, now, spot, rate, formula) ==>
              e.date in chains && e == ExpiryOf(e.date, chains[e.date], now, spot, rate, formula)
  {
    if selected != [] {
      ExpiriesMembers(selected[..|selected| - 1], chains, now, spot, rate, formula);
    }
  }

  lemma ExpiryDatesSnoc(exps: seq<Expiry>, e: Expiry)
    ensures ExpiryDates(exps + [e]) == ExpiryDates(exps) + [e.date]
  {
    assert (exps + [e])[..|exps|] == exps;
  }

  /** The loop over `target_expirations`, each date's rows built by their own loops. */
  method BuildExpiries(selected: seq<Day>, chains: map<Day, Chain>, now: int, spot: real, rate: real, formula: Formula)
    returns (exps: seq<Expiry>)
    ensures exps == Expiries(selected, chains, now, spot, rate, formula)
  {
    exps := [];
    var i := 0;
    while i < |selected|
      invariant 0 <= i <= |selected|
      invariant exps == Expiries(selected[..i], chains, now, spot, rate, formula)
    {
      assert selected[..i + 1][..i] == selected[..i];
      var d := selected[i];
      if d in chains {
        var days := DaysUntil(d, now);
        var calls := BuildRows(chains[d].calls, Call, spot, days, rate, formula);
        var puts := BuildRows(chains[d].puts, Put, spot, days, rate, formula);
        exps := exps + [Expiry(d, days, calls, puts)];
      }
      i := i + 1;
    }
    assert selected[..i] == selected;
  }

  /**
   * What a cache miss computes: nothing when the data source raised
   * (`market` is `None`) or lists no expirations, else the snapshot of the
   * selected expirations.
   */
  function Analyze(ticker: string, targetDays: seq<int>, market: Option<DemoMarket>, now: int, formula: Formula): Option<Analysis>
  {
    if market.None? || market.value.expirations == [] then None
    else
      var m := market.value;
      var price := QuotedPrice(m.price);
      var rate := RiskFreeRate(m.treasuryClose);
      Some(Analysis(ticker, price, rate, Expiries(Selection(m.expirations, now, targetDays), m.chains, now, price, rate, formula)))
  }

  /**
   * A snapshot exists exactly when the data source answered with a
   * non-empty expiration list; it names the ticker, its quoted price and
   * the rate read from the treasury close; its dates are the selected dates
   * whose chain was fetched, in selection order and each at most once; and
   * each entry is built from its own chain.
   */
  lemma AnalyzeFacts(ticker: string, targetDays: seq<int>, market: Option<DemoMarket>, now: int, formula: Formula)
    ensures Analyze(ticker, targetDays, market, now, formula).Some? <==> market.Some? && market.value.expirations != []
    ensures var r := Analyze(ticker, targetDays, market, now, formula);
      r.Some? ==>
        && r.value.ticker == ticker
        && r.value.currentPrice == QuotedPrice(market.value.price)
        && r.value.riskFreeRate == RiskFreeRate(market.value.treasuryClose)
        && ExpiryDates(r.value.expirations) == Filter(Selection(market.value.expirations, now, targetDays), HasKey(market.value.chains))
        && NoDuplicates(ExpiryDates(r.value.expirations))
        && |r.value.expirations| <= |targetDays|
        && (forall e :: e in r.value.expirations ==>
              && e.date in market.value.chains
              && e.date in Selection(market.value.expirations, now, targetDays)
              && e.daysToExpiry == DaysUntil(e.date, now)
              && |e.calls| == |market.value.chains[e.date].calls|
              && |e.puts| == |market.value.chains[e.date].puts|
              && e == ExpiryOf(e.date, market.value.chains[e.date], now, r.value.currentPrice, r.value.riskFreeRate, formula))
  {
    if market.Some? && market.value.expirations != [] {
      var m := market.value;
      var sel := Selection(m.expirations, now, targetDays);
      ClosestRulePicksListed(m.expirations);
      SelectionFacts(m.expirations, TargetInstants(now, targetDays), ClosestRule(m.expirations));
      var price, rate := QuotedPrice(m.price), RiskFreeRate(m.treasuryClose);
      ExpiriesOfSelection(sel, m.chains, now, price, rate, formula);
      ExpiriesFacts(sel, m.chains, now, price, rate, formula);
      var exps := Expiries(sel, m.chains, now, price, rate, formula);
      assert Analyze(ticker, targetDays, market, now, formula) == Some(Analysis(ticker, price, rate, exps));
      assert |TargetInstants(now, targetDays)| == |targetDays|;
    }
  }

  /** The entries of a duplicate-free selection: distinct, no more than selected, each from its own chain. */
  lemma ExpiriesOfSelection(sel: seq<Day>, chains: map<Day, Chain>, now: int, spot: real, rate: real, formula: Formula)
    requires NoDuplicates(sel)
    ensures var exps := Expiries(sel, chains, now, spot, rate, formula);
      && NoDuplicates(ExpiryDates(exps))
      && |exps| <= |sel|
      && (forall e :: e in exps ==>
            && e.date in chains && e.date in sel
            && e.daysToExpiry == DaysUntil(e.date, now)
            && |e.calls| == |chains[e.date].calls|
            && |e.puts| == |chains[e.date].puts|)
  {
    var exps := Expiries(sel, chains, now, spot, rate, formula);
    ExpiriesFacts(sel, chains, now, spot, rate, formula);
    FilterKeepsDistinct(sel, HasKey(chains));
    forall e | e in exps ensures e.date in sel {
      var k :| 0 <= k < |exps| && exps[k] == e;
      assert ExpiryDates(exps)[k] == e.date;
      FilterMembership(sel, HasKey(chains), e.date);
    }
  }

  // ---------------------------------------------------------------------
  // The cache

  /** `f"{ticker}_{'-'.join(map(str, target_days))}"`, horizons in the order given. */
  function CacheKey(ticker: string, targetDays: seq<int>): string
  {
    ticker + "_" + Join(IntsToStrings(targetDays), "-")
  }

  /**
   * Different tickers or different horizon lists (in value or in order)
   * never share a cache entry, for horizons that are not negative.
   */
  lemma CacheKeyInjective(t1: string, d1: seq<nat>, t2: string, d2: seq<nat>)
    requires CacheKey(t1, d1) == CacheKey(t2, d2)
    ensures t1 == t2 && d1 == d2
  {
    var j1, j2 := Join(IntsToStrings(d1), "-"), Join(IntsToStrings(d2), "-");
    DigitsJoinHasNo(d1, '_');
    DigitsJoinHasNo(d2, '_');
    LastSeparator(t1, j1, t2, j2, '_');
    if d1 == [] || d2 == [] {
      JoinNonEmpty(IntsToStrings(d1), "-");
      JoinNonEmpty(IntsToStrings(d2), "-");
    } else {
      var p1, p2 := IntsToStrings(d1), IntsToStrings(d2);
      assert forall k :: 0 <= k < |p1| ==> '-' !in p1[k] by {
        forall k | 0 <= k < |p1| ensures '-' !in p1[k] { DigitsHaveNo(p1[k], '-'); }
      }
      assert forall k :: 0 <= k < |p2| ==> '-' !in p2[k] by {
        forall k | 0 <= k < |p2| ensures '-' !in p2[k] { DigitsHaveNo(p2[k], '-'); }
      }
      SplitJoin(p1, '-');
      SplitJoin(p2, '-');
      assert p1 == p2;
      forall k | 0 <= k < |d1| ensures d1[k] == d2[k] {
        assert NatToString(d1[k]) == p1[k] == p2[k] == NatToString(d2[k]);
        NatToStringInjective(d1[k], d2[k]);
      }
    }
  }

  /** The key keeps the horizons' order: the same horizons listed otherwise are another entry. */
  lemma CacheKeyKeepsOrder(ticker: string)
    ensures CacheKey(ticker, [90, 120]) != CacheKey(ticker, [120, 90])
  {
    if CacheKey(ticker, [90, 120]) == CacheKey(ticker, [120, 90]) {
      CacheKeyInjective(ticker, [90, 120], ticker, [120, 90]);
    }
  }

  /** Two strings that each end in a separator-free part after a separator split alike. */
  lemma LastSeparator(a: string, b: string, c: string, d: string, sep: char)
    requires sep !in b && sep !in d
    requires a + [sep] + b == c + [sep] + d
    ensures a == c && b == d
  {
    var s := a + [sep] + b;
    if |b| < |d| {
      SeparatorInLongerTail(a, b, c, d, sep);
    } else if |b| > |d| {
      SeparatorInLongerTail(c, d, a, b, sep);
    }
    assert b == s[|s| - |b|..];
    assert d == s[|s| - |d|..];
    assert a == s[..|a|];
    assert c == s[..|c|];
  }

  lemma SeparatorInLongerTail(a: string, b: string, c: string, d: string, sep: char)
    requires a + [sep] + b == c + [sep] + d
    requires |b| < |d|
    ensures sep in d
  {
    var s := a + [sep] + b;
    assert d[|d| - |b| - 1] == s[|a|];
  }

  lemma DigitsHaveNo(s: string, c: char)
    requires AllDigits(s) && !('0' <= c <= '9')
    ensures c !in s
  {
  }

  lemma {:induction false} DigitsJoinHasNo(days: seq<nat>, c: char)
    requires !('0' <= c <= '9') && c != '-'
    ensures c !in Join(IntsToStrings(days), "-")
  {
    if |days| == 1 {
      DigitsHaveNo(IntToString(days[0]), c);
    } else if |days| > 1 {
      DigitsHaveNo(IntToString(days[0]), c);
      DigitsJoinHasNo(days[1..], c);
      assert IntsToStrings(days)[1..] == IntsToStrings(days[1..]);
    }
  }

  lemma JoinNonEmpty(parts: seq<string>, sep: string)
    requires parts != [] ==> parts[0] != []
    ensures Join(parts, sep) == [] <==> parts == []
  {
  }

  /** `time.time() - self.cache_timestamp[key] < self.cache_duration` with both maps holding the key. */
  predicate IsFresh(data: map<string, Analysis>, stamps: map<string, int>, key: string, clock: int)
  {
    key in data && key in stamps && clock - stamps[key] < CacheDuration
  }

  /** Both cache dictionaries as one value. */
  datatype Cache = Cache(data: map<string, Analysis>, stamps: map<string, int>)

  /**
   * One call of `get_options_data` on the cache: a fresh entry is returned
   * as stored; otherwise the computed snapshot, when there is one, is stored
   * with the clock read after computing it. A failed computation stores
   * nothing.
   */
  function Serve(c: Cache, key: string, clock: int, storeClock: int, computed: Option<Analysis>): (r: (Option<Analysis>, Cache))
    ensures IsFresh(c.data, c.stamps, key, clock) ==> r.0 == Some(c.data[key]) && r.1 == c
    ensures !IsFresh(c.data, c.stamps, key, clock) ==> r.0 == computed
    ensures computed.None? ==> r.1 == c
    ensures forall k :: k != key ==> (k in r.1.data <==> k in c.data) && (k in c.data ==> r.1.data[k] == c.data[k])
    ensures forall k :: k != key ==> (k in r.1.stamps <==> k in c.stamps) && (k in c.stamps ==> r.1.stamps[k] == c.stamps[k])
  {
    if IsFresh(c.data, c.stamps, key, clock) then (Some(c.data[key]), c)
    else if computed.None? then (None, c)
    else (computed, Cache(c.data[key := computed.value], c.stamps[key := storeClock]))
  }

  /**
   * A snapshot stored at `stored` is served unchanged, whatever a new
   * computation would give, by every call within the next 300 seconds, and
   * by none after.
   */
  lemma StoredIsServedUntilExpiry(c: Cache, key: string, stored: int, a: Analysis, clock: int, later: Option<Analysis>, laterStore: int)
    requires !IsFresh(c.data, c.stamps, key, stored)
    ensures var c1 := Serve(c, key, stored, stored, Some(a)).1;
      && (clock - stored < CacheDuration ==> Serve(c1, key, clock, laterStore, later) == (Some(a), c1))
      && (clock - stored >= CacheDuration ==> Serve(c1, key, clock, laterStore, later).0 == later)
  {
  }

  /** Every entry under the key of a ticker holds that ticker's snapshot. */
  ghost predicate NamesOwners(data: map<string, Analysis>)
  {
    forall t: string, d: seq<nat> :: CacheKey(t, d) in data ==> data[CacheKey(t, d)].ticker == t
  }

  /**
   * Serving a ticker's own snapshot keeps every entry with its owner and
   * hands out only that ticker's data, because no two tickers share a key.
   */
  lemma ServeNamesOwner(c: Cache, t: string, d: seq<nat>, clock: int, storeClock: int, computed: Option<Analysis>)
    requires NamesOwners(c.data)
    requires computed.Some? ==> computed.value.ticker == t
    ensures var r := Serve(c, CacheKey(t, d), clock, storeClock, computed);
      NamesOwners(r.1.data) && (r.0.Some? ==> r.0.value.ticker == t)
  {
    var r := Serve(c, CacheKey(t, d), clock, storeClock, computed);
    forall t2: string, d2: seq<nat> | CacheKey(t2, d2) in r.1.data
      ensures r.1.data[CacheKey(t2, d2)].ticker == t2
    {
      if CacheKey(t2, d2) == CacheKey(t, d) {
        CacheKeyInjective(t2, d2, t, d);
      }
    }
  }

  // ---------------------------------------------------------------------
  // The analyzer and the route

  /** The body of `get_options_data`'s `try` block for a market that lists expirations. */
  method ComputeAnalysis(ticker: string, targetDays: seq<int>, m: DemoMarket, now: int, formula: Formula)
    returns (result: Analysis)
    requires m.expirations != []
    ensures Analyze(ticker, targetDays, Some(m), now, formula) == Some(result)
  {
    var price := QuotedPrice(m.price);
    var selected := SelectTargetExpirations(m.expirations, now, targetDays);
    var rate := RiskFreeRate(m.treasuryClose);
    var exps := BuildExpiries(selected, m.chains, now, price, rate, formula);
    result := Analysis(ticker, price, rate, exps);
  }

  class OptionsAnalyzer {
    var dataCache: map<string, Analysis>
    var cacheTimestamp: map<string, int>

    /** No cached snapshot sits under another ticker's key. */
    ghost predicate Valid()
      reads this
    {
      NamesOwners(dataCache)
    }

    /** `OptionsAnalyzer()`: both caches empty. */
    constructor ()
      ensures Valid()
      ensures dataCache == map[] && cacheTimestamp == map[]
    {
      dataCache := map[];
      cacheTimestamp := map[];
    }

    /**
     * `get_options_data(ticker, target_days)`. `clock` is `time.time()` at
     * the freshness test, `storeClock` at the store, `now` is
     * `datetime.now()` for the date arithmetic, and `market` is `None` when
     * the data source raises.
     */
    method GetOptionsData(ticker: string, targetDays: seq<nat>, market: Option<DemoMarket>,
                          clock: int, now: int, storeClock: int, formula: Formula)
      returns (r: Option<Analysis>)
      requires Valid()
      modifies this
      ensures Valid()
      ensures r.Some? ==> r.value.ticker == ticker
      ensures (r, Cache(dataCache, cacheTimestamp))
           == Serve(Cache(old(dataCache), old(cacheTimestamp)), CacheKey(ticker, targetDays), clock, storeClock,
                    Analyze(ticker, targetDays, market, now, formula))
    {
      ServeNamesOwner(Cache(dataCache, cacheTimestamp), ticker, targetDays, clock, storeClock,
                      Analyze(ticker, targetDays, market, now, formula));
      var key := CacheKey(ticker, targetDays);
      if IsFresh(dataCache, cacheTimestamp, key, clock) {
        return Some(dataCache[key]);
      }
      if market.None? || market.value.expirations == [] {
        return None;
      }
      var result := ComputeAnalysis(ticker, targetDays, market.value, now, formula);
      dataCache := dataCache[key := result];
      cacheTimestamp := cacheTimestamp[key := storeClock];
      r := Some(result);
    }

    /**
     * `/api/options` for a JSON list of tickers: an error when the list is
     * empty, else one answer per ticker that is not blank, in its stripped
     * upper-case form. One `clock` reading stands for the cache's clock
     * reads and one `now` for the date reads, for every ticker of the
     * request.
     */
    method GetOptions(tickers: seq<string>, markets: map<string, DemoMarket>, clock: int, now: int, formula: Formula)
      returns (r: Result<map<string, Answer>, string>)
      requires Valid()
      modifies this
      ensures Valid()
      ensures tickers == [] ==> r == Err("No tickers provided")
                                && dataCache == old(dataCache) && cacheTimestamp == old(cacheTimestamp)
      ensures tickers != [] ==>
                var round := ServeAll(Cache(old(dataCache), old(cacheTimestamp)), tickers, markets, clock, now, formula);
                r == Ok(round.answers) && Cache(dataCache, cacheTimestamp) == round.cache
    {
      if tickers == [] {
        return Err("No tickers provided");
      }
      ghost var start := Cache(dataCache, cacheTimestamp);
      var answers: map<string, Answer> := map[];
      var i := 0;
      while i < |tickers|
        invariant 0 <= i <= |tickers|
        invariant Valid()
        invariant Round(answers, Cache(dataCache, cacheTimestamp)) == ServeAll(start, tickers[..i], markets, clock, now, formula)
      {
        ServeAllStep(start, tickers, i, markets, clock, now, formula);
        answers := AnswerTicker(answers, tickers[i], markets, clock, now, formula);
        i := i + 1;
      }
      assert tickers[..i] == tickers;
      r := Ok(answers);
    }

    /** One pass of the route's loop over the tickers. */
    method AnswerTicker(answers: map<string, Answer>, piece: string, markets: map<string, DemoMarket>, clock: int, now: int, formula: Formula)
      returns (next: map<string, Answer>)
      requires Valid()
      modifies this
      ensures Valid()
      ensures Round(next, Cache(dataCache, cacheTimestamp))
           == ServeNext(Round(answers, Cache(old(dataCache), old(cacheTimestamp))), piece, markets, clock, now, formula)
    {
      var t := NormalTicker(piece);
      next := answers;
      if t != [] {
        var data := GetOptionsData(t, DefaultOffsets, MarketOf(markets, t), clock, now, clock, formula);
        next := answers[t := AnswerOf(t, data)];
      }
    }
  }

  /** The route's answer for one ticker: its snapshot, or `{'error': 'No data for T'}`. */
  datatype Answer = Data(analysis: Analysis) | NoData(error: string)

  function AnswerOf(t: string, data: Option<Analysis>): Answer
  {
    match data
    case Some(a) => Data(a)
    case None => NoData("No data for " + t)
  }

  /** A ticker the data source knows nothing about raises, as `None` here. */
  function MarketOf(markets: map<string, DemoMarket>, t: string): Option<DemoMarket>
  {
    if t in markets then Some(markets[t]) else None
  }

  /** The answers of the route so far and the cache they leave. */
  datatype Round = Round(answers: map<string, Answer>, cache: Cache)

  /** The route's loop: each non-blank ticker served in turn, each call on the cache the previous one left. */
  function ServeAll(c: Cache, tickers: seq<string>, markets: map<string, DemoMarket>, clock: int, now: int, formula: Formula): Round
  {
    if tickers == [] then Round(map[], c)
    else ServeNext(ServeAll(c, tickers[..|tickers| - 1], markets, clock, now, formula), tickers[|tickers| - 1], markets, clock, now, formula)
  }

  /** One pass of the loop: a blank piece is skipped, any other asks the analyzer with the default horizons. */
  lemma ServeAllStep(c: Cache, tickers: seq<string>, i: nat, markets: map<string, DemoMarket>, clock: int, now: int, formula: Formula)
    requires i < |tickers|
    ensures ServeAll(c, tickers[..i + 1], markets, clock, now, formula)
         == ServeNext(ServeAll(c, tickers[..i], markets, clock, now, formula), tickers[i], markets, clock, now, formula)
  {
    var s := tickers[..i + 1];
    assert s != [] && s[..|s| - 1] == tickers[..i] && s[|s| - 1] == tickers[i];
  }

  function ServeNext(r: Round, piece: string, markets: map<string, DemoMarket>, clock: int, now: int, formula: Formula): Round
  {
    var t := NormalTicker(piece);
    if t == [] then r
    else
      var s := Serve(r.cache, CacheKey(t, DefaultOffsets), clock, clock, Analyze(t, DefaultOffsets, MarketOf(markets, t), now, formula));
      Round(r.answers[t := AnswerOf(t, s.0)], s.1)
  }

  /** The tickers the route answers for: each non-blank piece, stripped and upper-cased. */
  function NamedTickers(tickers: seq<string>): set<string>
  {
    if tickers == [] then {}
    else
      var p := tickers[|tickers| - 1];
      NamedTickers(tickers[..|tickers| - 1]) + (if IsBlank(p) then {} else {NormalTicker(p)})
  }

  /** A name is answered for exactly when some non-blank piece normalises to it. */
  lemma NamedTickersMembers(tickers: seq<string>)
    ensures forall t :: t in NamedTickers(tickers) <==> exists p :: p in tickers && !IsBlank(p) && t == NormalTicker(p)
  {
    NamedTickersSound(tickers);
    NamedTickersComplete(tickers);
  }

  /** Every answered name comes from some non-blank piece. */
  lemma {:induction false} NamedTickersSound(tickers: seq<string>)
    ensures forall t :: t in NamedTickers(tickers) ==> exists p :: p in tickers && !IsBlank(p) && t == NormalTicker(p)
  {
    if tickers != [] {
      var init := tickers[..|tickers| - 1];
      var last := tickers[|tickers| - 1];
      NamedTickersSound(init);
      SplitLast(tickers);
      forall t | t in NamedTickers(tickers)
        ensures exists p :: p in tickers && !IsBlank(p) && t == NormalTicker(p)
      {
        if t in NamedTickers(init) {
          var p :| p in init && !IsBlank(p) && t == NormalTicker(p);
          assert p in tickers;
        } else {
          assert last in tickers;
        }
      }
    }
  }

  /** Every non-blank piece's name is answered. */
  lemma {:induction false} NamedTickersComplete(tickers: seq<string>)
    ensures forall p :: p in tickers && !IsBlank(p) ==> NormalTicker(p) in NamedTickers(tickers)
  {
    if tickers != [] {
      var init := tickers[..|tickers| - 1];
      NamedTickersComplete(init);
      SplitLast(tickers);
      assert forall q :: q in tickers ==> q in init || q == tickers[|tickers| - 1];
    }
  }

  /** The answers name exactly the non-blank tickers, normalised. */
  lemma {:induction false} ServeAllKeys(c: Cache, tickers: seq<string>, markets: map<string, DemoMarket>, clock: int, now: int, formula: Formula)
    ensures ServeAll(c, tickers, markets, clock, now, formula).answers.Keys == NamedTickers(tickers)
  {
    if tickers != [] {
      var init := tickers[..|tickers| - 1];
      var p := tickers[|tickers| - 1];
      ServeAllKeys(c, init, markets, clock, now, formula);
      ServeAllKeysStep(c, tickers, markets, clock, now, formula);
    }
  }


  lemma ServeAllKeysStep(c: Cache, tickers: seq<string>, markets: map<string, DemoMarket>, clock: int, now: int, formula: Formula)
    requires tickers != []
    ensures var p := tickers[|tickers| - 1];
      ServeAll(c, tickers, markets, clock, now, formula).answers.Keys
      == ServeAll(c, tickers[..|tickers| - 1], markets, clock, now, formula).answers.Keys
         + (if IsBlank(p) then {} else {NormalTicker(p)})
  {
    ServeNextKeys(ServeAll(c, tickers[..|tickers| - 1], markets, clock, now, formula), tickers[|tickers| - 1], markets, clock, now, formula);
  }

  lemma ServeNextKeys(r: Round, piece: string, markets: map<string, DemoMarket>, clock: int, now: int, formula: Formula)
    ensures ServeNext(r, piece, markets, clock, now, formula).answers.Keys
         == r.answers.Keys + (if IsBlank(piece) then {} else {NormalTicker(piece)})
  {
    UpperKeepsSpaces(Strip(piece));
  }

  /**
   * Each answer is the ticker's own snapshot or the error naming it, and
   * the cache keeps naming its owners.
   */
  lemma {:induction false} ServeAllAnswers(c: Cache, tickers: seq<string>, markets: map<string, DemoMarket>, clock: int, now: int, formula: Formula)
    requires NamesOwners(c.data)
    ensures NamesOwners(ServeAll(c, tickers, markets, clock, now, formula).cache.data)
    ensures var answers := ServeAll(c, tickers, markets, clock, now, formula).answers;
      OwnAnswers(answers)
  {
    if tickers != [] {
      ServeAllAnswers(c, tickers[..|tickers| - 1], markets, clock, now, formula);
      ServeNextAnswers(ServeAll(c, tickers[..|tickers| - 1], markets, clock, now, formula), tickers[|tickers| - 1], markets, clock, now, formula);
    }
  }

  /** Each answer is the error naming its ticker or that ticker's own snapshot. */
  predicate OwnAnswers(answers: map<string, Answer>)
  {
    forall t :: t in answers ==> answers[t] == NoData("No data for " + t) || (answers[t].Data? && answers[t].analysis.ticker == t)
  }

  lemma ServeNextAnswers(r: Round, piece: string, markets: map<string, DemoMarket>, clock: int, now: int, formula: Formula)
    requires NamesOwners(r.cache.data) && OwnAnswers(r.answers)
    ensures NamesOwners(ServeNext(r, piece, markets, clock, now, formula).cache.data)
    ensures OwnAnswers(ServeNext(r, piece, markets, clock, now, formula).answers)
  {
    var t := NormalTicker(piece);
    if t != [] {
      var computed := Analyze(t, DefaultOffsets, MarketOf(markets, t), now, formula);
      assert computed.Some? ==> computed.value.ticker == t;
      ServeNamesOwner(r.cache, t, DefaultOffsets, clock, clock, computed);
      var s := Serve(r.cache, CacheKey(t, DefaultOffsets), clock, clock, computed);
      OwnAnswersUpdate(r.answers, t, AnswerOf(t, s.0));
    }
  }

  lemma OwnAnswersUpdate(answers: map<string, Answer>, t: string, a: Answer)
    requires OwnAnswers(answers)
    requires a == NoData("No data for " + t) || (a.Data? && a.analysis.ticker == t)
    ensures OwnAnswers(answers[t := a])
  {
    var next := answers[t := a];
    forall u | u in next
      ensures next[u] == NoData("No data for " + u) || (next[u].Data? && next[u].analysis.ticker == u)
    {
      if u != t {
        assert next[u] == answers[u];
      }
    }
  }
}
