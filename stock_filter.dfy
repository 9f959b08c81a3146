/**
 * The client side of `stock_options_dashboard.py`: `filterOption`, `isATM`,
 * and `applyFilters`, which rebuilds `filteredData` from `allData` ticker by
 * ticker and drops the expirations left without any call or put; plus the
 * page state (`allData`, `filteredData`, `atmOnly`) and the handlers that
 * change it.
 */
module StockFilter {
  import opened Common
  import opened Greeks
  import opened StockDashboard

  /** What `parseFloat`/`parseInt` give for the eight inputs (`None` for NaN, i.e. empty). */
  datatype FilterForm = FilterForm(
    deltaMin: Option<real>, deltaMax: Option<real>,
    minVolume: Option<int>, minOpenInterest: Option<int>,
    minDays: Option<int>, maxDays: Option<int>,
    maxTheta: Option<real>, minVega: Option<real>)

  /** The `filters` object: every bound has a value. */
  datatype Filters = Filters(
    deltaMin: real, deltaMax: real,
    minVolume: int, minOpenInterest: int,
    minDays: int, maxDays: int,
    maxTheta: real, minVega: real)

  const EmptyForm: FilterForm := FilterForm(None, None, None, None, None, None, None, None)

  /** The fallbacks of the `|| default` expressions. */
  const Defaults: Filters := Filters(-1.0, 1.0, 0, 0, 0, 365, 1.0, 0.0)

  /** `parseFloat(...) || d`: NaN and 0 are falsy and give the default. */
  function OrDefault(x: Option<real>, d: real): (r: real)
    ensures x.None? || x.value == 0.0 ==> r == d
    ensures x.Some? && x.value != 0.0 ==> r == x.value
  {
    if x.Some? && x.value != 0.0 then x.value else d
  }

  /** `parseInt(...) || d` */
  function OrDefaultInt(x: Option<int>, d: int): (r: int)
    ensures x.None? || x.value == 0 ==> r == d
    ensures x.Some? && x.value != 0 ==> r == x.value
  {
    if x.Some? && x.value != 0 then x.value else d
  }

  function ReadFilters(form: FilterForm): Filters
  {
    Filters(
      OrDefault(form.deltaMin, Defaults.deltaMin), OrDefault(form.deltaMax, Defaults.deltaMax),
      OrDefaultInt(form.minVolume, Defaults.minVolume), OrDefaultInt(form.minOpenInterest, Defaults.minOpenInterest),
      OrDefaultInt(form.minDays, Defaults.minDays), OrDefaultInt(form.maxDays, Defaults.maxDays),
      OrDefault(form.maxTheta, Defaults.maxTheta), OrDefault(form.minVega, Defaults.minVega))
  }

  /**
   * An empty form, or one whose fields all hold 0, reads as the defaults:
   * delta in [-1, 1], up to 365 days, |theta| at most 1, no volume, open
   * interest or vega floor.
   */
  lemma BlankFormReadsDefaults(form: FilterForm)
    requires form.deltaMin in {None, Some(0.0)} && form.deltaMax in {None, Some(0.0)}
    requires form.minVolume in {None, Some(0)} && form.minOpenInterest in {None, Some(0)}
    requires form.minDays in {None, Some(0)} && form.maxDays in {None, Some(0)}
    requires form.maxTheta in {None, Some(0.0)} && form.minVega in {None, Some(0.0)}
    ensures ReadFilters(form) == Filters(-1.0, 1.0, 0, 0, 0, 365, 1.0, 0.0)
  {
  }

  /** The ATM filter: the strike within 5% of the spot price. */
  predicate NearSpot(strike: real, currentPrice: real)
  {
    AbsReal(strike - currentPrice) <= currentPrice * 0.05
  }

  /** `isATM`, which only highlights rows: the strike within 3% of the spot price. */
  predicate IsAtm(strike: real, currentPrice: real)
  {
    AbsReal(strike - currentPrice) <= currentPrice * 0.03
  }

  /**
   * For a non-negative price every highlighted strike passes the ATM filter;
   * the converse fails at every positive price, for a strike 4% above it.
   */
  lemma HighlightedPassesAtmFilter(strike: real, currentPrice: real)
    requires currentPrice >= 0.0
    ensures IsAtm(strike, currentPrice) ==> NearSpot(strike, currentPrice)
    ensures currentPrice > 0.0 ==> NearSpot(currentPrice * 1.04, currentPrice) && !IsAtm(currentPrice * 1.04, currentPrice)
  {
  }

  /** `filterOption`, each `return false` negated, in the order the code tests them. */
  predicate FilterOption(o: OptionRow, f: Filters, kind: Kind, currentPrice: real, atmOnly: bool)
  {
    && !(o.daysToExpiration < f.minDays || o.daysToExpiration > f.maxDays)
    && !(o.volume < f.minVolume || o.openInterest < f.minOpenInterest)
    && (if kind == Call then !(o.greeks.delta < f.deltaMin || o.greeks.delta > f.deltaMax)
        else !(o.greeks.delta > -f.deltaMin || o.greeks.delta < -f.deltaMax))
    && !(AbsReal(o.greeks.theta) > f.maxTheta)
    && !(o.greeks.vega < f.minVega)
    && (atmOnly ==> NearSpot(o.strike, currentPrice))
  }

  /**
   * What `filterOption` accepts, bound by bound: whole days to expiry within
   * bounds, volume and open interest at least their minimums, a call's delta
   * within [deltaMin, deltaMax] and a put's within [-deltaMax, -deltaMin],
   * |theta| at most the maximum, vega at least the minimum, and with the ATM
   * toggle on a strike within 5% of the spot price.
   */
  lemma FilterOptionBounds(o: OptionRow, f: Filters, kind: Kind, currentPrice: real, atmOnly: bool)
    ensures FilterOption(o, f, kind, currentPrice, atmOnly) <==>
              && f.minDays <= o.daysToExpiration <= f.maxDays
              && o.volume >= f.minVolume && o.openInterest >= f.minOpenInterest
              && (kind == Call ==> f.deltaMin <= o.greeks.delta <= f.deltaMax)
              && (kind == Put ==> -f.deltaMax <= o.greeks.delta <= -f.deltaMin)
              && -f.maxTheta <= o.greeks.theta <= f.maxTheta
              && o.greeks.vega >= f.minVega
              && (atmOnly ==> AbsReal(o.strike - currentPrice) <= 0.05 * currentPrice)
  {
  }

  function NegateDelta(o: OptionRow): OptionRow
  {
    o.(greeks := o.greeks.(delta := -o.greeks.delta))
  }

  /** The put rule mirrors the call rule: a put passes exactly when the call with its delta negated does. */
  lemma PutRuleMirrorsCallRule(o: OptionRow, f: Filters, currentPrice: real, atmOnly: bool)
    ensures FilterOption(o, f, Put, currentPrice, atmOnly) <==> FilterOption(NegateDelta(o), f, Call, currentPrice, atmOnly)
  {
  }

  /** An expiration with its calls and puts filtered (`{...expData, calls, puts}`). */
  function Pruned(e: ExpEntry, f: Filters, currentPrice: real, atmOnly: bool): (p: ExpEntry)
    ensures p.date == e.date && p.data.daysToExpiration == e.data.daysToExpiration
  {
    e.(data := e.data.(
      calls := Filter(e.data.calls, o => FilterOption(o, f, Call, currentPrice, atmOnly)),
      puts := Filter(e.data.puts, o => FilterOption(o, f, Put, currentPrice, atmOnly))))
  }

  /** `filteredCalls.length > 0 || filteredPuts.length > 0` */
  predicate Survives(e: ExpEntry, f: Filters, currentPrice: real, atmOnly: bool)
  {
    var p := Pruned(e, f, currentPrice, atmOnly);
    |p.data.calls| > 0 || |p.data.puts| > 0
  }

  /** The inner `for (const expDate in ...)` loop: surviving expirations, pruned, in order. */
  function FilterEntries(entries: seq<ExpEntry>, f: Filters, currentPrice: real, atmOnly: bool): seq<ExpEntry>
  {
    if entries == [] then []
    else
      var prev := FilterEntries(entries[..|entries| - 1], f, currentPrice, atmOnly);
      var e := entries[|entries| - 1];
      if Survives(e, f, currentPrice, atmOnly) then prev + [Pruned(e, f, currentPrice, atmOnly)] else prev
  }

  /** `{...allData[ticker], expirations: {...}}` */
  function FilterTicker(td: TickerData, f: Filters, atmOnly: bool): TickerData
  {
    td.(expirations := FilterEntries(td.expirations, f, td.currentPrice, atmOnly))
  }

  /** What `applyFilters` leaves in `filteredData`. */
  function FilteredView(all: map<string, TickerData>, f: Filters, atmOnly: bool): map<string, TickerData>
  {
    map t | t in all :: FilterTicker(all[t], f, atmOnly)
  }

  /**
   * A pruned expiration keeps, in order, exactly the calls and the puts of the
   * original that pass `filterOption`.
   */
  lemma PrunedFacts(e: ExpEntry, f: Filters, currentPrice: real, atmOnly: bool)
    ensures var p := Pruned(e, f, currentPrice, atmOnly);
            && IsSubsequence(p.data.calls, e.data.calls)
            && IsSubsequence(p.data.puts, e.data.puts)
            && (forall o :: o in p.data.calls <==> o in e.data.calls && FilterOption(o, f, Call, currentPrice, atmOnly))
            && (forall o :: o in p.data.puts <==> o in e.data.puts && FilterOption(o, f, Put, currentPrice, atmOnly))
  {
    var keepCall := o => FilterOption(o, f, Call, currentPrice, atmOnly);
    var keepPut := o => FilterOption(o, f, Put, currentPrice, atmOnly);
    FilterIsSubsequence(e.data.calls, keepCall);
    FilterIsSubsequence(e.data.puts, keepPut);
    forall o ensures o in Filter(e.data.calls, keepCall) <==> o in e.data.calls && keepCall(o) {
      FilterMembership(e.data.calls, keepCall, o);
    }
    forall o ensures o in Filter(e.data.puts, keepPut) <==> o in e.data.puts && keepPut(o) {
      FilterMembership(e.data.puts, keepPut, o);
    }
  }

  /** `Survives` as the callback of an `Array.filter`. */
  function SurvivesUnder(f: Filters, currentPrice: real, atmOnly: bool): ExpEntry -> bool
  {
    e => Survives(e, f, currentPrice, atmOnly)
  }

  /** Every expiration of a sequence pruned, in order. */
  function PruneAll(entries: seq<ExpEntry>, f: Filters, currentPrice: real, atmOnly: bool): (r: seq<ExpEntry>)
    ensures |r| == |entries|
    ensures forall k :: 0 <= k < |entries| ==> r[k] == Pruned(entries[k], f, currentPrice, atmOnly)
  {
    if entries == [] then [] else PruneAll(entries[..|entries| - 1], f, currentPrice, atmOnly) + [Pruned(entries[|entries| - 1], f, currentPrice, atmOnly)]
  }

  /**
   * An independent account of the loop: the filtered expirations are the
   * surviving ones (an `Array.filter`), each pruned, in their original order.
   */
  lemma {:induction false} FilterEntriesIsPrunedSurvivors(entries: seq<ExpEntry>, f: Filters, currentPrice: real, atmOnly: bool)
    ensures FilterEntries(entries, f, currentPrice, atmOnly)
         == PruneAll(Filter(entries, SurvivesUnder(f, currentPrice, atmOnly)), f, currentPrice, atmOnly)
  {
    var survives := SurvivesUnder(f, currentPrice, atmOnly);
    if entries != [] {
      var init := entries[..|entries| - 1];
      var e := entries[|entries| - 1];
      SplitLast(entries);
      FilterEntriesIsPrunedSurvivors(init, f, currentPrice, atmOnly);
      FilterSnoc(init, e, survives);
      var kept := Filter(init, survives);
      if Survives(e, f, currentPrice, atmOnly) {
        calc {
          FilterEntries(entries, f, currentPrice, atmOnly);
          FilterEntries(init, f, currentPrice, atmOnly) + [Pruned(e, f, currentPrice, atmOnly)];
          PruneAll(kept, f, currentPrice, atmOnly) + [Pruned(e, f, currentPrice, atmOnly)];
          { PruneAllSnoc(kept, e, f, currentPrice, atmOnly); }
          PruneAll(kept + [e], f, currentPrice, atmOnly);
          { assert Filter(entries, survives) == kept + [e]; }
          PruneAll(Filter(entries, survives), f, currentPrice, atmOnly);
        }
      } else {
        calc {
          FilterEntries(entries, f, currentPrice, atmOnly);
          FilterEntries(init, f, currentPrice, atmOnly);
          PruneAll(kept, f, currentPrice, atmOnly);
          { assert Filter(entries, survives) == kept; }
          PruneAll(Filter(entries, survives), f, currentPrice, atmOnly);
        }
      }
    }
  }

  /** The dates shown are the surviving dates, in their original order. */
  lemma FilterEntriesDates(entries: seq<ExpEntry>, f: Filters, currentPrice: real, atmOnly: bool)
    ensures Dates(FilterEntries(entries, f, currentPrice, atmOnly))
         == Dates(Filter(entries, SurvivesUnder(f, currentPrice, atmOnly)))
  {
    FilterEntriesIsPrunedSurvivors(entries, f, currentPrice, atmOnly);
    PrunedDates(Filter(entries, SurvivesUnder(f, currentPrice, atmOnly)), f, currentPrice, atmOnly);
  }

  lemma PruneAllSnoc(kept: seq<ExpEntry>, e: ExpEntry, f: Filters, currentPrice: real, atmOnly: bool)
    ensures PruneAll(kept + [e], f, currentPrice, atmOnly) == PruneAll(kept, f, currentPrice, atmOnly) + [Pruned(e, f, currentPrice, atmOnly)]
  {
    assert (kept + [e])[..|kept|] == kept;
  }

  lemma PrunedDates(entries: seq<ExpEntry>, f: Filters, currentPrice: real, atmOnly: bool)
    ensures Dates(PruneAll(entries, f, currentPrice, atmOnly)) == Dates(entries)
  {
  }

  /**
   * Every expiration shown still has a call or a put and is an original
   * expiration pruned.
   */
  lemma {:induction false} FilterEntriesShown(entries: seq<ExpEntry>, f: Filters, currentPrice: real, atmOnly: bool)
    ensures forall p :: p in FilterEntries(entries, f, currentPrice, atmOnly) ==>
              (|p.data.calls| > 0 || |p.data.puts| > 0)
    ensures forall p :: p in FilterEntries(entries, f, currentPrice, atmOnly) ==>
              exists e :: e in entries && p == Pruned(e, f, currentPrice, atmOnly)
  {
    if entries != [] {
      var init := entries[..|entries| - 1];
      var e := entries[|entries| - 1];
      FilterEntriesShown(init, f, currentPrice, atmOnly);
      var prev := FilterEntries(init, f, currentPrice, atmOnly);
      forall p | p in FilterEntries(entries, f, currentPrice, atmOnly)
        ensures (|p.data.calls| > 0 || |p.data.puts| > 0) && exists x :: x in entries && p == Pruned(x, f, currentPrice, atmOnly)
      {
        if p in prev {
          var x :| x in init && p == Pruned(x, f, currentPrice, atmOnly);
          assert x in entries;
        } else {
          assert p == Pruned(e, f, currentPrice, atmOnly);
        }
      }
    }
  }

  /** An original expiration appears, pruned, exactly when something in it survives. */
  lemma {:induction false} FilterEntriesKeepsSurvivors(entries: seq<ExpEntry>, f: Filters, currentPrice: real, atmOnly: bool, x: ExpEntry)
    requires x in entries
    ensures Pruned(x, f, currentPrice, atmOnly) in FilterEntries(entries, f, currentPrice, atmOnly)
        <==> Survives(x, f, currentPrice, atmOnly)
  {
    var init := entries[..|entries| - 1];
    var e := entries[|entries| - 1];
    var prev := FilterEntries(init, f, currentPrice, atmOnly);
    var px := Pruned(x, f, currentPrice, atmOnly);
    if Survives(x, f, currentPrice, atmOnly) {
      if x != e {
        assert x in init;
        FilterEntriesKeepsSurvivors(init, f, currentPrice, atmOnly, x);
      }
    } else {
      FilterEntriesShown(entries, f, currentPrice, atmOnly);
      assert !(|px.data.calls| > 0 || |px.data.puts| > 0);
    }
  }

  /** Survival is decided by the pruned lists alone. */
  lemma PrunedSurvival(e: ExpEntry, f: Filters, currentPrice: real, atmOnly: bool)
    ensures var p := Pruned(e, f, currentPrice, atmOnly);
            Survives(e, f, currentPrice, atmOnly) <==> |p.data.calls| > 0 || |p.data.puts| > 0
  {
  }

  /** Filtering with the same settings twice gives what filtering once gives. */
  lemma {:induction false} FilterEntriesIdempotent(entries: seq<ExpEntry>, f: Filters, currentPrice: real, atmOnly: bool)
    ensures FilterEntries(FilterEntries(entries, f, currentPrice, atmOnly), f, currentPrice, atmOnly)
         == FilterEntries(entries, f, currentPrice, atmOnly)
  {
    if entries != [] {
      var init := entries[..|entries| - 1];
      var e := entries[|entries| - 1];
      FilterEntriesIdempotent(init, f, currentPrice, atmOnly);
      var prev := FilterEntries(init, f, currentPrice, atmOnly);
      if Survives(e, f, currentPrice, atmOnly) {
        var p := Pruned(e, f, currentPrice, atmOnly);
        PrunedIdempotent(e, f, currentPrice, atmOnly);
        var r := prev + [p];
        assert r[..|r| - 1] == prev && r[|r| - 1] == p;
      }
    }
  }

  lemma PrunedIdempotent(e: ExpEntry, f: Filters, currentPrice: real, atmOnly: bool)
    ensures Pruned(Pruned(e, f, currentPrice, atmOnly), f, currentPrice, atmOnly) == Pruned(e, f, currentPrice, atmOnly)
  {
    var keepCall := o => FilterOption(o, f, Call, currentPrice, atmOnly);
    var keepPut := o => FilterOption(o, f, Put, currentPrice, atmOnly);
    FilterTwice(e.data.calls, keepCall, keepCall, keepCall);
    FilterTwice(e.data.puts, keepPut, keepPut, keepPut);
  }

  /**
   * `applyFilters` keeps every ticker with its price, and re-applying the
   * same settings to the filtered view changes nothing.
   */
  lemma ViewFacts(all: map<string, TickerData>, f: Filters, atmOnly: bool)
    ensures FilteredView(all, f, atmOnly).Keys == all.Keys
    ensures forall t :: t in all ==> (FilteredView(all, f, atmOnly)[t].ticker == all[t].ticker
                                   && FilteredView(all, f, atmOnly)[t].currentPrice == all[t].currentPrice)
    ensures FilteredView(FilteredView(all, f, atmOnly), f, atmOnly) == FilteredView(all, f, atmOnly)
  {
    var v := FilteredView(all, f, atmOnly);
    forall t | t in all ensures FilteredView(v, f, atmOnly)[t] == v[t] {
      FilterEntriesIdempotent(all[t].expirations, f, all[t].currentPrice, atmOnly);
    }
  }

  /**
   * Every option `filteredData` shows passes `filterOption` at its ticker's
   * price, and sits, in order, in the same expiration of `allData`.
   */
  lemma ShownOptionsPass(all: map<string, TickerData>, f: Filters, atmOnly: bool, t: string, p: ExpEntry)
    requires t in all && p in FilteredView(all, f, atmOnly)[t].expirations
    ensures forall o :: o in p.data.calls ==> FilterOption(o, f, Call, all[t].currentPrice, atmOnly)
    ensures forall o :: o in p.data.puts ==> FilterOption(o, f, Put, all[t].currentPrice, atmOnly)
    ensures exists e :: e in all[t].expirations && e.date == p.date
                        && IsSubsequence(p.data.calls, e.data.calls) && IsSubsequence(p.data.puts, e.data.puts)
  {
    var td := all[t];
    FilterEntriesShown(td.expirations, f, td.currentPrice, atmOnly);
    var e :| e in td.expirations && p == Pruned(e, f, td.currentPrice, atmOnly);
    PrunedFacts(e, f, td.currentPrice, atmOnly);
  }

  /**
   * Applying an empty form is not clearing the filters: the defaults still
   * bound |theta| by 1 (and drop what they empty), while `clearFilters`
   * shows `allData` as it is.
   */
  lemma EmptyFormIsNotClearing()
    ensures var row := OptionRow(100.0, 5.0, 4.9, 5.1, 10, 10, 0.3, Greeks(0.5, 0.01, -1.5, 0.2), 30);
            var td := TickerData("T", 100.0, [ExpEntry(20000, ExpData([row], [], 30))]);
            FilteredView(map["T" := td], ReadFilters(EmptyForm), false) != map["T" := td]
  {
    var row := OptionRow(100.0, 5.0, 4.9, 5.1, 10, 10, 0.3, Greeks(0.5, 0.01, -1.5, 0.2), 30);
    var e := ExpEntry(20000, ExpData([row], [], 30));
    var td := TickerData("T", 100.0, [e]);
    var f := ReadFilters(EmptyForm);
    assert !FilterOption(row, f, Call, 100.0, false);
    assert Pruned(e, f, 100.0, false).data.calls == [];
    assert FilterEntries([e], f, 100.0, false) == [];
    assert FilteredView(map["T" := td], f, false)["T"].expirations == [];
  }

  /**
   * What applying an empty form keeps, for every option row: up to 365
   * whole days (none past), delta within [-1, 1] for calls and puts alike,
   * |theta| at most 1, non-negative volume, open interest and vega, and the
   * ATM bound when asked. A row outside these is hidden though the form is
   * empty.
   */
  lemma EmptyFormKeeps(o: OptionRow, kind: Kind, currentPrice: real, atmOnly: bool)
    ensures FilterOption(o, ReadFilters(EmptyForm), kind, currentPrice, atmOnly)
        <==> && 0 <= o.daysToExpiration <= 365
             && o.volume >= 0 && o.openInterest >= 0
             && -1.0 <= o.greeks.delta <= 1.0
             && AbsReal(o.greeks.theta) <= 1.0
             && o.greeks.vega >= 0.0
             && (atmOnly ==> NearSpot(o.strike, currentPrice))
  {
    assert ReadFilters(EmptyForm) == Defaults;
  }

  /** The `for (const ticker in allData)` loop of `applyFilters`, one ticker at a time. */
  method FilterAll(all: map<string, TickerData>, f: Filters, atmOnly: bool) returns (result: map<string, TickerData>)
    ensures result == FilteredView(all, f, atmOnly)
  {
    result := map[];
    var pending := all.Keys;
    while pending != {}
      invariant pending <= all.Keys
      invariant result.Keys == all.Keys - pending
      invariant forall t :: t in result ==> result[t] == FilterTicker(all[t], f, atmOnly)
      decreases pending
    {
      var t :| t in pending;
      var td := all[t];
      var kept := FilterExpirations(td.expirations, f, td.currentPrice, atmOnly);
      result := result[t := td.(expirations := kept)];
      pending := pending - {t};
    }
  }

  /** The page's state: the globals `allData`, `filteredData` and `atmOnly`. */
  class Dashboard {
    var allData: map<string, TickerData>
    var filteredData: map<string, TickerData>
    var atmOnly: bool

    constructor ()
      ensures allData == map[] && filteredData == map[] && !atmOnly
    {
      allData := map[];
      filteredData := map[];
      atmOnly := false;
    }

    /** `loadData` once the response has arrived: `filteredData` is a deep copy of `allData`. */
    method LoadData(fetched: map<string, TickerData>)
      modifies this
      ensures allData == fetched && filteredData == fetched && atmOnly == old(atmOnly)
    {
      allData := fetched;
      filteredData := fetched;
    }

    /**
     * `applyFilters`: rebuilds `filteredData` from `allData` under the form's
     * settings and the ATM toggle; `allData` and the toggle are untouched.
     */
    method ApplyFilters(form: FilterForm)
      modifies this
      ensures allData == old(allData) && atmOnly == old(atmOnly)
      ensures filteredData == FilteredView(allData, ReadFilters(form), atmOnly)
    {
      filteredData := FilterAll(allData, ReadFilters(form), atmOnly);
    }

    /** `toggleATM`: flips the toggle, then re-applies the filters. */
    method ToggleATM(form: FilterForm)
      modifies this
      ensures atmOnly == !old(atmOnly) && allData == old(allData)
      ensures filteredData == FilteredView(allData, ReadFilters(form), atmOnly)
    {
      atmOnly := !atmOnly;
      ApplyFilters(form);
    }

    /** `clearFilters`: empties the form and shows a copy of `allData`. */
    method ClearFilters()
      modifies this
      ensures allData == old(allData) && atmOnly == old(atmOnly) && filteredData == allData
    {
      filteredData := allData;
    }
  }

  /** One ticker's `for (const expDate in ...)` loop. */
  method FilterExpirations(entries: seq<ExpEntry>, f: Filters, currentPrice: real, atmOnly: bool) returns (kept: seq<ExpEntry>)
    ensures kept == FilterEntries(entries, f, currentPrice, atmOnly)
  {
    kept := [];
    var i := 0;
    while i < |entries|
      invariant 0 <= i <= |entries|
      invariant kept == FilterEntries(entries[..i], f, currentPrice, atmOnly)
    {
      assert entries[..i + 1][..i] == entries[..i];
      var e := entries[i];
      var calls := Filter(e.data.calls, o => FilterOption(o, f, Call, currentPrice, atmOnly));
      var puts := Filter(e.data.puts, o => FilterOption(o, f, Put, currentPrice, atmOnly));
      if |calls| > 0 || |puts| > 0 {
        kept := kept + [e.(data := e.data.(calls := calls, puts := puts))];
      }
      i := i + 1;
    }
    assert entries[..i] == entries;
  }
}
