/**
 * The client-side `applyFilters` of `options_dashboard.py`: a predicate over
 * the flat rows the route returns, applied with `Array.filter`. Bounds are
 * inclusive; delta bounds are compared with `|delta|`; a field that is empty,
 * unparsable or 0 becomes `null` through `|| null` and imposes nothing.
 */
module OptionsFilter {
  import opened Common
  import opened Greeks
  import opened OptionsDashboard

  /** The `optionType` select: `'both'`, `'calls'` or `'puts'`. */
  datatype TypeChoice = Both | Calls | Puts

  /**
   * The filter settings. Read from the form, each numeric field holds what
   * `parseFloat`/`parseInt` gives (`None` for NaN); once read, `None` is `null`.
   */
  datatype Filters = Filters(
    deltaMin: Option<real>, deltaMax: Option<real>,
    gammaMin: Option<real>, gammaMax: Option<real>,
    thetaMin: Option<real>, thetaMax: Option<real>,
    vegaMin: Option<real>, vegaMax: Option<real>,
    daysMin: Option<int>, daysMax: Option<int>,
    ivMin: Option<real>, ivMax: Option<real>,
    volumeMin: Option<int>,
    atmOnly: bool, optionType: TypeChoice)

  /** `parseFloat(...) || null`: NaN and 0 are falsy and become `null`. */
  function OrNull(x: Option<real>): (r: Option<real>)
    ensures r.None? <==> x.None? || x.value == 0.0
    ensures r.Some? ==> r == x
  {
    if x.Some? && x.value != 0.0 then x else None
  }

  /** `parseInt(...) || null` */
  function OrNullInt(x: Option<int>): (r: Option<int>)
    ensures r.None? <==> x.None? || x.value == 0
    ensures r.Some? ==> r == x
  {
    if x.Some? && x.value != 0 then x else None
  }

  /** The `filters` object built from the form. */
  function ReadFilters(form: Filters): Filters
  {
    Filters(
      OrNull(form.deltaMin), OrNull(form.deltaMax),
      OrNull(form.gammaMin), OrNull(form.gammaMax),
      OrNull(form.thetaMin), OrNull(form.thetaMax),
      OrNull(form.vegaMin), OrNull(form.vegaMax),
      OrNullInt(form.daysMin), OrNullInt(form.daysMax),
      OrNull(form.ivMin), OrNull(form.ivMax),
      OrNullInt(form.volumeMin),
      form.atmOnly, form.optionType)
  }

  /** `Math.abs(strike - current_price) <= current_price * 0.05` */
  predicate NearSpot(o: FlatOption)
  {
    AbsReal(o.strike - o.currentPrice) <= o.currentPrice * 0.05
  }

  /** The `allData.filter` callback: every early `return false` negated, in order. */
  predicate Keep(f: Filters, o: FlatOption)
  {
    && (f.deltaMin.Some? ==> AbsReal(o.greeks.delta) >= f.deltaMin.value)
    && (f.deltaMax.Some? ==> AbsReal(o.greeks.delta) <= f.deltaMax.value)
    && (f.gammaMin.Some? ==> o.greeks.gamma >= f.gammaMin.value)
    && (f.gammaMax.Some? ==> o.greeks.gamma <= f.gammaMax.value)
    && (f.thetaMin.Some? ==> o.greeks.theta >= f.thetaMin.value)
    && (f.thetaMax.Some? ==> o.greeks.theta <= f.thetaMax.value)
    && (f.vegaMin.Some? ==> o.greeks.vega >= f.vegaMin.value)
    && (f.vegaMax.Some? ==> o.greeks.vega <= f.vegaMax.value)
    && (f.daysMin.Some? ==> o.daysToExp >= f.daysMin.value)
    && (f.daysMax.Some? ==> o.daysToExp <= f.daysMax.value)
    && (f.ivMin.Some? ==> o.impliedVolatility >= f.ivMin.value)
    && (f.ivMax.Some? ==> o.impliedVolatility <= f.ivMax.value)
    && (f.volumeMin.Some? ==> o.volume >= f.volumeMin.value)
    && (f.atmOnly ==> NearSpot(o))
    && (f.optionType == Calls ==> o.kind == Call)
    && (f.optionType == Puts ==> o.kind == Put)
  }

  /**
   * `applyFilters`: nothing is redisplayed while no data is loaded;
   * otherwise the loaded rows the callback keeps.
   */
  function ApplyFilters(allData: seq<FlatOption>, form: Filters): (r: Option<seq<FlatOption>>)
    ensures r.None? <==> allData == []
    ensures r.Some? ==> |r.value| <= |allData|
  {
    if allData == [] then None
    else
      var f := ReadFilters(form);
      Some(Filter(allData, o => Keep(f, o)))
  }

  /**
   * The filtered rows keep their relative order, and a row is kept exactly
   * when it was loaded and passes the callback.
   */
  lemma FilterPreservesOrder(allData: seq<FlatOption>, form: Filters)
    requires allData != []
    ensures IsSubsequence(ApplyFilters(allData, form).value, allData)
    ensures forall o :: o in ApplyFilters(allData, form).value <==> o in allData && Keep(ReadFilters(form), o)
  {
    var f := ReadFilters(form);
    FilterIsSubsequence(allData, o => Keep(f, o));
    forall o ensures o in ApplyFilters(allData, form).value <==> o in allData && Keep(f, o) {
      FilterMembership(allData, o => Keep(f, o), o);
    }
  }

  /**
   * Every kept row meets each bound entered as a number other than 0,
   * inclusively, with delta bounds against `|delta|`.
   */
  lemma KeptMeetsEnteredBounds(allData: seq<FlatOption>, form: Filters, o: FlatOption)
    requires allData != [] && o in ApplyFilters(allData, form).value
    ensures form.deltaMin.Some? && form.deltaMin.value != 0.0 ==> form.deltaMin.value <= AbsReal(o.greeks.delta)
    ensures form.deltaMax.Some? && form.deltaMax.value != 0.0 ==> AbsReal(o.greeks.delta) <= form.deltaMax.value
    ensures form.gammaMin.Some? && form.gammaMin.value != 0.0 ==> form.gammaMin.value <= o.greeks.gamma
    ensures form.gammaMax.Some? && form.gammaMax.value != 0.0 ==> o.greeks.gamma <= form.gammaMax.value
    ensures form.thetaMin.Some? && form.thetaMin.value != 0.0 ==> form.thetaMin.value <= o.greeks.theta
    ensures form.thetaMax.Some? && form.thetaMax.value != 0.0 ==> o.greeks.theta <= form.thetaMax.value
    ensures form.vegaMin.Some? && form.vegaMin.value != 0.0 ==> form.vegaMin.value <= o.greeks.vega
    ensures form.vegaMax.Some? && form.vegaMax.value != 0.0 ==> o.greeks.vega <= form.vegaMax.value
    ensures form.daysMin.Some? && form.daysMin.value != 0 ==> form.daysMin.value <= o.daysToExp
    ensures form.daysMax.Some? && form.daysMax.value != 0 ==> o.daysToExp <= form.daysMax.value
    ensures form.ivMin.Some? && form.ivMin.value != 0.0 ==> form.ivMin.value <= o.impliedVolatility
    ensures form.ivMax.Some? && form.ivMax.value != 0.0 ==> o.impliedVolatility <= form.ivMax.value
    ensures form.volumeMin.Some? && form.volumeMin.value != 0 ==> form.volumeMin.value <= o.volume
    ensures form.atmOnly ==> NearSpot(o)
    ensures form.optionType == Calls ==> o.kind == Call
    ensures form.optionType == Puts ==> o.kind == Put
  {
    FilterPreservesOrder(allData, form);
  }

  /** No bound, no ATM restriction and both types: the callback keeps everything. */
  predicate Unrestricted(f: Filters)
  {
    && f.deltaMin.None? && f.deltaMax.None? && f.gammaMin.None? && f.gammaMax.None?
    && f.thetaMin.None? && f.thetaMax.None? && f.vegaMin.None? && f.vegaMax.None?
    && f.daysMin.None? && f.daysMax.None? && f.ivMin.None? && f.ivMax.None? && f.volumeMin.None?
    && !f.atmOnly && f.optionType == Both
  }

  /** Unrestricted settings give back the loaded rows unchanged. */
  lemma UnrestrictedIsIdentity(allData: seq<FlatOption>, form: Filters)
    requires allData != [] && Unrestricted(ReadFilters(form))
    ensures ApplyFilters(allData, form) == Some(allData)
  {
    var f := ReadFilters(form);
    FilterAcceptAll(allData, o => Keep(f, o));
  }

  /** A delta or gamma bound entered as 0 filters exactly as an empty field does. */
  lemma ZeroDeltaGammaIsEmpty(allData: seq<FlatOption>, form: Filters)
    ensures form.deltaMin == Some(0.0) ==> ApplyFilters(allData, form) == ApplyFilters(allData, form.(deltaMin := None))
    ensures form.deltaMax == Some(0.0) ==> ApplyFilters(allData, form) == ApplyFilters(allData, form.(deltaMax := None))
    ensures form.gammaMin == Some(0.0) ==> ApplyFilters(allData, form) == ApplyFilters(allData, form.(gammaMin := None))
    ensures form.gammaMax == Some(0.0) ==> ApplyFilters(allData, form) == ApplyFilters(allData, form.(gammaMax := None))
  {
    if form.deltaMin == Some(0.0) { SameReadingSameResult(allData, form, form.(deltaMin := None)); }
    if form.deltaMax == Some(0.0) { SameReadingSameResult(allData, form, form.(deltaMax := None)); }
    if form.gammaMin == Some(0.0) { SameReadingSameResult(allData, form, form.(gammaMin := None)); }
    if form.gammaMax == Some(0.0) { SameReadingSameResult(allData, form, form.(gammaMax := None)); }
  }

  /** A theta or vega bound entered as 0 filters exactly as an empty field does. */
  lemma ZeroThetaVegaIsEmpty(allData: seq<FlatOption>, form: Filters)
    ensures form.thetaMin == Some(0.0) ==> ApplyFilters(allData, form) == ApplyFilters(allData, form.(thetaMin := None))
    ensures form.thetaMax == Some(0.0) ==> ApplyFilters(allData, form) == ApplyFilters(allData, form.(thetaMax := None))
    ensures form.vegaMin == Some(0.0) ==> ApplyFilters(allData, form) == ApplyFilters(allData, form.(vegaMin := None))
    ensures form.vegaMax == Some(0.0) ==> ApplyFilters(allData, form) == ApplyFilters(allData, form.(vegaMax := None))
  {
    if form.thetaMin == Some(0.0) { SameReadingSameResult(allData, form, form.(thetaMin := None)); }
    if form.thetaMax == Some(0.0) { SameReadingSameResult(allData, form, form.(thetaMax := None)); }
    if form.vegaMin == Some(0.0) { SameReadingSameResult(allData, form, form.(vegaMin := None)); }
    if form.vegaMax == Some(0.0) { SameReadingSameResult(allData, form, form.(vegaMax := None)); }
  }

  /** A days, volatility or volume bound entered as 0 filters exactly as an empty field does. */
  lemma ZeroDaysIvVolumeIsEmpty(allData: seq<FlatOption>, form: Filters)
    ensures form.daysMin == Some(0) ==> ApplyFilters(allData, form) == ApplyFilters(allData, form.(daysMin := None))
    ensures form.daysMax == Some(0) ==> ApplyFilters(allData, form) == ApplyFilters(allData, form.(daysMax := None))
    ensures form.ivMin == Some(0.0) ==> ApplyFilters(allData, form) == ApplyFilters(allData, form.(ivMin := None))
    ensures form.ivMax == Some(0.0) ==> ApplyFilters(allData, form) == ApplyFilters(allData, form.(ivMax := None))
    ensures form.volumeMin == Some(0) ==> ApplyFilters(allData, form) == ApplyFilters(allData, form.(volumeMin := None))
  {
    if form.daysMin == Some(0) { SameReadingSameResult(allData, form, form.(daysMin := None)); }
    if form.daysMax == Some(0) { SameReadingSameResult(allData, form, form.(daysMax := None)); }
    if form.ivMin == Some(0.0) { SameReadingSameResult(allData, form, form.(ivMin := None)); }
    if form.ivMax == Some(0.0) { SameReadingSameResult(allData, form, form.(ivMax := None)); }
    if form.volumeMin == Some(0) { SameReadingSameResult(allData, form, form.(volumeMin := None)); }
  }

  /** Reading an already read form changes nothing. */
  lemma ReadingTwiceIsReadingOnce(allData: seq<FlatOption>, form: Filters)
    ensures ApplyFilters(allData, ReadFilters(form)) == ApplyFilters(allData, form)
  {
    SameReadingSameResult(allData, form, ReadFilters(form));
  }

  lemma SameReadingSameResult(allData: seq<FlatOption>, a: Filters, b: Filters)
    requires ReadFilters(a) == ReadFilters(b)
    ensures ApplyFilters(allData, a) == ApplyFilters(allData, b)
  {
  }

  /** The same contract seen from the other side: type flipped and delta negated. */
  function Mirror(o: FlatOption): FlatOption
  {
    o.(kind := if o.kind == Call then Put else Call, greeks := o.greeks.(delta := -o.greeks.delta))
  }

  /**
   * Delta bounds look only at `|delta|`: with both types shown, a call and a
   * put whose deltas are opposite and otherwise alike pass or fail together.
   */
  lemma DeltaBoundsIgnoreSign(f: Filters, o: FlatOption)
    requires f.optionType == Both
    ensures Keep(f, o) <==> Keep(f, Mirror(o))
  {
    assert AbsReal(Mirror(o).greeks.delta) == AbsReal(o.greeks.delta);
  }

  /**
   * With no bound set, the ATM box keeps exactly the rows whose strike is
   * within 5% of the spot price, and the type choice keeps exactly the
   * matching rows.
   */
  lemma AtmAndTypeSelection(allData: seq<FlatOption>, form: Filters, o: FlatOption)
    requires allData != []
    requires Unrestricted(ReadFilters(form).(atmOnly := false, optionType := Both))
    ensures o in ApplyFilters(allData, form).value <==>
              && o in allData
              && (form.atmOnly ==> AbsReal(o.strike - o.currentPrice) <= 0.05 * o.currentPrice)
              && (form.optionType == Calls ==> o.kind == Call)
              && (form.optionType == Puts ==> o.kind == Put)
  {
    FilterPreservesOrder(allData, form);
  }
}
