/**
 * Expiration selection, shared by the three dashboards: for each target
 * horizon, in order, the listed expiration nearest to `now + offset` (the
 * first one in list order on ties), appended only when it is not already
 * selected. The variants differ only in how they measure "nearest", so the
 * distance is a parameter here and each dashboard module supplies its own.
 *
 * Dates are day numbers (days since 1970-01-01 of the `'YYYY-MM-DD'` string);
 * instants are whole seconds on the same naive local clock, so a date's
 * midnight is `day * SecondsPerDay`.
 */
module Expirations {
  import opened Common

  type Day = int

  const SecondsPerDay: int := 86400

  /** `now + timedelta(days=offset)` */
  function TargetInstant(now: int, offset: int): (t: int)
    ensures t - now == offset * SecondsPerDay
  {
    now + offset * SecondsPerDay
  }

  /** `get_target_dates` / `get_target_expiration_dates`: one target instant per offset, in order. */
  function TargetInstants(now: int, offsets: seq<int>): (ts: seq<int>)
    ensures |ts| == |offsets|
    ensures forall k :: 0 <= k < |offsets| ==> ts[k] == TargetInstant(now, offsets[k])
  {
    if offsets == [] then [] else [TargetInstant(now, offsets[0])] + TargetInstants(now, offsets[1..])
  }

  /**
   * `(exp - now).days` for a `timedelta`: the whole days from `now` to the
   * expiration's midnight, rounded down.
   */
  function DaysUntil(exp: Day, now: int): (days: int)
    ensures days * SecondsPerDay <= exp * SecondsPerDay - now < (days + 1) * SecondsPerDay
  {
    (exp * SecondsPerDay - now) / SecondsPerDay
  }

  /** The canonical horizons, in days. */
  const DefaultOffsets: seq<nat> := [90, 120, 150]

  /**
   * Python's `min(dates, key=dist)`: the position of a date with the least
   * distance; on ties the earliest such position, because `min` replaces its
   * candidate only on a strictly smaller key.
   */
  function FirstNearestIndex(dates: seq<Day>, dist: Day -> int): (k: nat)
    requires |dates| > 0
    ensures k < |dates|
    ensures forall j :: 0 <= j < |dates| ==> dist(dates[k]) <= dist(dates[j])
    ensures forall j :: 0 <= j < k ==> dist(dates[j]) > dist(dates[k])
    decreases |dates|
  {
    if |dates| == 1 then 0
    else
      var k := FirstNearestIndex(dates[..|dates| - 1], dist);
      if dist(dates[|dates| - 1]) < dist(dates[k]) then |dates| - 1 else k
  }

  /** Position `i` holds a nearest date and no earlier position is as near. */
  predicate IsFirstNearestAt(dates: seq<Day>, dist: Day -> int, i: int)
  {
    && 0 <= i < |dates|
    && (forall j :: 0 <= j < |dates| ==> dist(dates[i]) <= dist(dates[j]))
    && (forall j :: 0 <= j < i ==> dist(dates[j]) > dist(dates[i]))
  }

  /** There is exactly one first-nearest position: the one `min` returns. */
  lemma FirstNearestUnique(dates: seq<Day>, dist: Day -> int, i: int)
    requires IsFirstNearestAt(dates, dist, i)
    ensures i == FirstNearestIndex(dates, dist)
  {
    var k := FirstNearestIndex(dates, dist);
    assert !(dist(dates[i]) > dist(dates[k]));
    assert !(dist(dates[k]) > dist(dates[i]));
  }

  /** `find_closest_expiration`: `None` on an empty list, else the first nearest date. */
  function Nearest(dates: seq<Day>, dist: Day -> int): (r: Option<Day>)
    ensures r.None? <==> |dates| == 0
    ensures r.Some? ==> r.value in dates
    ensures r.Some? ==> forall d :: d in dates ==> dist(r.value) <= dist(d)
    ensures r.Some? ==> forall j :: 0 <= j < FirstIndex(dates, r.value) ==> dist(dates[j]) > dist(r.value)
    ensures r.Some? ==> IsFirstNearestAt(dates, dist, FirstIndex(dates, r.value))
  {
    if |dates| == 0 then None
    else
      var k := FirstNearestIndex(dates, dist);
      assert FirstIndex(dates, dates[k]) <= k;
      Some(dates[k])
  }

  lemma NearestAtFirstNearestIndex(dates: seq<Day>, dist: Day -> int)
    requires |dates| > 0
    ensures Nearest(dates, dist) == Some(dates[FirstNearestIndex(dates, dist)])
  {
  }

  /**
   * Two distances that order every pair of dates alike pick the same
   * position (so scaling a distance by a positive constant changes nothing).
   */
  lemma {:induction false} NearestIndexRespectsOrder(dates: seq<Day>, d1: Day -> int, d2: Day -> int)
    requires |dates| > 0
    requires forall a, b :: d1(a) < d1(b) <==> d2(a) < d2(b)
    ensures FirstNearestIndex(dates, d1) == FirstNearestIndex(dates, d2)
    decreases |dates|
  {
    if |dates| > 1 {
      NearestIndexRespectsOrder(dates[..|dates| - 1], d1, d2);
    }
  }

  /** The target's pick, for each target in order. */
  function Picks(targets: seq<int>, nearest: int -> Option<Day>): (p: seq<Option<Day>>)
    ensures |p| == |targets|
    ensures forall k :: 0 <= k < |targets| ==> p[k] == nearest(targets[k])
  {
    if targets == [] then [] else Picks(targets[..|targets| - 1], nearest) + [nearest(targets[|targets| - 1])]
  }

  /**
   * The selection the loop builds from the picks: each picked date once, at
   * the place of its first pick (`if closest and closest not in selected`).
   */
  function Collect(picks: seq<Option<Day>>): seq<Day>
  {
    if picks == [] then []
    else
      var prev := Collect(picks[..|picks| - 1]);
      match picks[|picks| - 1]
      case None => prev
      case Some(d) => if d in prev then prev else prev + [d]
  }

  /** The selection holds no date twice, holds exactly the picked dates, and is no longer than the picks. */
  lemma {:induction false} CollectFacts(picks: seq<Option<Day>>)
    ensures NoDuplicates(Collect(picks))
    ensures forall d :: d in Collect(picks) <==> Some(d) in picks
    ensures |Collect(picks)| <= |picks|
  {
    if picks != [] {
      var init := picks[..|picks| - 1];
      var last := picks[|picks| - 1];
      CollectFacts(init);
      SplitLast(picks);
      forall d ensures Some(d) in picks <==> Some(d) in init || last == Some(d) {
      }
    }
  }

  /** Every date of `sel` was picked, and `sel` lists dates by the position of their first pick. */
  predicate PickOrdered(picks: seq<Option<Day>>, sel: seq<Day>)
  {
    && (forall i :: 0 <= i < |sel| ==> Some(sel[i]) in picks)
    && (forall i, j :: 0 <= i < j < |sel| ==> FirstIndex(picks, Some(sel[i])) < FirstIndex(picks, Some(sel[j])))
  }

  /** The selection orders dates by the position of their first pick. */
  lemma {:induction false} CollectKeepsPickOrder(picks: seq<Option<Day>>)
    ensures PickOrdered(picks, Collect(picks))
  {
    if picks != [] {
      var init := picks[..|picks| - 1];
      SplitLast(picks);
      CollectKeepsPickOrder(init);
      CollectOrderStep(init, picks[|picks| - 1]);
    }
  }

  lemma CollectOrderStep(init: seq<Option<Day>>, last: Option<Day>)
    requires PickOrdered(init, Collect(init))
    ensures PickOrdered(init + [last], Collect(init + [last]))
  {
    CollectSnoc(init, last);
    if last.Some? && last.value !in Collect(init) {
      CollectOrderAppend(init, last.value);
    } else {
      OrderUnderExtension(init, last, Collect(init));
    }
  }

  lemma CollectSnoc(init: seq<Option<Day>>, last: Option<Day>)
    ensures Collect(init + [last])
         == if last.Some? && last.value !in Collect(init) then Collect(init) + [last.value] else Collect(init)
  {
    var picks := init + [last];
    assert picks[..|picks| - 1] == init;
  }

  /** First-pick positions in `init` stay the same once another pick follows. */
  lemma OrderUnderExtension(init: seq<Option<Day>>, last: Option<Day>, sel: seq<Day>)
    requires PickOrdered(init, sel)
    ensures PickOrdered(init + [last], sel)
  {
    var picks := init + [last];
    forall x | x in init ensures x in picks && FirstIndex(picks, x) == FirstIndex(init, x) {
      FirstIndexOfExtension(init, last, x);
    }
  }

  lemma CollectOrderAppend(init: seq<Option<Day>>, v: Day)
    requires PickOrdered(init, Collect(init))
    requires v !in Collect(init)
    ensures PickOrdered(init + [Some(v)], Collect(init) + [v])
  {
    var picks := init + [Some(v)];
    var prev := Collect(init);
    var cur := prev + [v];
    CollectFacts(init);
    OrderUnderExtension(init, Some(v), prev);
    assert FirstIndex(picks, Some(v)) == |init| by {
      forall k | 0 <= k < |init| ensures picks[k] != Some(v) { assert picks[k] == init[k]; }
    }
    forall i | 0 <= i < |cur| ensures Some(cur[i]) in picks {
      if i < |prev| { assert cur[i] == prev[i]; } else { assert picks[|init|] == Some(v); }
    }
    forall i, j | 0 <= i < j < |cur| ensures FirstIndex(picks, Some(cur[i])) < FirstIndex(picks, Some(cur[j])) {
      assert cur[i] == prev[i];
      if j < |prev| {
        assert cur[j] == prev[j];
      }
    }
  }

  /**
   * The loop of `get_options_data` / `fetch_options_data`: the target
   * instants in order, each one's pick appended when it is a date not yet
   * selected.
   */
  method SelectExpirations(targets: seq<int>, nearest: int -> Option<Day>) returns (selected: seq<Day>)
    ensures selected == Collect(Picks(targets, nearest))
  {
    selected := [];
    var i := 0;
    while i < |targets|
      invariant 0 <= i <= |targets|
      invariant selected == Collect(Picks(targets[..i], nearest))
    {
      CollectStep(targets, i, nearest);
      var closest := nearest(targets[i]);
      if closest.Some? && closest.value !in selected {
        selected := selected + [closest.value];
      }
      i := i + 1;
    }
    assert targets[..i] == targets;
  }

  /** One more target: its pick is appended when it is a date not yet selected. */
  lemma CollectStep(targets: seq<int>, i: nat, nearest: int -> Option<Day>)
    requires i < |targets|
    ensures var prev := Collect(Picks(targets[..i], nearest));
      var c := nearest(targets[i]);
      Collect(Picks(targets[..i + 1], nearest)) == if c.Some? && c.value !in prev then prev + [c.value] else prev
  {
    assert targets[..i + 1][..i] == targets[..i];
    CollectSnoc(Picks(targets[..i], nearest), nearest(targets[i]));
  }

  /**
   * What the selection promises when every pick is a listed date and some
   * date is picked whenever dates are listed: no duplicates, only listed
   * dates, at most one per target, at least one when something is listed,
   * and every target's pick present.
   */
  lemma SelectionFacts(available: seq<Day>, targets: seq<int>, nearest: int -> Option<Day>)
    requires forall t :: nearest(t).None? || nearest(t).value in available
    requires forall t :: nearest(t).Some? <==> |available| > 0
    ensures var sel := Collect(Picks(targets, nearest));
      && NoDuplicates(sel)
      && (forall d :: d in sel ==> d in available)
      && |sel| <= |targets|
      && (|available| > 0 && |targets| > 0 ==> |sel| >= 1)
      && (forall k :: 0 <= k < |targets| && nearest(targets[k]).Some? ==> nearest(targets[k]).value in sel)
  {
    var picks := Picks(targets, nearest);
    CollectFacts(picks);
    forall d | d in Collect(picks) ensures d in available {
      var k :| 0 <= k < |picks| && picks[k] == Some(d);
      PickInAvailable(available, nearest, targets[k]);
      assert nearest(targets[k]) == Some(d);
    }
    forall k | 0 <= k < |targets| && nearest(targets[k]).Some? ensures nearest(targets[k]).value in Collect(picks) {
      assert picks[k] == Some(nearest(targets[k]).value);
      CollectHas(picks, nearest(targets[k]).value);
    }
    if |available| > 0 && |targets| > 0 {
      var t0 := targets[0];
      assert nearest(t0).Some?;
      assert nearest(targets[0]).value in Collect(picks);
    }
  }

  lemma PickInAvailable(available: seq<Day>, nearest: int -> Option<Day>, t: int)
    requires forall t :: nearest(t).None? || nearest(t).value in available
    ensures nearest(t).None? || nearest(t).value in available
  {
  }

  lemma CollectHas(picks: seq<Option<Day>>, d: Day)
    requires Some(d) in picks
    ensures d in Collect(picks)
  {
    CollectFacts(picks);
  }
}
