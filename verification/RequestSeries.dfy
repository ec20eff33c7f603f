/**
 The dashboard's request counts: a series of deltas per app, and the recent total
 it should add up to.
 */
module RequestSeries {
  import opened Prelude

  datatype Venue = Pmus | Kalshi

  /** A broker sample, reduced to the requests served per venue and caller; absent when unknown. */
  datatype Shot = Shot(instance: string, served: map<(Venue, string), int>)

  /** The known values of the selected callers; nothing if none is known. */
  function VenueTotal(s: Shot, v: Venue, callers: seq<string>): Option<int> {
    if callers == [] then None
    else
      var rest, last := VenueTotal(s, v, callers[..|callers| - 1]), (v, callers[|callers| - 1]);
      if last !in s.served then rest
      else Some(s.served[last] + if rest.Some? then rest.value else 0)
  }

  function RequestTotal(s: Shot, callers: seq<string>): Option<int> {
    var a, b := VenueTotal(s, Pmus, callers), VenueTotal(s, Kalshi, callers);
    if a.None? then b else if b.None? then a else Some(a.value + b.value)
  }

  /** Unknown when either side is unknown or the counter fell. */
  function Delta(current: Option<int>, earlier: Option<int>): Option<int> {
    if current.None? || earlier.None? || current.value < earlier.value then None
    else Some(current.value - earlier.value)
  }

  /** Only samples of the broker instance that is running now are compared. */
  function SameInstance(history: seq<Shot>, instance: string): seq<Shot> {
    if history == [] then []
    else
      var rest, last := SameInstance(history[..|history| - 1], instance), history[|history| - 1];
      if last.instance == instance then rest + [last] else rest
  }

  function Known(d: Option<int>): int { if d.Some? then d.value else 0 }

  function SumKnown(series: seq<Option<int>>): int {
    if series == [] then 0 else SumKnown(series[..|series| - 1]) + Known(series[|series| - 1])
  }

  /** The requests since the first sample, venue by venue; unknown venues add nothing. */
  function Recent(first: Shot, latest: Shot, callers: seq<string>): int {
    Known(Delta(VenueTotal(latest, Pmus, callers), VenueTotal(first, Pmus, callers)))
    + Known(Delta(VenueTotal(latest, Kalshi, callers), VenueTotal(first, Kalshi, callers)))
  }

  // ---------------------------------------------------------------- totals add up

  /** Two totals taken together; one that is unknown counts for nothing. */
  function Together(a: Option<int>, b: Option<int>): Option<int> {
    if a.None? then b else if b.None? then a else Some(a.value + b.value)
  }

  /** The total of a list of callers is that of its parts taken together, down to the single row. */
  lemma {:induction false} TotalsAdd(s: Shot, v: Venue, a: seq<string>, b: seq<string>)
    ensures VenueTotal(s, v, a + b) == Together(VenueTotal(s, v, a), VenueTotal(s, v, b))
    decreases |b|
  {
    if b == [] {
      assert a + b == a;
    } else {
      assert (a + b)[..|a + b| - 1] == a + b[..|b| - 1];
      TotalsAdd(s, v, a, b[..|b| - 1]);
    }
  }

  lemma SingleTotal(s: Shot, v: Venue, caller: string)
    ensures VenueTotal(s, v, [caller]) == if (v, caller) in s.served then Some(s.served[(v, caller)]) else None
  {
    assert [caller][..0] == [];
  }

  /** The samples kept are those of the instance, in their order. */
  lemma {:induction false} KeepsInstance(a: seq<Shot>, x: Shot, b: seq<Shot>, instance: string)
    ensures SameInstance(a + [x] + b, instance)
            == SameInstance(a, instance) + (if x.instance == instance then [x] else []) + SameInstance(b, instance)
    decreases |b|
  {
    var all := a + [x] + b;
    if b == [] {
      assert all[..|all| - 1] == a;
    } else {
      assert all[..|all| - 1] == a + [x] + b[..|b| - 1];
      KeepsInstance(a, x, b[..|b| - 1], instance);
    }
  }

  // ---------------------------------------------------------------- the loops

  method VenueTotalOf(s: Shot, v: Venue, callers: seq<string>) returns (total: Option<int>)
    ensures total == VenueTotal(s, v, callers)
  {
    total := None;
    for i := 0 to |callers|
      invariant total == VenueTotal(s, v, callers[..i])
    {
      assert callers[..i + 1][..i] == callers[..i];
      if (v, callers[i]) in s.served {
        total := Some(s.served[(v, callers[i])] + if total.Some? then total.value else 0);
      }
    }
    assert callers[..|callers|] == callers;
  }

  /** The requests between each sample and the next; unknown where a counter is missing or fell. */
  method Series(samples: seq<Shot>, callers: seq<string>) returns (series: seq<Option<int>>)
    ensures IsSeries(series, samples, callers)
  {
    series := [];
    var i := 1;
    while i < |samples|
      invariant 1 <= i && |series| == Max(0, (if i <= |samples| then i else |samples|) - 1)
      invariant forall j :: 0 <= j < |series| ==>
                  series[j] == Delta(RequestTotal(samples[j + 1], callers), RequestTotal(samples[j], callers))
    {
      var delta := Delta(RequestTotal(samples[i], callers), RequestTotal(samples[i - 1], callers));
      series := series + [if delta.Some? then Some(Max(0, delta.value)) else None];
      i := i + 1;
    }
  }

  method RecentRequests(first: Shot, latest: Shot, callers: seq<string>) returns (total: int)
    ensures total == Recent(first, latest, callers)
  {
    total := 0;
    var venues := [Pmus, Kalshi];
    for i := 0 to 2
      invariant total == (if i >= 1 then Known(Delta(VenueTotal(latest, Pmus, callers),
            VenueTotal(first, Pmus, callers))) else 0)
                       + (if i >= 2 then Known(Delta(VenueTotal(latest, Kalshi, callers),
                             VenueTotal(first, Kalshi, callers))) else 0)
    {
      var current := VenueTotalOf(latest, venues[i], callers);
      var earlier := VenueTotalOf(first, venues[i], callers);
      var recent := Delta(current, earlier);
      if recent.Some? {
        total := total + recent.value;
      }
    }
  }

  // ---------------------------------------------------------------- the series adds up

  /** Within one broker instance: a counter once known stays known and does not fall. */
  ghost predicate Growing(samples: seq<Shot>, callers: seq<string>) {
    forall i, j :: 0 <= i < j < |samples| ==> Grows(samples[i], samples[j], callers)
  }

  ghost predicate Grows(a: Shot, b: Shot, callers: seq<string>) {
    forall v :: VenueTotal(a, v, callers).Some? ==>
      VenueTotal(b, v, callers).Some? && 0 <= VenueTotal(a, v, callers).value <= VenueTotal(b, v, callers).value
  }

  ghost predicate Counted(s: Shot, callers: seq<string>) {
    forall v :: 0 <= Known(VenueTotal(s, v, callers))
  }

  ghost predicate IsSeries(series: seq<Option<int>>, samples: seq<Shot>, callers: seq<string>) {
    && |series| == Max(0, |samples| - 1)
    && forall i :: 0 <= i < |series| ==>
         series[i] == Delta(RequestTotal(samples[i + 1], callers), RequestTotal(samples[i], callers))
  }

  /** An entry is unknown exactly when a total is missing or fell, and otherwise what the total grew by. */
  lemma SeriesGaps(series: seq<Option<int>>, samples: seq<Shot>, callers: seq<string>, i: nat)
    requires IsSeries(series, samples, callers) && i < |series|
    ensures var before, after := RequestTotal(samples[i], callers), RequestTotal(samples[i + 1], callers);
      && (series[i].None? <==> before.None? || after.None? || after.value < before.value)
      && (series[i].Some? ==> 0 <= series[i].value && before.value + series[i].value == after.value)
  {
    hide VenueTotal;
  }

  /** What the first sample does not count, the last one counts none of. */
  ghost predicate NothingLate(first: Shot, latest: Shot, callers: seq<string>) {
    forall v :: VenueTotal(first, v, callers).None? ==> Known(VenueTotal(latest, v, callers)) == 0
  }

  /** The first sample whose total is known; the number of samples if there is none. */
  function FirstKnown(samples: seq<Shot>, callers: seq<string>): (k: nat)
    ensures k <= |samples|
    ensures k < |samples| ==> RequestTotal(samples[k], callers).Some?
    ensures forall i :: 0 <= i < k ==> RequestTotal(samples[i], callers).None?
  {
    if samples == [] then 0
    else
      var k := FirstKnown(samples[..|samples| - 1], callers);
      if k < |samples| - 1 || RequestTotal(samples[|samples| - 1], callers).Some? then k else k + 1
  }

  /** With counters that do not fall, the series adds up to what the total grew since it was first known. */
  lemma {:induction false} SeriesTelescopes(samples: seq<Shot>, callers: seq<string>, series: seq<Option<int>>)
    requires samples != [] && Growing(samples, callers) && IsSeries(series, samples, callers)
    requires forall i :: 0 <= i < |samples| ==> Counted(samples[i], callers)
    ensures var k, last := FirstKnown(samples, callers), RequestTotal(samples[|samples| - 1], callers);
      && (k < |samples| <==> last.Some?)
      && SumKnown(series) == if last.Some? then last.value - RequestTotal(samples[k], callers).value else 0
    decreases |samples|
  {
    hide VenueTotal;
    var n := |samples|;
    if n > 1 {
      var before, shorter := series[..n - 2], samples[..n - 1];
      SeriesTelescopes(shorter, callers, before);
      assert Grows(samples[n - 2], samples[n - 1], callers);
      assert Counted(samples[n - 1], callers);
      assert SumKnown(series) == SumKnown(before) + Known(series[n - 2]);
    } else {
      assert samples[..0] == [];
    }
  }

  /** When the two figures agree, from what the first sample, the first known total and the last sample say. */
  ghost predicate Agree(samples: seq<Shot>, callers: seq<string>)
    requires samples != []
  {
    var first, last, k := samples[0], samples[|samples| - 1], FirstKnown(samples, callers);
    if RequestTotal(first, callers).Some? then NothingLate(first, last, callers)
    else k < |samples| ==> RequestTotal(last, callers) == RequestTotal(samples[k], callers)
  }

  /**
   The request series adds up to the recent total exactly in these cases: the
   first sample counts a venue, and no venue it does not count has served anything
   by the last; or it counts none, and nothing was served since one was counted.
   */
  lemma SeriesAddsUpExactly(samples: seq<Shot>, callers: seq<string>, series: seq<Option<int>>)
    requires |samples| >= 2 && Growing(samples, callers) && IsSeries(series, samples, callers)
    requires forall i :: 0 <= i < |samples| ==> Counted(samples[i], callers)
    ensures SumKnown(series) == Recent(samples[0], samples[|samples| - 1], callers) <==> Agree(samples, callers)
  {
    hide VenueTotal;
    SeriesTelescopes(samples, callers, series);
    var a, b := samples[0], samples[|samples| - 1];
    assert Grows(a, b, callers) && Counted(b, callers);
    NothingLateIs(a, b, callers);
  }

  // ---------------------------------------------------------------- what a broker reports

  /** Every sample has a row for each of the same callers, in both venues. */
  ghost predicate SameRows(samples: seq<Shot>, rows: set<string>) {
    forall i, v, c :: 0 <= i < |samples| ==> ((v, c) in samples[i].served <==> c in rows)
  }

  /** A venue's total is known exactly when one of the callers has a row. */
  lemma {:induction false} KnownTogether(s: Shot, v: Venue, callers: seq<string>, rows: set<string>)
    requires forall c :: (v, c) in s.served <==> c in rows
    ensures VenueTotal(s, v, callers).Some? <==> exists k :: 0 <= k < |callers| && callers[k] in rows
  {
    if callers != [] {
      var rest := callers[..|callers| - 1];
      KnownTogether(s, v, rest, rows);
      if j :| 0 <= j < |rest| && rest[j] in rows {
        assert callers[j] in rows;
      }
      if callers[|callers| - 1] !in rows && exists k :: 0 <= k < |callers| && callers[k] in rows {
        var k :| 0 <= k < |callers| && callers[k] in rows;
        assert rest[k] in rows;
      }
    }
  }

  /**
   The histories a broker produces: one instance reports a row for every
   configured caller in both venues from its first sample on. There the two
   figures always agree.
   */
  lemma BrokerHistoriesAgree(samples: seq<Shot>, callers: seq<string>, series: seq<Option<int>>, rows: set<string>)
    requires |samples| >= 2 && Growing(samples, callers) && IsSeries(series, samples, callers)
    requires forall i :: 0 <= i < |samples| ==> Counted(samples[i], callers)
    requires SameRows(samples, rows)
    ensures NothingLate(samples[0], samples[|samples| - 1], callers)
    ensures SumKnown(series) == Recent(samples[0], samples[|samples| - 1], callers)
  {
    hide VenueTotal, IsSeries, Growing, SumKnown, Recent;
    forall i, v | 0 <= i < |samples|
      ensures VenueTotal(samples[i], v, callers).Some? <==> exists k :: 0 <= k < |callers| && callers[k] in rows
    {
      KnownTogether(samples[i], v, callers, rows);
    }
    SeriesAddsUpExactly(samples, callers, series);
    forall i | 0 <= i < |samples|
      ensures RequestTotal(samples[i], callers).Some? <==> RequestTotal(samples[0], callers).Some?
    {
      assert VenueTotal(samples[i], Pmus, callers).Some? <==> VenueTotal(samples[0], Pmus, callers).Some?;
      assert VenueTotal(samples[i], Kalshi, callers).Some? <==> VenueTotal(samples[0], Kalshi, callers).Some?;
    }
  }

  lemma NothingLateIs(first: Shot, latest: Shot, callers: seq<string>)
    ensures NothingLate(first, latest, callers) <==>
      && (VenueTotal(first, Pmus, callers).None? ==> Known(VenueTotal(latest, Pmus, callers)) == 0)
      && (VenueTotal(first, Kalshi, callers).None? ==> Known(VenueTotal(latest, Kalshi, callers)) == 0)
  {
    hide VenueTotal;
    if (VenueTotal(first, Pmus, callers).None? ==> Known(VenueTotal(latest, Pmus, callers)) == 0)
       && (VenueTotal(first, Kalshi, callers).None? ==> Known(VenueTotal(latest, Kalshi, callers)) == 0) {
      forall v | VenueTotal(first, v, callers).None? ensures Known(VenueTotal(latest, v, callers)) == 0 {
        match v
        case Pmus =>
        case Kalshi =>
      }
    }
  }

  /** One app's traffic, over the samples of the broker instance that is running now. */
  method AppTraffic(history: seq<Shot>, callers: seq<string>) returns (series: seq<Option<int>>, total: Option<int>)
    ensures history == [] ==> series == [] && total == None
    ensures history != [] ==>
      var kept := SameInstance(history, history[|history| - 1].instance);
      && kept != [] && kept[|kept| - 1] == history[|history| - 1] && IsSeries(series, kept, callers)
      && total == if |kept| > 1 then Some(Recent(kept[0], kept[|kept| - 1], callers)) else None
    ensures history != [] ==>
      var kept := SameInstance(history, history[|history| - 1].instance);
      total.Some? && Growing(kept, callers) && (forall i :: 0 <= i < |kept| ==> Counted(kept[i], callers))
      ==> (SumKnown(series) == total.value <==> Agree(kept, callers))
  {
    hide Delta, RequestTotal, Recent, Growing, Counted, Agree, SumKnown;
    if history == [] {
      return [], None;
    }
    var latest := history[|history| - 1];
    var kept := SameInstance(history, latest.instance);
    series := Series(kept, callers);
    if |kept| <= 1 {
      return series, None;
    }
    var recent := RecentRequests(kept[0], latest, callers);
    if Growing(kept, callers)
       && forall i :: 0 <= i < |kept| ==> Counted(kept[i], callers) {
      SeriesAddsUpExactly(kept, callers, series);
    }
    return series, Some(recent);
  }

  /**
   What a payload no broker sends would do: a venue whose counter first appears
   inside the window counts in the series but not in the recent total.
   */
  lemma LateVenueSplitsTheTotals(caller: string)
    ensures var first := Shot("a", map[(Pmus, caller) := 5]);
            var latest := Shot("a", map[(Pmus, caller) := 5, (Kalshi, caller) := 7]);
            && Delta(RequestTotal(latest, [caller]), RequestTotal(first, [caller])) == Some(7)
            && Recent(first, latest, [caller]) == 0
  {
    var first := Shot("a", map[(Pmus, caller) := 5]);
    var latest := Shot("a", map[(Pmus, caller) := 5, (Kalshi, caller) := 7]);
    SingleTotal(first, Pmus, caller);
    SingleTotal(first, Kalshi, caller);
    SingleTotal(latest, Pmus, caller);
    SingleTotal(latest, Kalshi, caller);
  }
}
