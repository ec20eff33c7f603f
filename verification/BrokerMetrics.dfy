/**
 The counters as an object, and the queue depths monitoring reports: however the
 caller labels are bounded, depths by caller and by class add up to the same total.
 */
module BrokerMetrics {
  import opened Prelude
  import opened Metrics
  import RetryLoop
  import opened Lanes
  import FA = FairAdmission
  import FT = FairTasks
  import FL = FairLiveness
  import FS = FairScores

  function RAt(m: map<RowKey, real>, k: RowKey): real { if k in m then m[k] else 0.0 }

  /** n waits that add up to `total`, none longer than `top`. */
  ghost predicate RowWaitOk(n: int, total: real, top: real) {
    0 <= n && 0.0 <= top && 0.0 <= total <= n as real * top
  }

  lemma RowWaitStep(n: int, total: real, top: real, wait: real)
    requires RowWaitOk(n, total, top) && wait >= 0.0
    ensures RowWaitOk(n + 1, total + wait, RMax(top, wait))
  {
    AverageAtMostMax(n as real, top, RMax(top, wait), total, wait);
  }

  /** The moments a row reports: its last request, its last upstream call, its last failure. */
  datatype Stamp = LastRequest | LastUpstream | LastError

  datatype StampKey = StampKey(row: RowKey, stamp: Stamp)

  function StampOf(m: RetryLoop.Metric): Option<Stamp> {
    match m
    case RequestsServed => Some(LastRequest)
    case UpstreamRequests => Some(LastUpstream)
    case BrokerFailures => Some(LastError)
    case _ => None
  }

  /** The counter whose latest move a stamp tells. */
  function MetricOf(stamp: Stamp): RetryLoop.Metric {
    match stamp
    case LastRequest => RetryLoop.RequestsServed
    case LastUpstream => RetryLoop.UpstreamRequests
    case LastError => RetryLoop.BrokerFailures
  }

  /** A row has a stamp exactly when its counter has ever moved. */
  ghost predicate StampsOk(c: Counters, seen: map<StampKey, int>) {
    && (forall k :: 0 <= At(c.rows, k))
    && (forall k: StampKey :: k in seen <==> 0 < At(c.rows, RowCell(k.row.venue, k.row.row, MetricOf(k.stamp))))
  }

  lemma StampsStep(g: Registry, c: Counters, seen: map<StampKey, int>, venue: RetryLoop.Venue, caller: string,
                   m: RetryLoop.Metric, perps: bool, now: int)
    requires StampsOk(c, seen)
    ensures var stamp := StampOf(m);
      StampsOk(Incremented(g, c, venue, caller, m, perps),
               if stamp.Some? then seen[StampKey(RowKey(venue, g.Row(caller)), stamp.value) := now] else seen)
  {
    hide Registry.Row;
    var d := Incremented(g, c, venue, caller, m, perps);
    var cell := RowCell(venue, g.Row(caller), m);
    forall k ensures At(d.rows, k) == At(c.rows, k) + if k == cell then 1 else 0 {
    }
  }

  class Counting {
    const registry: Registry
    var counters: Counters
    var lastSeen: map<StampKey, int>
    var waitTotal: map<RowKey, real>
    var waitMax: map<RowKey, real>

    /** The reported average wait of a row never exceeds its reported maximum. */
    ghost predicate WaitsOk()
      reads this
    {
      forall k :: RowWaitOk(At(counters.admissions, k), RAt(waitTotal, k), RAt(waitMax, k))
    }

    constructor (registry: Registry)
      requires registry.Valid()
      ensures this.registry == registry && counters == NO_COUNTS && WaitsOk() && StampsOk(counters, lastSeen)
    {
      this.registry, counters, waitTotal, waitMax, lastSeen := registry, NO_COUNTS, map[], map[], map[];
    }

    method Increment(venue: RetryLoop.Venue, caller: string, metric: RetryLoop.Metric, perps: bool, now: int)
      requires WaitsOk() && StampsOk(counters, lastSeen)
      modifies this`counters, this`lastSeen
      ensures counters == Incremented(registry, old(counters), venue, caller, metric, perps)
      ensures WaitsOk() && StampsOk(counters, lastSeen)
      ensures var stamp, row := StampOf(metric), RowKey(venue, registry.Row(caller));
        lastSeen == if stamp.Some? then old(lastSeen)[StampKey(row, stamp.value) := now] else old(lastSeen)
    {
      hide StampsOk;
      StampsStep(registry, counters, lastSeen, venue, caller, metric, perps, now);
      var row := registry.Row(caller);
      counters := counters.(venues := Plus1(counters.venues, Cell(venue, metric)),
                            rows := Plus1(counters.rows, RowCell(venue, row, metric)));
      if venue == RetryLoop.Kalshi {
        if perps {
          counters := counters.(perps := Plus1(counters.perps, LaneCell(row, metric)));
        } else {
          counters := counters.(prediction := Plus1(counters.prediction, LaneCell(row, metric)));
        }
      }
      var stamp := StampOf(metric);
      if stamp.Some? {
        lastSeen := lastSeen[StampKey(RowKey(venue, row), stamp.value) := now];
      }
    }

    method RecordQueueWait(venue: RetryLoop.Venue, caller: string, wait: real)
      requires WaitsOk() && wait >= 0.0
      modifies this
      ensures counters == AdmissionNoted(registry, old(counters), venue, caller) && lastSeen == old(lastSeen)
      ensures var k := RowKey(venue, registry.Row(caller));
        && RAt(waitTotal, k) == RAt(old(waitTotal), k) + wait
        && RAt(waitMax, k) == RMax(RAt(old(waitMax), k), wait)
        && forall j :: j != k ==>
             RAt(waitTotal, j) == RAt(old(waitTotal), j) && RAt(waitMax, j) == RAt(old(waitMax), j)
      ensures WaitsOk()
    {
      hide RowWaitOk;
      var k := RowKey(venue, registry.Row(caller));
      RowWaitStep(At(counters.admissions, k), RAt(waitTotal, k), RAt(waitMax, k), wait);
      waitTotal := waitTotal[k := RAt(waitTotal, k) + wait];
      waitMax := waitMax[k := RMax(RAt(waitMax, k), wait)];
      counters := counters.(admissions := Plus1(counters.admissions, k));
    }
  }

  lemma AverageAtMostMax(n: real, top: real, top': real, total: real, wait: real)
    requires n >= 0.0 && top <= top' && wait <= top' && total <= n * top
    ensures total + wait <= (n + 1.0) * top'
  {
    assert n * top <= n * top';
  }

  // ---------------------------------------------------------------- bounded queue reports

  function OfRow(g: Registry, m: map<string, int>, row: string): map<string, int> {
    map k | k in m && g.Row(k) == row :: m[k]
  }

  lemma RowLoses(g: Registry, m: map<string, int>, k: string, row: string)
    requires k in m
    ensures MapTotal(OfRow(g, m, row)) == MapTotal(OfRow(g, m - {k}, row)) + if row == g.Row(k) then m[k] else 0
  {
    if row == g.Row(k) {
      MapTotalRemove(OfRow(g, m, row), k);
      assert OfRow(g, m, row) - {k} == OfRow(g, m - {k}, row);
    } else {
      assert OfRow(g, m, row) == OfRow(g, m - {k}, row);
    }
  }

  /** What is already grouped plus what is still to come is the whole table, in total and per row. */
  ghost predicate Grouping(g: Registry, bounded: map<string, int>, rest: map<string, int>, values: map<string, int>) {
    && MapTotal(bounded) + MapTotal(rest) == MapTotal(values)
    && forall row :: FA.Depth(bounded, row) + MapTotal(OfRow(g, rest, row)) == MapTotal(OfRow(g, values, row))
  }

  lemma GroupingStep(g: Registry, bounded: map<string, int>, rest: map<string, int>, values: map<string, int>,
        k: string)
    requires Grouping(g, bounded, rest, values) && k in rest
    ensures Grouping(g, bounded[g.Row(k) := FA.Depth(bounded, g.Row(k)) + rest[k]], rest - {k}, values)
  {
    hide MapTotal, OfRow;
    MapTotalUpdate(bounded, g.Row(k), FA.Depth(bounded, g.Row(k)) + rest[k]);
    MapTotalRemove(rest, k);
    var next := bounded[g.Row(k) := FA.Depth(bounded, g.Row(k)) + rest[k]];
    forall row ensures FA.Depth(next, row) + MapTotal(OfRow(g, rest - {k}, row)) == MapTotal(OfRow(g, values, row)) {
      RowLoses(g, rest, k, row);
      assert FA.Depth(bounded, row) + MapTotal(OfRow(g, rest, row)) == MapTotal(OfRow(g, values, row));
    }
  }

  lemma GroupingEnd(g: Registry, bounded: map<string, int>, values: map<string, int>)
    requires Grouping(g, bounded, map[], values)
    ensures MapTotal(bounded) == MapTotal(values)
    ensures forall row :: FA.Depth(bounded, row) == MapTotal(OfRow(g, values, row))
  {
    forall row ensures MapTotal(OfRow(g, map[], row)) == 0 {
      assert OfRow(g, map[], row) == map[];
    }
  }

  /** Group the reported depths by bounded caller row. */
  method BoundedCallers(g: Registry, values: map<string, int>) returns (bounded: map<string, int>)
    ensures MapTotal(bounded) == MapTotal(values)
    ensures forall row :: FA.Depth(bounded, row) == MapTotal(OfRow(g, values, row))
    ensures forall row :: row in bounded ==> exists k :: k in values && g.Row(k) == row
  {
    bounded := map[];
    var rest := values;
    while rest != map[]
      invariant Grouping(g, bounded, rest, values) && rest.Keys <= values.Keys
      invariant forall row :: row in bounded ==> exists k :: k in values && g.Row(k) == row
      decreases |rest|
    {
      var k :| k in rest;
      GroupingStep(g, bounded, rest, values, k);
      bounded := bounded[g.Row(k) := FA.Depth(bounded, g.Row(k)) + rest[k]];
      rest := rest - {k};
    }
    GroupingEnd(g, bounded, values);
  }

  // ---------------------------------------------------------------- by caller and by class

  ghost predicate TotalsAgree(s: FA.State) {
    MapTotal(s.callerDepth) == Sum(s.classDepth)
  }

  lemma BumpTotal(s: FA.State, w: Waiter)
    requires w.cls < |s.lanes| == |s.classDepth| && TotalsAgree(s)
    ensures TotalsAgree(FA.Enqueue(s, w))
  {
    MapTotalUpdate(s.callerDepth, w.caller, FA.Depth(s.callerDepth, w.caller) + 1);
    SumUpdate(s.classDepth, w.cls, s.classDepth[w.cls] + 1);
  }

  lemma LowerTotal(s: FA.State, w: Waiter)
    requires w.cls < |s.classDepth| && TotalsAgree(s) && FA.Depth(s.callerDepth, w.caller) > 0
    ensures TotalsAgree(FA.Decremented(s, w))
  {
    var d := FA.Depth(s.callerDepth, w.caller);
    MapTotalUpdate(s.callerDepth, w.caller, d - 1);
    MapTotalRemove(s.callerDepth, w.caller);
    SumUpdate(s.classDepth, w.cls, s.classDepth[w.cls] - 1);
  }

  lemma LeaveTotal(p: FA.Policy, s: FA.State, w: Waiter)
    requires FA.Core(p, s) && TotalsAgree(s) && FA.Held(s, w)
    ensures w.cls < |s.lanes| == |s.classDepth|
    ensures TotalsAgree(FA.Abandon(s, w)) && TotalsAgree(FA.Release(s, w))
  {
    hide LaneOk, FS.BoundedScores;
    assert FA.Depth(s.callerDepth, w.caller) == FA.CallerLoad(p, s, w.caller);
    if s.serving != Some(w) {
      FA.QueueLenPositive(s.lanes[w.cls], w);
    }
    LowerTotal(s, w);
  }

  lemma SelectTotal(p: FA.Policy, s: FA.State)
    requires FA.Shape(p, s) && TotalsAgree(s)
    ensures TotalsAgree(FA.Select(p, s))
  {
  }

  lemma NextTotal(p: FA.Policy, y: FT.System, e: FT.Event)
    requires FT.SystemOk(p, y) && TotalsAgree(y.lim)
    ensures TotalsAgree(FT.Next(p, y, e).lim)
  {
    hide FA.Core, FA.Select, TotalsAgree, FA.Enqueue, FA.Abandon, FA.Release, FA.Shape;
    FT.NextFacts(p, y, e);
    FA.CoreShape(p, y.lim);
    if FT.BeforeSelect(p, y, e).Some? {
      var s := FT.BeforeSelect(p, y, e).value;
      FA.CoreShape(p, s);
      if FT.Enters(y, e) {
        BumpTotal(y.lim, FT.Arrival(p, y, e));
      } else {
        LeaveTotal(p, y.lim, e.w);
      }
      SelectTotal(p, s);
    } else {
      ClosedTotal(y.lim);
    }
  }

  lemma ClosedTotal(s: FA.State)
    requires TotalsAgree(s)
    ensures TotalsAgree(s.(closed := true))
  {
  }

  /** In every run the queue depths reported by caller and by class have the same total. */
  lemma {:induction false} DepthTotalsAgree(p: FA.Policy, y: FT.System, events: seq<FT.Event>)
    requires FT.SystemOk(p, y) && TotalsAgree(y.lim)
    ensures TotalsAgree(FL.RunFrom(p, y, events).lim)
    decreases |events|
  {
    hide FT.SystemOk, TotalsAgree, FT.Next;
    if events != [] {
      FT.NextOk(p, y, events[0]);
      NextTotal(p, y, events[0]);
      DepthTotalsAgree(p, FT.Next(p, y, events[0]), events[1..]);
    }
  }

  /** From a new limiter on, whatever the tasks do. */
  lemma ReportedDepthsAgree(p: FA.Policy, events: seq<FT.Event>)
    requires p.Valid()
    ensures FT.SystemOk(p, FT.Start(p)) && TotalsAgree(FL.RunFrom(p, FT.Start(p), events).lim)
  {
    hide FT.SystemOk;
    FT.StartOk(p);
    SumConst(FS.Zeros(|p.weights|), 0);
    DepthTotalsAgree(p, FT.Start(p), events);
  }

  // ---------------------------------------------------------------- a venue's whole queue report

  /** Adding up two sets of counts; a count that is not positive is dropped. */
  function AddCounts(a: map<string, int>, b: map<string, int>): map<string, int> {
    map k | k in a.Keys + b.Keys && FA.Depth(a, k) + FA.Depth(b, k) > 0 :: FA.Depth(a, k) + FA.Depth(b, k)
  }

  ghost predicate Counts(m: map<string, int>) { forall k :: k in m ==> m[k] > 0 }

  lemma {:induction false} AddCountsTotal(a: map<string, int>, b: map<string, int>)
    requires Counts(a) && Counts(b)
    ensures MapTotal(AddCounts(a, b)) == MapTotal(a) + MapTotal(b)
    decreases |b|
  {
    hide MapTotal, AddCounts;
    if b == map[] {
      AddNothing(a);
      MapTotalEmpty<string>();
    } else {
      var k :| k in b;
      AddCountsTotal(a, b - {k});
      AddOneMore(a, b, k);
      MapTotalUpdate(AddCounts(a, b - {k}), k, FA.Depth(a, k) + b[k]);
      MapTotalRemove(b, k);
    }
  }

  lemma AddNothing(a: map<string, int>)
    requires Counts(a)
    ensures AddCounts(a, map[]) == a
  {
  }

  lemma AddOneMore(a: map<string, int>, b: map<string, int>, k: string)
    requires Counts(a) && Counts(b) && k in b
    ensures AddCounts(a, b) == AddCounts(a, b - {k})[k := FA.Depth(a, k) + b[k]]
    ensures FA.Depth(AddCounts(a, b - {k}), k) == FA.Depth(a, k)
  {
  }

  /** The depths shown for the given rows, added up. */
  function Shown(rows: seq<string>, depths: map<string, int>): int {
    if rows == [] then 0 else FA.Depth(depths, rows[0]) + Shown(rows[1..], depths)
  }

  lemma {:induction false} ShownWithout(rows: seq<string>, depths: map<string, int>, k: string)
    requires k !in rows
    ensures Shown(rows, depths - {k}) == Shown(rows, depths)
  {
    if rows != [] {
      ShownWithout(rows[1..], depths, k);
    }
  }

  /** Nothing is hidden: the rows shown account for every count. */
  lemma {:induction false} ShownIsAll(rows: seq<string>, depths: map<string, int>)
    requires NoDup(rows) && forall k :: k in depths ==> k in rows
    ensures Shown(rows, depths) == MapTotal(depths)
  {
    hide MapTotal;
    if rows == [] {
      assert depths == map[];
      MapTotalEmpty<string>();
    } else {
      Rotate(rows);
      var k := rows[0];
      ShownIsAll(rows[1..], depths - {k});
      ShownWithout(rows[1..], depths, k);
      if k in depths {
        MapTotalRemove(depths, k);
      } else {
        assert depths - {k} == depths;
      }
    }
  }

  /**
   What a venue with a second lane reports: both limiters' depths added up, the
   caller labels bounded afterwards. What it shows by caller and by class is the
   same number of requests, and each row shows those of its own callers.
   */
  method QueueReport(g: Registry, callers: map<string, int>, classes: seq<int>,
                     laneCallers: map<string, int>, laneClasses: seq<int>)
    returns (rows: map<string, int>, byClass: seq<int>)
    requires g.Valid() && |classes| == |laneClasses| && Counts(callers) && Counts(laneCallers)
    requires MapTotal(callers) == Sum(classes) && MapTotal(laneCallers) == Sum(laneClasses)
    ensures |byClass| == |classes| && forall i :: 0 <= i < |classes| ==> byClass[i] == classes[i] + laneClasses[i]
    ensures forall row ::
              FA.Depth(rows, row) == MapTotal(OfRow(g, callers, row)) + MapTotal(OfRow(g, laneCallers, row))
    ensures Shown(g.rows, rows) == Sum(byClass)
  {
    hide MapTotal, Shown, Sum, Registry.Row, AddCounts, OfRow, Counts;
    var both := AddCounts(callers, laneCallers);
    rows := BoundedCallers(g, both);
    byClass := AddedClasses(classes, laneClasses);
    forall row
      ensures MapTotal(OfRow(g, both, row)) == MapTotal(OfRow(g, callers, row)) + MapTotal(OfRow(g, laneCallers, row))
    {
      RowsAdd(g, callers, laneCallers, row);
    }
    AddCountsTotal(callers, laneCallers);
    SumPlus(classes, laneClasses, byClass);
    forall row | row in rows ensures row in g.rows {
      var k :| k in both && g.Row(k) == row;
      RowListed(g, k);
    }
    assert NoDup(g.rows);
    ShownIsAll(g.rows, rows);
  }

  method AddedClasses(classes: seq<int>, laneClasses: seq<int>) returns (byClass: seq<int>)
    requires |classes| == |laneClasses|
    ensures |byClass| == |classes| && forall i :: 0 <= i < |classes| ==> byClass[i] == classes[i] + laneClasses[i]
  {
    byClass := [];
    for i := 0 to |classes|
      invariant |byClass| == i && forall j :: 0 <= j < i ==> byClass[j] == classes[j] + laneClasses[j]
    {
      byClass := byClass + [classes[i] + laneClasses[i]];
    }
  }

  /** Bounding the labels of the sum is summing the bounded rows. */
  lemma RowsAdd(g: Registry, a: map<string, int>, b: map<string, int>, row: string)
    requires Counts(a) && Counts(b)
    ensures MapTotal(OfRow(g, AddCounts(a, b), row)) == MapTotal(OfRow(g, a, row)) + MapTotal(OfRow(g, b, row))
  {
    hide MapTotal, Registry.Row;
    assert OfRow(g, AddCounts(a, b), row) == AddCounts(OfRow(g, a, row), OfRow(g, b, row));
    AddCountsTotal(OfRow(g, a, row), OfRow(g, b, row));
  }

  /** The report's demands are met by any two limiters of the same policy, whatever their tasks did. */
  lemma ReportsAreCounts(p: FA.Policy, events: seq<FT.Event>)
    requires p.Valid()
    ensures FT.SystemOk(p, FT.Start(p))
    ensures var s := FL.RunFrom(p, FT.Start(p), events).lim;
      Counts(s.callerDepth) && MapTotal(s.callerDepth) == Sum(s.classDepth) && |s.classDepth| == |p.weights|
  {
    hide FA.Select, LaneOk, FT.PhasesOk, FT.TicketsOk;
    ReportedDepthsAgree(p, events);
    FA.CoreShape(p, FL.RunFrom(p, FT.Start(p), events).lim);
  }
}
