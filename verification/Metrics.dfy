/**
 The broker's counters: bounded caller rows, venue totals and Kalshi lanes, as
 moved by any interleaving of reads.
 */
module Metrics {
  import opened Prelude
  import opened RetryLoop
  import FairAdmission

  /** Unknown callers share one row, so the number of rows is bounded. */
  datatype Registry = Registry(configured: set<string>, rows: seq<string>) {
    ghost predicate Valid() {
      NoDup(rows) && forall r :: r in rows <==> r in configured || r == "other" || r == "unknown"
    }

    function Row(caller: string): string {
      var name := FairAdmission.Lower(caller);
      if name == "unknown" || name in configured then name else "other"
    }
  }

  /** A configured caller, in whatever case, and the unknown one have rows of their own; all others share one. */
  lemma RowExactly(g: Registry, caller: string)
    requires forall r :: r in g.configured ==> FairAdmission.Lower(r) == r
    ensures forall r :: (r in g.configured || r == "unknown") && FairAdmission.SameLabel(r, caller) ==>
              g.Row(caller) == r
    ensures (forall r :: r in g.configured || r == "unknown" ==> !FairAdmission.SameLabel(r, caller)) ==>
              g.Row(caller) == "other"
  {
    assert FairAdmission.Lower("unknown") == "unknown";
    hide FairAdmission.Lower, FairAdmission.SameLabel;
    forall r | r in g.configured || r == "unknown"
      ensures FairAdmission.SameLabel(r, caller) <==> r == FairAdmission.Lower(caller)
    {
      FairAdmission.LowerExactly(r, caller);
      FairAdmission.LowerExactly(caller, caller);
    }
    var name := FairAdmission.Lower(caller);
    if name == "unknown" || name in g.configured {
      assert FairAdmission.SameLabel(name, caller);
    }
  }

  datatype Cell = Cell(venue: Venue, metric: Metric)
  datatype RowCell = RowCell(venue: Venue, row: string, metric: Metric)
  datatype LaneCell = LaneCell(row: string, metric: Metric)
  datatype RowKey = RowKey(venue: Venue, row: string)

  datatype Counters = Counters(
    venues: map<Cell, int>, rows: map<RowCell, int>,
    prediction: map<LaneCell, int>, perps: map<LaneCell, int>,
    admissions: map<RowKey, int>)

  const NO_COUNTS: Counters := Counters(map[], map[], map[], map[], map[])

  function At<K(==)>(m: map<K, int>, k: K): int { if k in m then m[k] else 0 }

  function Plus1<K(==)>(m: map<K, int>, k: K): map<K, int> { m[k := At(m, k) + 1] }

  lemma Plus1At<K>(m: map<K, int>, k: K, j: K)
    ensures At(Plus1(m, k), j) == At(m, j) + if j == k then 1 else 0
  {
  }

  function Incremented(g: Registry, c: Counters, venue: Venue, caller: string, metric: Metric, perps: bool): Counters {
    var row := g.Row(caller);
    var d := c.(venues := Plus1(c.venues, Cell(venue, metric)), rows := Plus1(c.rows, RowCell(venue, row, metric)));
    if venue != Kalshi then d
    else if perps then d.(perps := Plus1(c.perps, LaneCell(row, metric)))
    else d.(prediction := Plus1(c.prediction, LaneCell(row, metric)))
  }

  function AdmissionNoted(g: Registry, c: Counters, venue: Venue, caller: string): Counters {
    c.(admissions := Plus1(c.admissions, RowKey(venue, g.Row(caller))))
  }

  // ---------------------------------------------------------------- interleaved reads

  /** Who a request, or the note that its caller hung up, is for. */
  datatype Read = Read(venue: Venue, caller: string, perps: bool)

  /** One action for one of them, in the order things really happened. */
  datatype Move = Move(read: nat, action: Action)

  ghost predicate ValidLog(issued: seq<Read>, log: seq<Move>) {
    forall i :: 0 <= i < |log| ==> log[i].read < |issued|
  }

  function After(g: Registry, issued: seq<Read>, log: seq<Move>): Counters
    requires forall i :: 0 <= i < |log| ==> log[i].read < |issued|
  {
    if log == [] then NO_COUNTS
    else
      var c, m := After(g, issued, log[..|log| - 1]), log[|log| - 1];
      var r := issued[m.read];
      match m.action
      case Count(metric) => Incremented(g, c, r.venue, r.caller, metric, r.perps)
      case Admit(_) => AdmissionNoted(g, c, r.venue, r.caller)
      case _ => c
  }

  /** What one read did, out of everything that happened. */
  function Project(log: seq<Move>, read: nat): Trace {
    if log == [] then []
    else
      var rest := Project(log[..|log| - 1], read);
      if log[|log| - 1].read == read then rest + [log[|log| - 1].action] else rest
  }

  // ---------------------------------------------------------------- rows and lanes add up

  function RowSum(rows: seq<string>, cells: map<RowCell, int>, venue: Venue, metric: Metric): int {
    if rows == [] then 0
    else At(cells, RowCell(venue, rows[0], metric)) + RowSum(rows[1..], cells, venue, metric)
  }

  ghost predicate Conserved(g: Registry, c: Counters) {
    && (forall v, m :: At(c.venues, Cell(v, m)) == RowSum(g.rows, c.rows, v, m))
    && (forall r, m :: At(c.rows, RowCell(Kalshi, r, m))
          == At(c.prediction, LaneCell(r, m)) + At(c.perps, LaneCell(r, m)))
  }

  lemma {:induction false} RowSumPlus(rows: seq<string>, cells: map<RowCell, int>, v: Venue, m: Metric, k: RowCell)
    requires NoDup(rows)
    ensures RowSum(rows, Plus1(cells, k), v, m)
            == RowSum(rows, cells, v, m) + if k.venue == v && k.metric == m && k.row in rows then 1 else 0
  {
    if rows != [] {
      RowSumPlus(rows[1..], cells, v, m, k);
      assert rows == [rows[0]] + rows[1..];
    }
  }

  lemma RowListed(g: Registry, caller: string)
    requires g.Valid()
    ensures g.Row(caller) in g.rows
  {
  }

  /** What one increment does to the cells of one row and metric. */
  lemma CellStep(g: Registry, c: Counters, r: Read, metric: Metric, v: Venue, row: string, m: Metric)
    ensures var d := Incremented(g, c, r.venue, r.caller, metric, r.perps);
            var mine := metric == m && r.venue == v;
            var lane := metric == m && r.venue == Kalshi && g.Row(r.caller) == row;
      && At(d.venues, Cell(v, m)) == At(c.venues, Cell(v, m)) + (if mine then 1 else 0)
      && At(d.rows, RowCell(v, row, m))
         == At(c.rows, RowCell(v, row, m)) + (if mine && g.Row(r.caller) == row then 1 else 0)
      && At(d.prediction, LaneCell(row, m))
         == At(c.prediction, LaneCell(row, m)) + (if lane && !r.perps then 1 else 0)
      && At(d.perps, LaneCell(row, m)) == At(c.perps, LaneCell(row, m)) + (if lane && r.perps then 1 else 0)
  {
    hide Registry.Row, At, Plus1;
    var at := g.Row(r.caller);
    Plus1At(c.venues, Cell(r.venue, metric), Cell(v, m));
    Plus1At(c.rows, RowCell(r.venue, at, metric), RowCell(v, row, m));
    Plus1At(c.prediction, LaneCell(at, metric), LaneCell(row, m));
    Plus1At(c.perps, LaneCell(at, metric), LaneCell(row, m));
  }

  lemma IncrementConserves(g: Registry, c: Counters, venue: Venue, caller: string, metric: Metric, perps: bool)
    requires g.Valid() && Conserved(g, c)
    ensures Conserved(g, Incremented(g, c, venue, caller, metric, perps))
  {
    hide Registry.Row, At, Plus1;
    var d, row := Incremented(g, c, venue, caller, metric, perps), g.Row(caller);
    assert row in g.rows by { RowListed(g, caller); }
    forall v, m ensures At(d.venues, Cell(v, m)) == RowSum(g.rows, d.rows, v, m) {
      RowSumPlus(g.rows, c.rows, v, m, RowCell(venue, row, metric));
      Plus1At(c.venues, Cell(venue, metric), Cell(v, m));
      assert At(c.venues, Cell(v, m)) == RowSum(g.rows, c.rows, v, m);
    }
    forall r, m
      ensures At(d.rows, RowCell(Kalshi, r, m)) == At(d.prediction, LaneCell(r, m)) + At(d.perps, LaneCell(r, m))
    {
      CellStep(g, c, Read(venue, caller, perps), metric, Kalshi, r, m);
      assert At(c.rows, RowCell(Kalshi, r, m)) == At(c.prediction, LaneCell(r, m)) + At(c.perps, LaneCell(r, m));
    }
  }

  lemma {:induction false} NoRows(rows: seq<string>, v: Venue, m: Metric)
    ensures RowSum(rows, map[], v, m) == 0
  {
    if rows != [] {
      NoRows(rows[1..], v, m);
    }
  }

  /**
   In every reachable state each venue metric is the sum of its bounded caller
   rows, and each Kalshi row is the sum of its prediction and perps lanes.
   */
  lemma {:induction false} CountersConserved(g: Registry, issued: seq<Read>, log: seq<Move>)
    requires g.Valid() && ValidLog(issued, log)
    ensures Conserved(g, After(g, issued, log))
  {
    hide Conserved, Incremented;
    if log == [] {
      EmptyConserved(g);
    } else {
      var rest, m := log[..|log| - 1], log[|log| - 1];
      CountersConserved(g, issued, rest);
      var r := issued[m.read];
      match m.action
      case Count(metric) => IncrementConserves(g, After(g, issued, rest), r.venue, r.caller, metric, r.perps);
      case Admit(_) => AdmissionConserves(g, After(g, issued, rest), r.venue, r.caller);
      case _ =>
    }
  }

  lemma EmptyConserved(g: Registry)
    ensures Conserved(g, NO_COUNTS)
  {
    forall v, m ensures RowSum(g.rows, map[], v, m) == 0 {
      NoRows(g.rows, v, m);
    }
  }

  lemma AdmissionConserves(g: Registry, c: Counters, venue: Venue, caller: string)
    requires Conserved(g, c)
    ensures Conserved(g, AdmissionNoted(g, c, venue, caller))
  {
  }

  // ---------------------------------------------------------------- setbacks, requests, admissions

  function Merge(a: Totals, b: Totals): Totals {
    Totals(a.admits + b.admits, a.requests + b.requests, a.calls + b.calls,
           a.setbacks + b.setbacks, a.throttles + b.throttles, a.sleeps + b.sleeps)
  }

  /** What a group of reads did together. */
  function GroupTotal(log: seq<Move>, group: set<nat>): Totals {
    if log == [] then Totals(0, 0, 0, 0, 0, 0)
    else
      var rest := GroupTotal(log[..|log| - 1], group);
      if log[|log| - 1].read in group then Add(rest, log[|log| - 1].action) else rest
  }

  lemma MergeAdd(a: Totals, b: Totals, x: Action)
    ensures Merge(Add(a, x), b) == Add(Merge(a, b), x) == Merge(a, Add(b, x))
  {
  }

  lemma ProjectTotal(log: seq<Move>, read: nat)
    requires log != []
    ensures var rest, m := log[..|log| - 1], log[|log| - 1];
      Total(Project(log, read)) == if m.read == read then Add(Total(Project(rest, read)), m.action)
            else Total(Project(rest, read))
  {
    var rest, m := log[..|log| - 1], log[|log| - 1];
    var t := Project(rest, read) + [m.action];
    assert t[..|t| - 1] == Project(rest, read);
  }

  lemma {:induction false} GroupSplit(log: seq<Move>, group: set<nat>, read: nat)
    requires read !in group
    ensures GroupTotal(log, group + {read}) == Merge(GroupTotal(log, group), Total(Project(log, read)))
  {
    hide Add, Merge, Total, Project;
    if log == [] {
      EmptySplit(read);
    } else {
      var rest, m := log[..|log| - 1], log[|log| - 1];
      GroupSplit(rest, group, read);
      ProjectTotal(log, read);
      MergeAdd(GroupTotal(rest, group), Total(Project(rest, read)), m.action);
    }
  }

  lemma EmptySplit(read: nat)
    ensures Merge(Totals(0, 0, 0, 0, 0, 0), Total(Project([], read))) == Totals(0, 0, 0, 0, 0, 0)
  {
    assert Project([], read) == [];
    NoTotal();
  }

  lemma NoTotal()
    ensures Total([]) == Totals(0, 0, 0, 0, 0, 0)
  {
  }

  lemma {:induction false} EmptyGroup(log: seq<Move>)
    ensures GroupTotal(log, {}) == Totals(0, 0, 0, 0, 0, 0)
  {
    if log != [] {
      EmptyGroup(log[..|log| - 1]);
    }
  }

  lemma {:induction false} GroupBalanced(log: seq<Move>, group: set<nat>)
    requires forall r :: r in group ==> Balanced(Total(Project(log, r)))
    ensures Balanced(GroupTotal(log, group))
    decreases group
  {
    hide GroupTotal, Total, Project;
    if group == {} {
      EmptyGroup(log);
    } else {
      var r :| r in group;
      GroupBalanced(log, group - {r});
      GroupSplit(log, group - {r}, r);
      assert group - {r} + {r} == group;
    }
  }

  /** The reads that count towards one caller row of one venue. */
  function RowReads(g: Registry, issued: seq<Read>, key: RowKey): set<nat> {
    set r: nat | r < |issued| && issued[r].venue == key.venue && g.Row(issued[r].caller) == key.row
  }

  function Setbacks(c: Counters, key: RowKey): int {
    At(c.rows, RowCell(key.venue, key.row, Upstream429s)) + At(c.rows, RowCell(key.venue, key.row, LatencyStopgaps))
    + At(c.rows, RowCell(key.venue, key.row, UpstreamTimeouts))
    + At(c.rows, RowCell(key.venue, key.row, ConnectionFailures))
  }

  /** The counters of a row are exactly what its reads did. */
  lemma {:induction false} RowIsGroup(g: Registry, issued: seq<Read>, log: seq<Move>, key: RowKey)
    requires ValidLog(issued, log)
    ensures var c, t := After(g, issued, log), GroupTotal(log, RowReads(g, issued, key));
      && At(c.rows, RowCell(key.venue, key.row, UpstreamRequests)) == t.requests
      && At(c.admissions, key) == t.admits
      && Setbacks(c, key) == t.setbacks
  {
    hide Total, Project, Incremented, AdmissionNoted, Setbacks, Add, Registry.Row;
    if log == [] {
      NoSetbacks(key);
    } else {
      var rest, m := log[..|log| - 1], log[|log| - 1];
      RowIsGroup(g, issued, rest, key);
      RowStep(g, After(g, issued, rest), issued[m.read], m.action, key, GroupTotal(rest, RowReads(g, issued, key)));
    }
  }

  lemma NoSetbacks(key: RowKey)
    ensures Setbacks(NO_COUNTS, key) == 0
  {
  }

  /** One action moves the cells of the row it belongs to, and of no other. */
  lemma RowStep(g: Registry, c: Counters, r: Read, a: Action, key: RowKey, t: Totals)
    requires At(c.rows, RowCell(key.venue, key.row, UpstreamRequests)) == t.requests
    requires At(c.admissions, key) == t.admits && Setbacks(c, key) == t.setbacks
    ensures var d := match a
                     case Count(metric) => Incremented(g, c, r.venue, r.caller, metric, r.perps)
                     case Admit(_) => AdmissionNoted(g, c, r.venue, r.caller)
                     case _ => c;
            var u := if r.venue == key.venue && g.Row(r.caller) == key.row then Add(t, a) else t;
      && At(d.rows, RowCell(key.venue, key.row, UpstreamRequests)) == u.requests
      && At(d.admissions, key) == u.admits && Setbacks(d, key) == u.setbacks
  {
    hide Registry.Row, Setbacks;
    match a
    case Count(metric) => SetbackCounted(g, c, r, metric, key);
    case Admit(_) => SetbackUnmoved(c, AdmissionNoted(g, c, r.venue, r.caller), key);
    case _ =>
  }

  lemma SetbackUnmoved(c: Counters, d: Counters, key: RowKey)
    requires c.rows == d.rows
    ensures Setbacks(d, key) == Setbacks(c, key)
  {
  }

  lemma SetbackCounted(g: Registry, c: Counters, r: Read, metric: Metric, key: RowKey)
    ensures Setbacks(Incremented(g, c, r.venue, r.caller, metric, r.perps), key)
            == Setbacks(c, key)
               + if r.venue == key.venue && g.Row(r.caller) == key.row && IsSetback(metric) then 1 else 0
  {
    hide Registry.Row;
  }

  // ---------------------------------------------------------------- every cell counts its reads

  /** How often any of these reads moved this metric. */
  function Moved(log: seq<Move>, group: set<nat>, metric: Metric): nat {
    if log == [] then 0
    else
      var m := log[|log| - 1];
      Moved(log[..|log| - 1], group, metric) + if m.read in group && m.action == Count(metric) then 1 else 0
  }

  function VenueReads(issued: seq<Read>, venue: Venue): set<nat> {
    set r: nat | r < |issued| && issued[r].venue == venue
  }

  /** The reads of one row that went through the perps lane, or those that did not. */
  function LaneReads(g: Registry, issued: seq<Read>, row: string, perps: bool): set<nat> {
    set r: nat | r < |issued| && issued[r].venue == Kalshi && g.Row(issued[r].caller) == row && issued[r].perps == perps
  }

  /**
   Every cell, exactly: in any interleaving a venue's metric counts the actions of the
   reads of that venue, a caller row's those of the reads that map to the row, and a
   Kalshi lane's those that went through that lane.
   */
  lemma {:induction false} CellsAreCounts(g: Registry, issued: seq<Read>, log: seq<Move>, v: Venue, row: string,
                                          m: Metric)
    requires ValidLog(issued, log)
    ensures var c := After(g, issued, log);
      && At(c.venues, Cell(v, m)) == Moved(log, VenueReads(issued, v), m)
      && At(c.rows, RowCell(v, row, m)) == Moved(log, RowReads(g, issued, RowKey(v, row)), m)
      && At(c.prediction, LaneCell(row, m)) == Moved(log, LaneReads(g, issued, row, false), m)
      && At(c.perps, LaneCell(row, m)) == Moved(log, LaneReads(g, issued, row, true), m)
  {
    hide Incremented, Registry.Row;
    if log != [] {
      var rest, last := log[..|log| - 1], log[|log| - 1];
      CellsAreCounts(g, issued, rest, v, row, m);
      if last.action.Count? {
        CellStep(g, After(g, issued, rest), issued[last.read], last.action.metric, v, row, m);
      }
    }
  }

  // ---------------------------------------------------------------- reachable logs

  /** How a caller's request starts: refused, answered at once, joined to a fetch, or leading one. */
  datatype Opening = Unavailable | Suspended | Closing | Hit | Coalesced | Leading

  function Opened(o: Opening): Trace {
    match o
    case Unavailable => []
    case Suspended => [Count(SuspendedRefusals)]
    case Closing => [Count(RequestsServed), Count(BrokerFailures)]
    case Hit => [Count(RequestsServed), Count(CacheHits)]
    case Coalesced => [Count(RequestsServed), Count(CoalescedRequests)]
    case Leading => [Count(RequestsServed)]
  }

  /** The trace is what some upstream read of this venue does, in some world. */
  ghost predicate IsFetch(r: Read, trace: Trace) {
    exists settings, quote, rounds, outcome :: Fetches(settings, r.venue, quote, rounds, outcome, trace)
  }

  /** Everything the broker may do for one entry: a request from start to end, or the note that a caller hung up. */
  ghost predicate MayDo(r: Read, o: Opening, fetch: Trace, whole: Trace) {
    || whole == [Count(CallerDisconnects)]
    || (whole == Opened(o) + fetch && (fetch == [] || (o.Leading? && IsFetch(r, fetch))))
  }

  /** What has been done so far: the entry may be under way, cancelled or finished. */
  ghost predicate Underway(r: Read, trace: Trace) {
    exists o, fetch, whole :: MayDo(r, o, fetch, whole) && trace <= whole
  }

  /** A log that any number of requests, fetches, cancellations and hang-ups can produce. */
  ghost predicate Reachable(issued: seq<Read>, log: seq<Move>) {
    ValidLog(issued, log) && forall r :: 0 <= r < |issued| ==> Underway(issued[r], Project(log, r))
  }

  lemma {:induction false} TotalConcat(a: Trace, b: Trace)
    ensures Total(a + b) == Merge(Total(a), Total(b))
  {
    hide Add, Merge;
    if b == [] {
      assert a + b == a;
      MergeNothing(Total(a));
    } else {
      var rest, last := b[..|b| - 1], b[|b| - 1];
      TotalConcat(a, rest);
      assert (a + b)[..|a + b| - 1] == a + rest && (a + b)[|a + b| - 1] == last;
      MergeAdd(Total(a), Total(rest), last);
    }
  }

  lemma MergeNothing(t: Totals)
    ensures Merge(t, Total([])) == t == Merge(Total([]), t)
  {
  }

  /** Starting a request moves none of the balanced counters. */
  lemma OpeningIsNeutral(o: Opening, n: nat)
    requires n <= |Opened(o)|
    ensures Total(Opened(o)[..n]) == Total([])
  {
    var t := Opened(o)[..n];
    assert Total(t) == if t == [] then Total([]) else Add(Total(t[..|t| - 1]), t[|t| - 1]);
    if |t| == 2 {
      assert t[..1][..0] == [] && Total(t[..1]) == Add(Total([]), t[0]);
    } else if |t| == 1 {
      assert t[..0] == [];
    }
  }

  lemma NoteIsNeutral(n: nat)
    requires n <= 1
    ensures Total([Count(CallerDisconnects)][..n]) == Total([])
  {
    if n == 1 {
      assert [Count(CallerDisconnects)][..1][..0] == [];
    } else {
      assert [Count(CallerDisconnects)][..0] == [];
    }
  }

  /** However far an entry has come, its own counters are balanced. */
  lemma UnderwayBalanced(r: Read, trace: Trace)
    requires Underway(r, trace)
    ensures Balanced(Total(trace))
  {
    hide Add, Fetches;
    var o, fetch, whole :| MayDo(r, o, fetch, whole) && trace <= whole;
    var n, start := |trace|, Opened(o);
    assert trace == whole[..n];
    if whole == [Count(CallerDisconnects)] {
      NoteIsNeutral(n);
    } else if n <= |start| {
      assert trace == start[..n];
      OpeningIsNeutral(o, n);
    } else {
      var settings, quote, rounds, outcome :| Fetches(settings, r.venue, quote, rounds, outcome, fetch);
      FetchBalancedSoFar(settings, r.venue, quote, rounds, outcome, fetch, n - |start|);
      assert start[..|start|] == start && trace == start + fetch[..n - |start|];
      OpeningIsNeutral(o, |start|);
      TotalConcat(start, fetch[..n - |start|]);
      MergeNothing(Total(fetch[..n - |start|]));
    }
  }

  /**
   In every reachable state of any number of interleaved requests, finished or
   not, each row's throttles, stopgaps, timeouts and connection failures together
   never exceed its upstream requests, which never exceed its admissions.
   */
  lemma RowsBalanced(g: Registry, issued: seq<Read>, log: seq<Move>, key: RowKey)
    requires Reachable(issued, log)
    ensures var c := After(g, issued, log);
      Setbacks(c, key) <= At(c.rows, RowCell(key.venue, key.row, UpstreamRequests)) <= At(c.admissions, key)
  {
    hide After, GroupTotal, Setbacks, Balanced, Underway;
    var group := RowReads(g, issued, key);
    forall r | r in group ensures Balanced(Total(Project(log, r))) {
      UnderwayBalanced(issued[r], Project(log, r));
    }
    GroupBalanced(log, group);
    RowIsGroup(g, issued, log, key);
    BalancedMeans(GroupTotal(log, group));
  }

  lemma BalancedMeans(t: Totals)
    requires Balanced(t)
    ensures t.setbacks <= t.requests <= t.admits
  {
  }
}
