/**
 What the broker counts of shared reads, held against what really became of them.
 */
module RequestCounts {
  import SF = SingleFlight
  import FH = FlightHistory
  import PU = Publication
  import opened RetryLoop
  import opened Metrics
  import opened ReadAnswers

  /** How a shareable read starts that finds the gate and the broker open, by what the lookup says. */
  function OpeningOf(a: SF.Answer): Opening {
    match a
    case Hit(_) => Opening.Hit
    case Join(_) => Coalesced
    case Lead(_) => Leading
  }

  /** The counters one event moves before any fetch. */
  function Counting(c: SF.Config, s: SF.State, e: SF.Event): Trace {
    if e.GetEvent? && SF.Possible(s, e) then Opened(OpeningOf(SF.Answered(c, s, e.key, e.now))) else []
  }

  function Counted(c: SF.Config, events: seq<SF.Event>): Trace {
    if events == [] then []
    else
      var rest, e := events[..|events| - 1], events[|events| - 1];
      Counted(c, rest) + Counting(c, SF.Run(c, rest), e)
  }

  /** How many of the answers came out of the cache. */
  function FromCache(given: seq<SF.Given>): nat {
    if given == [] then 0
    else FromCache(given[..|given| - 1]) + if given[|given| - 1].FromCache? then 1 else 0
  }

  lemma FromCacheSnoc(given: seq<SF.Given>, g: SF.Given)
    ensures FromCache(given + [g]) == FromCache(given) + if g.FromCache? then 1 else 0
  {
    assert (given + [g])[..|given|] == given;
  }

  /** Calls made, answers out of the cache and fetches started, all as counted. */
  ghost predicate Agrees(s: SF.State, trace: Trace) {
    && Times(trace, Count(RequestsServed)) == |s.asked|
    && Times(trace, Count(CacheHits)) == FromCache(s.given)
    && Times(trace, Count(RequestsServed))
       == Times(trace, Count(CacheHits)) + Times(trace, Count(CoalescedRequests)) + s.next
  }

  lemma OpenedTimes(o: Opening, m: Metric)
    ensures Times(Opened(o), Count(m))
            == (if m == SuspendedRefusals && o.Suspended? then 1 else 0)
               + (if m == RequestsServed && !o.Suspended? && !o.Unavailable? then 1 else 0)
               + (if m == BrokerFailures && o.Closing? then 1 else 0)
               + (if m == CacheHits && o.Hit? then 1 else 0)
               + if m == CoalescedRequests && o.Coalesced? then 1 else 0
  {
    hide Times;
    NoTimes(Count(m));
    TimesOne(Count(SuspendedRefusals), Count(m));
    TimesOne(Count(RequestsServed), Count(m));
    TimesTwo(Count(RequestsServed), Count(BrokerFailures), Count(m));
    TimesTwo(Count(RequestsServed), Count(CacheHits), Count(m));
    TimesTwo(Count(RequestsServed), Count(CoalescedRequests), Count(m));
  }

  /** What one event does to the calls, the answers and the fetches. */
  lemma CallTables(c: SF.Config, s: SF.State, e: SF.Event)
    ensures var z := SF.Next(c, s, e);
      if e.GetEvent? && SF.Possible(s, e) then
        var a := SF.Answered(c, s, e.key, e.now);
        && z.asked == s.asked + {e.call} && e.call !in s.asked
        && z.next == s.next + (if a.Lead? then 1 else 0)
        && FromCache(z.given) == FromCache(s.given) + (if a.Hit? then 1 else 0)
      else z.asked == s.asked && z.next == s.next && FromCache(z.given) == FromCache(s.given)
  {
    hide SF.Trimmed, SF.Touched, SF.Looked, FromCache;
    FH.WaitTables(c, s, e);
    match e
    case GetEvent(call, key, now) =>
      SF.LookedSame(c, s, key, now);
      SF.TouchedKeeps(s, key);
      if SF.Possible(s, e) && SF.Answered(c, s, key, now).Hit? {
        FromCacheSnoc(s.given, SF.FromCache(call, key, SF.Answered(c, s, key, now).response));
      }
    case LandEvent(task, landing, now) =>
      if SF.Possible(s, e) && landing.Landed? {
        FH.TrimTables(c, SF.Placed(c, s, s.fetched[task], landing.response, now));
        SF.TouchedKeeps(s, s.fetched[task]);
      }
    case DeliverEvent(call) =>
      if SF.Possible(s, e) {
        var w := s.waiting[call];
        FromCacheSnoc(s.given, SF.FromFetch(call, w.key, w.task, s.results[w.task]));
      }
    case LeaveEvent(call) =>
  }

  lemma CountingStep(c: SF.Config, s: SF.State, e: SF.Event, trace: Trace)
    requires Agrees(s, trace)
    ensures Agrees(SF.Next(c, s, e), trace + Counting(c, s, e))
  {
    hide SF.Next, SF.Possible, SF.Answered, Opened, Times, FromCache;
    CallTables(c, s, e);
    if e.GetEvent? && SF.Possible(s, e) {
      var o := OpeningOf(SF.Answered(c, s, e.key, e.now));
      forall m ensures Times(trace + Opened(o), Count(m)) == Times(trace, Count(m)) + Times(Opened(o), Count(m)) {
        TimesConcat(trace, Opened(o), Count(m));
      }
      OpenedTimes(o, RequestsServed);
      OpenedTimes(o, CacheHits);
      OpenedTimes(o, CoalescedRequests);
    } else {
      assert trace + [] == trace;
    }
  }

  /**
   The request counters tell what happened: in every interleaving each call is counted
   once, cache hits are the answers handed out of the cache, and every other call joined
   a fetch or started one.
   */
  lemma {:induction false} CountsAreCalls(c: SF.Config, events: seq<SF.Event>)
    ensures Agrees(SF.Run(c, events), Counted(c, events))
    decreases |events|
  {
    hide Agrees, Counting, SF.Next;
    if events == [] {
      NothingCounted(c);
    } else {
      var rest := events[..|events| - 1];
      CountsAreCalls(c, rest);
      CountingStep(c, SF.Run(c, rest), events[|events| - 1], Counted(c, rest));
    }
  }

  lemma NothingCounted(c: SF.Config)
    ensures Agrees(SF.START, [])
  {
    hide Times;
    NoTimes(Count(RequestsServed));
    NoTimes(Count(CacheHits));
    NoTimes(Count(CoalescedRequests));
  }

  // ---------------------------------------------------------------- at the gate

  /** How any shareable read starts: by the gate's decision, by whether the broker is closing, then by the lookup. */
  function Entry(d: PU.Decision, closing: bool, a: SF.Answer): Opening {
    match d
    case Unavailable => Opening.Unavailable
    case Refuse(_, _) => Suspended
    case Let(_) => if closing then Closing else OpeningOf(a)
  }

  /** There is a policy file that this broker accepts. */
  predicate Usable(apps: PU.Apps, w: PU.Whole) {
    w.shared.file.Some? && PU.Acceptable(apps.registry, w.shared.file.value.content)
  }

  /**
   What is counted at the gate: nothing without a usable policy, a refusal exactly when
   the caller is stopped in the database, and otherwise a request served, which is a
   failure as well exactly when the broker is closing.
   */
  lemma GateCounts(apps: PU.Apps, w: PU.Whole, caller: string, closing: bool, a: SF.Answer)
    requires PU.WholeOk(apps, w)
    ensures var t := Opened(Entry(PU.Uncached(apps, w.shared.file, caller), closing, a));
            var stopped := PU.StoppedFor(apps, w.shared.db, caller);
      && Times(t, Count(SuspendedRefusals)) == (if Usable(apps, w) && stopped then 1 else 0)
      && Times(t, Count(RequestsServed)) == (if Usable(apps, w) && !stopped then 1 else 0)
      && Times(t, Count(BrokerFailures)) == (if Usable(apps, w) && !stopped && closing then 1 else 0)
      && Times(t, Count(CacheHits)) == if Usable(apps, w) && !stopped && !closing && a.Hit? then 1 else 0
  {
    hide Times, Opened, PU.Uncached, PU.StoppedFor, PU.Acceptable, PU.Coherent, PU.Known, PU.ReaderOk;
    var d := PU.Uncached(apps, w.shared.file, caller);
    var o := Entry(d, closing, a);
    OpenedTimes(o, SuspendedRefusals);
    OpenedTimes(o, RequestsServed);
    OpenedTimes(o, BrokerFailures);
    OpenedTimes(o, CacheHits);
    PU.DecisionExactly(apps, w, caller);
    if Usable(apps, w) && d.Refuse? {
      PU.InForceStops(apps, w, d.scope, caller);
    }
  }
}
