/**
 Where answers come from: the state's own history is what the events say happened,
 so every answer handed over is what a fetch for the caller's key really returned.
 */
module FlightHistory {
  import opened SingleFlight

  /** Event n was possible when it came, so it took effect. */
  predicate Happened(c: Config, events: seq<Event>, n: nat)
    requires n < |events|
  {
    Possible(Run(c, events[..n]), events[n])
  }

  /** Event n is the end of this fetch, with this landing. */
  predicate EndsAt(c: Config, events: seq<Event>, n: nat, task: nat, landing: Landing)
    requires n < |events|
  {
    Happened(c, events, n) && events[n].LandEvent? && events[n].task == task && events[n].landing == landing
  }

  /** Event n is a read of this key that started this fetch. */
  predicate StartsAt(c: Config, events: seq<Event>, n: nat, task: nat, key: Key)
    requires n < |events|
  {
    && Happened(c, events, n) && events[n].GetEvent? && events[n].key == key
    && Answered(c, Run(c, events[..n]), key, events[n].now) == Lead(task)
  }

  /** Event n is the call itself, for this key. */
  predicate AsksAt(c: Config, events: seq<Event>, n: nat, call: nat, key: Key)
    requires n < |events|
  {
    Happened(c, events, n) && events[n].GetEvent? && events[n].call == call && events[n].key == key
  }

  ghost predicate Ended(c: Config, events: seq<Event>, task: nat, landing: Landing) {
    exists n :: 0 <= n < |events| && EndsAt(c, events, n, task, landing)
  }

  ghost predicate Started(c: Config, events: seq<Event>, task: nat, key: Key) {
    exists n :: 0 <= n < |events| && StartsAt(c, events, n, task, key)
  }

  ghost predicate Asked(c: Config, events: seq<Event>, call: nat, key: Key) {
    exists n :: 0 <= n < |events| && AsksAt(c, events, n, call, key)
  }

  // ---------------------------------------------------------------- one more event

  lemma EarlierSame(c: Config, events: seq<Event>, e: Event, n: nat)
    requires n < |events|
    ensures (events + [e])[..n] == events[..n] && (events + [e])[n] == events[n]
    ensures Happened(c, events + [e], n) == Happened(c, events, n)
  {
    assert (events + [e])[..n] == events[..n];
  }

  lemma RunSnoc(c: Config, events: seq<Event>, e: Event)
    ensures Run(c, events + [e]) == Next(c, Run(c, events), e)
    ensures Happened(c, events + [e], |events|) == Possible(Run(c, events), e)
  {
    assert (events + [e])[..|events|] == events;
  }

  lemma EndedSnoc(c: Config, events: seq<Event>, e: Event, task: nat, landing: Landing)
    ensures Ended(c, events + [e], task, landing) <==>
              Ended(c, events, task, landing)
              || (Possible(Run(c, events), e) && e.LandEvent? && e.task == task && e.landing == landing)
  {
    hide Run, Possible;
    var all := events + [e];
    RunSnoc(c, events, e);
    if n :| 0 <= n < |events| && EndsAt(c, events, n, task, landing) {
      EarlierSame(c, events, e, n);
      assert EndsAt(c, all, n, task, landing);
    }
    if n :| 0 <= n < |all| && EndsAt(c, all, n, task, landing) {
      if n < |events| {
        EarlierSame(c, events, e, n);
        assert EndsAt(c, events, n, task, landing);
      }
    }
    assert EndsAt(c, all, |events|, task, landing) <==>
        Possible(Run(c, events), e) && e.LandEvent? && e.task == task && e.landing == landing;
  }

  lemma StartedSnoc(c: Config, events: seq<Event>, e: Event, task: nat, key: Key)
    ensures Started(c, events + [e], task, key) <==>
              Started(c, events, task, key)
              || (Possible(Run(c, events), e) && e.GetEvent? && e.key == key
                  && Answered(c, Run(c, events), key, e.now) == Lead(task))
  {
    hide Run, Possible, Answered;
    var all := events + [e];
    RunSnoc(c, events, e);
    assert all[..|events|] == events;
    if n :| 0 <= n < |events| && StartsAt(c, events, n, task, key) {
      EarlierSame(c, events, e, n);
      assert StartsAt(c, all, n, task, key);
    }
    if n :| 0 <= n < |all| && StartsAt(c, all, n, task, key) {
      if n < |events| {
        EarlierSame(c, events, e, n);
        assert StartsAt(c, events, n, task, key);
      }
    }
    assert StartsAt(c, all, |events|, task, key) <==>
        Possible(Run(c, events), e) && e.GetEvent? && e.key == key
            && Answered(c, Run(c, events), key, e.now) == Lead(task);
  }

  lemma AskedSnoc(c: Config, events: seq<Event>, e: Event, call: nat, key: Key)
    ensures Asked(c, events + [e], call, key) <==>
              Asked(c, events, call, key)
              || (Possible(Run(c, events), e) && e.GetEvent? && e.call == call && e.key == key)
  {
    hide Run, Possible;
    var all := events + [e];
    RunSnoc(c, events, e);
    if n :| 0 <= n < |events| && AsksAt(c, events, n, call, key) {
      EarlierSame(c, events, e, n);
      assert AsksAt(c, all, n, call, key);
    }
    if n :| 0 <= n < |all| && AsksAt(c, all, n, call, key) {
      if n < |events| {
        EarlierSame(c, events, e, n);
        assert AsksAt(c, events, n, call, key);
      }
    }
    assert AsksAt(c, all, |events|, call, key) <==>
        Possible(Run(c, events), e) && e.GetEvent? && e.call == call && e.key == key;
  }

  // ---------------------------------------------------------------- fetches and their ends

  /** What one event does to the table of fetches and the table of their results. */
  lemma FetchTables(c: Config, s: State, e: Event)
    ensures Next(c, s, e).fetched ==
              if Possible(s, e) && e.GetEvent? && Answered(c, s, e.key, e.now).Lead?
              then s.fetched[s.next := e.key] else s.fetched
    ensures Next(c, s, e).results ==
              if Possible(s, e) && e.LandEvent? then s.results[e.task := e.landing] else s.results
  {
    hide Trimmed, Touched, Looked;
    match e
    case GetEvent(call, key, now) =>
      LookedSame(c, s, key, now);
      TouchedKeeps(s, key);
    case LandEvent(task, landing, now) => if Possible(s, e) { LandTables(c, s, task, landing, now); }
    case DeliverEvent(call) =>
    case LeaveEvent(call) =>
  }

  lemma LandTables(c: Config, s: State, task: nat, landing: Landing, now: real)
    requires task in s.fetched
    ensures Land(c, s, task, landing, now).fetched == s.fetched
    ensures Land(c, s, task, landing, now).results == s.results[task := landing]
    ensures Land(c, s, task, landing, now).waiting == s.waiting && Land(c, s, task, landing, now).given == s.given
  {
    hide Trimmed, Touched;
    LandSame(c, s, s, task, landing, now);
    if landing.Landed? {
      TrimTables(c, Placed(c, s, s.fetched[task], landing.response, now));
      TouchedKeeps(s, s.fetched[task]);
    }
  }

  lemma {:induction false} TrimTables(c: Config, s: State)
    ensures Trimmed(c, s) == s.(order := Trimmed(c, s).order, entries := Trimmed(c, s).entries,
                                evicted := Trimmed(c, s).evicted)
    decreases |s.order|
  {
    if |s.order| > c.maxEntries {
      TrimTables(c, s.(order := s.order[1..], entries := s.entries - {s.order[0]},
                       evicted := s.evicted + {s.order[0]}));
    }
  }

  /**
   The table of results is what the events say: a fetch has ended with a landing if
   and only if an event that happened ended it with exactly that landing.
   */
  lemma {:induction false} ResultsAreLandings(c: Config, events: seq<Event>, task: nat, landing: Landing)
    ensures var s := Run(c, events);
      (task in s.results && s.results[task] == landing) <==> Ended(c, events, task, landing)
    decreases |events|
  {
    hide Run, Next, SingleFlight.Ok, Ended;
    if events == [] {
      NothingYet(c);
      assert !Ended(c, events, task, landing) by { NothingEnded(c, task, landing); }
    } else {
      var rest, e := events[..|events| - 1], events[|events| - 1];
      var s := Run(c, rest);
      assert rest + [e] == events;
      ResultsAreLandings(c, rest, task, landing);
      RunSnoc(c, rest, e);
      EndedSnoc(c, rest, e, task, landing);
      FetchTables(c, s, e);
      RunOk(c, rest);
      RunningHasNoResult(c, s);
    }
  }

  lemma NothingYet(c: Config)
    ensures Run(c, []) == START
  {
  }

  lemma NothingEnded(c: Config, task: nat, landing: Landing)
    ensures !Ended(c, [], task, landing)
  {
  }

  lemma RunningHasNoResult(c: Config, s: State)
    requires SingleFlight.Ok(c, s)
    ensures forall t :: t in s.running ==> t !in s.results
    ensures s.next !in s.fetched
    ensures forall t :: t in s.results ==> t in s.fetched
  {
    hide CacheOk, WaitersOk, GivenOk;
  }

  /** A fetch is for a key if and only if a read of that key started it. */
  lemma {:induction false} FetchedWasStarted(c: Config, events: seq<Event>, task: nat, key: Key)
    ensures var s := Run(c, events);
      (task in s.fetched && s.fetched[task] == key) <==> Started(c, events, task, key)
    decreases |events|
  {
    hide Run, Next, SingleFlight.Ok, Started;
    if events == [] {
      NothingYet(c);
      assert !Started(c, events, task, key) by { NothingStarted(c, task, key); }
    } else {
      var rest, e := events[..|events| - 1], events[|events| - 1];
      var s := Run(c, rest);
      assert rest + [e] == events;
      FetchedWasStarted(c, rest, task, key);
      RunSnoc(c, rest, e);
      StartedSnoc(c, rest, e, task, key);
      FetchTables(c, s, e);
      RunOk(c, rest);
      RunningHasNoResult(c, s);
    }
  }

  lemma NothingStarted(c: Config, task: nat, key: Key)
    ensures !Started(c, [], task, key)
  {
  }

  // ---------------------------------------------------------------- calls and their answers

  /** What one event does to the waiting callers and to what has been handed over. */
  lemma WaitTables(c: Config, s: State, e: Event)
    ensures var z := Next(c, s, e);
      if !Possible(s, e) then z == s
      else
        match e
        case GetEvent(call, key, now) =>
          (match Answered(c, s, key, now)
           case Hit(r) => z.waiting == s.waiting && z.given == s.given + [FromCache(call, key, r)]
           case Join(t) => z.waiting == s.waiting[call := Waiting(key, t)] && z.given == s.given
           case Lead(t) => z.waiting == s.waiting[call := Waiting(key, t)] && z.given == s.given)
        case LandEvent(_, _, _) => z.waiting == s.waiting && z.given == s.given
        case DeliverEvent(call) =>
          var w := s.waiting[call];
          && z.waiting == s.waiting - {call}
          && z.given == s.given + [FromFetch(call, w.key, w.task, s.results[w.task])]
        case LeaveEvent(call) => z.waiting == s.waiting - {call} && z.given == s.given
  {
    hide Trimmed, Touched, Looked, Land;
    match e
    case GetEvent(call, key, now) =>
      LookedSame(c, s, key, now);
      TouchedKeeps(s, key);
    case LandEvent(task, landing, now) => if Possible(s, e) { LandTables(c, s, task, landing, now); }
    case DeliverEvent(call) =>
    case LeaveEvent(call) =>
  }

  /** Whoever waits or was answered asked, for exactly that key. */
  ghost predicate AskedOk(c: Config, events: seq<Event>) {
    var s := Run(c, events);
    && (forall call :: call in s.waiting ==> Asked(c, events, call, s.waiting[call].key))
    && (forall i :: 0 <= i < |s.given| ==> Asked(c, events, s.given[i].call, s.given[i].key))
  }

  lemma {:induction false} WaitersAsked(c: Config, events: seq<Event>)
    ensures AskedOk(c, events)
    decreases |events|
  {
    hide Run, Next, Asked, Answered;
    if events == [] {
      NothingYet(c);
    } else {
      var rest, e := events[..|events| - 1], events[|events| - 1];
      var s, z := Run(c, rest), Run(c, events);
      assert rest + [e] == events;
      WaitersAsked(c, rest);
      RunSnoc(c, rest, e);
      WaitTables(c, s, e);
      forall call | call in z.waiting ensures Asked(c, events, call, z.waiting[call].key) {
        AskedSnoc(c, rest, e, call, z.waiting[call].key);
      }
      forall i | 0 <= i < |z.given| ensures Asked(c, events, z.given[i].call, z.given[i].key) {
        AskedSnoc(c, rest, e, z.given[i].call, z.given[i].key);
        assert i < |s.given| ==> z.given[i] == s.given[i];
      }
    }
  }

  // ---------------------------------------------------------------- stores and uses

  /** What an event puts on the log of stores: the 2xx end of a fetch of a cached route. */
  function NewStores(c: Config, s: State, e: Event): seq<Stored> {
    match e
    case LandEvent(task, Landed(r), now) =>
      if Possible(s, e) && c.Ttl(s.fetched[task]) > 0.0 && 200 <= r.status <= 299
      then [Stored(s.fetched[task], r, now)] else []
    case _ => []
  }

  /** Which cached key an event uses: one it finds fresh, or one it stores. */
  function NewUses(c: Config, s: State, e: Event): seq<Key> {
    match e
    case GetEvent(_, key, now) => if Possible(s, e) && Answered(c, s, key, now).Hit? then [key] else []
    case LandEvent(_, _, _) => if NewStores(c, s, e) == [] then [] else [NewStores(c, s, e)[0].key]
    case _ => []
  }

  function StoredBy(c: Config, events: seq<Event>): seq<Stored> {
    if events == [] then []
    else
      var rest, e := events[..|events| - 1], events[|events| - 1];
      StoredBy(c, rest) + NewStores(c, Run(c, rest), e)
  }

  function UsedBy(c: Config, events: seq<Event>): seq<Key> {
    if events == [] then []
    else
      var rest, e := events[..|events| - 1], events[|events| - 1];
      UsedBy(c, rest) + NewUses(c, Run(c, rest), e)
  }

  lemma LandHistory(c: Config, s: State, task: nat, landing: Landing, now: real)
    requires Possible(s, LandEvent(task, landing, now))
    ensures var z, e := Land(c, s, task, landing, now), LandEvent(task, landing, now);
      z.stores == s.stores + NewStores(c, s, e) && z.touches == s.touches + NewUses(c, s, e)
  {
    hide Trimmed, Prelude.Without;
    if landing.Landed? {
      TrimTables(c, Placed(c, s, s.fetched[task], landing.response, now));
    }
  }

  lemma GetHistory(c: Config, s: State, call: nat, key: Key, now: real)
    ensures Get(c, s, call, key, now).stores == s.stores
    ensures Get(c, s, call, key, now).touches
            == s.touches + if Answered(c, s, key, now).Hit? then [key] else []
  {
    hide Touched, Looked, IsFresh;
    LookedSame(c, s, key, now);
    CacheTouches(c, s, key, now);
  }

  /** A hit uses its key, and looking without one uses nothing. */
  lemma CacheTouches(c: Config, s: State, key: Key, now: real)
    ensures Looked(c, s, key, now).touches == s.touches
    ensures Touched(s, key).touches == s.touches + [key] && Touched(s, key).stores == s.stores
  {
    hide Prelude.Without;
  }

  lemma HistoryStep(c: Config, s: State, e: Event)
    ensures Next(c, s, e).stores == s.stores + NewStores(c, s, e)
    ensures Next(c, s, e).touches == s.touches + NewUses(c, s, e)
  {
    hide Get, Land, Answered;
    match e
    case GetEvent(call, key, now) => GetHistory(c, s, call, key, now);
    case LandEvent(task, landing, now) => if Possible(s, e) { LandHistory(c, s, task, landing, now); }
    case DeliverEvent(call) =>
    case LeaveEvent(call) =>
  }

  /**
   The two logs behind the cache are what happened: a response is stored exactly when
   a fetch of a cached route ends with a 2xx, and a key is used exactly when it is
   stored or found fresh.
   */
  lemma {:induction false} LogsAreEvents(c: Config, events: seq<Event>)
    ensures Run(c, events).stores == StoredBy(c, events)
    ensures Run(c, events).touches == UsedBy(c, events)
    decreases |events|
  {
    hide Next, NewStores, NewUses;
    if events != [] {
      LogsAreEvents(c, events[..|events| - 1]);
      HistoryStep(c, Run(c, events[..|events| - 1]), events[|events| - 1]);
    }
  }

  /** A fetch for this key really returned this response, a 2xx. */
  ghost predicate Fetched(c: Config, events: seq<Event>, key: Key, r: Response) {
    exists task :: Started(c, events, task, key) && Ended(c, events, task, Landed(r)) && 200 <= r.status <= 299
  }

  lemma {:induction false} StoresWereFetched(c: Config, events: seq<Event>, i: nat)
    requires i < |Run(c, events).stores|
    ensures Fetched(c, events, Run(c, events).stores[i].key, Run(c, events).stores[i].response)
    decreases |events|
  {
    hide Run, Next, Ended, Started, SingleFlight.Ok;
    if events == [] {
      NothingYet(c);
    } else {
      var rest, e := events[..|events| - 1], events[|events| - 1];
      var s, z := Run(c, rest), Run(c, events);
      assert rest + [e] == events;
      RunSnoc(c, rest, e);
      HistoryStep(c, s, e);
      var key, r := z.stores[i].key, z.stores[i].response;
      if i < |s.stores| {
        StoresWereFetched(c, rest, i);
        var task :| Started(c, rest, task, key) && Ended(c, rest, task, Landed(r));
        StartedSnoc(c, rest, e, task, key);
        EndedSnoc(c, rest, e, task, Landed(r));
        assert Started(c, events, task, key) && Ended(c, events, task, Landed(r));
      } else {
        FetchedWasStarted(c, rest, e.task, key);
        StartedSnoc(c, rest, e, e.task, key);
        EndedSnoc(c, rest, e, e.task, Landed(r));
        assert Started(c, events, e.task, key) && Ended(c, events, e.task, Landed(r));
      }
    }
  }

  // ---------------------------------------------------------------- where answers come from

  /** What was handed over is what a fetch of that key really returned. */
  ghost predicate Genuine(c: Config, events: seq<Event>, g: Given) {
    match g
    case FromFetch(_, key, task, landing) => Started(c, events, task, key) && Ended(c, events, task, landing)
    case FromCache(_, key, response) => Fetched(c, events, key, response)
  }

  /**
   In every run, whatever a caller is handed, it asked for that exact key, and what
   it is handed is what a fetch of that key really returned: the landing of the fetch
   it waited for, or out of the cache the 2xx of an earlier one.
   */
  lemma AnswersAreReal(c: Config, events: seq<Event>, i: nat)
    requires i < |Run(c, events).given|
    ensures Asked(c, events, Run(c, events).given[i].call, Run(c, events).given[i].key)
    ensures Genuine(c, events, Run(c, events).given[i])
  {
    hide Run, Asked, Ended, Started, Fetched;
    var s := Run(c, events);
    WaitersAsked(c, events);
    OwnKeyDelivered(c, events, i);
    match s.given[i]
    case FromFetch(_, key, task, landing) =>
      FetchedWasStarted(c, events, task, key);
      ResultsAreLandings(c, events, task, landing);
    case FromCache(_, key, response) =>
      var j :| 0 <= j < |s.stores| && s.stores[j].key == key && s.stores[j].response == response;
      StoresWereFetched(c, events, j);
  }

  /** A caller that still waits for a fetch that has ended is handed exactly that end when its turn comes. */
  lemma DeliversTheEnd(c: Config, events: seq<Event>, call: nat, landing: Landing)
    requires var s := Run(c, events); call in s.waiting && Ended(c, events, s.waiting[call].task, landing)
    ensures var s, z := Run(c, events), Run(c, events + [DeliverEvent(call)]);
      && z.given == s.given + [FromFetch(call, s.waiting[call].key, s.waiting[call].task, landing)]
      && call !in z.waiting
  {
    hide Run, Next, Ended;
    var s := Run(c, events);
    ResultsAreLandings(c, events, s.waiting[call].task, landing);
    RunSnoc(c, events, DeliverEvent(call));
    WaitTables(c, s, DeliverEvent(call));
  }
}
