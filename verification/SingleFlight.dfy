/**
 Coalescing and caching of identical reads. A caller's lookup through
 join-or-create is one atomic step; a fetch's store through in-flight removal is
 another; answers handed over and cancellations happen in any order between them.
 */
module SingleFlight {
  import opened Prelude

  /** Venue, path, query, credential scope and accept header: the whole identity of a read. */
  datatype Key = Key(venue: string, path: string, query: string, scope: string, accept: string)

  datatype Response = Response(status: int, body: string)

  /** How a fetch ended: with a response, or with an exception or cancellation. */
  datatype Landing = Landed(response: Response) | Failed

  datatype Entry = Entry(response: Response, expiresAt: real)

  datatype Config = Config(ttl: (string, string) -> real, maxEntries: nat) {
    function Ttl(key: Key): real { ttl(key.venue, key.path) }
  }

  /** One cacheable response, at the instant it was stored. */
  datatype Stored = Stored(key: Key, response: Response, at: real)

  datatype Waiting = Waiting(key: Key, task: nat)

  /** What a caller was handed: a cached response, or how the fetch it waited for ended. */
  datatype Given =
    | FromCache(call: nat, key: Key, response: Response)
    | FromFetch(call: nat, key: Key, task: nat, landing: Landing)

  /**
   order, entries: the cache, least recently used first; inflight: the shared
   fetch of each key; running: the fetches that have not reached their last
   step; fetched: which key every fetch ever started was for; results: how the
   others ended; waiting: the callers blocked on a fetch. asked, given, stores,
   touches, evicted and clock are history: every call ever made, every answer
   handed over, every store, every use of a cache key, the keys pushed out since
   their last store, and the last instant seen.
   */
  datatype State = State(
    order: seq<Key>, entries: map<Key, Entry>,
    inflight: map<Key, nat>, running: set<nat>, fetched: map<nat, Key>, results: map<nat, Landing>,
    waiting: map<nat, Waiting>, next: nat, asked: set<nat>, given: seq<Given>,
    stores: seq<Stored>, touches: seq<Key>, evicted: set<Key>, clock: real)

  datatype Answer = Hit(response: Response) | Join(task: nat) | Lead(task: nat)

  const START: State := State([], map[], map[], {}, map[], map[], map[], 0, {}, [], [], [], {}, 0.0)

  predicate Cacheable(r: Response) { 200 <= r.status < 300 }

  // ---------------------------------------------------------------- the steps

  predicate IsFresh(s: State, key: Key, now: real) {
    key in s.entries && s.entries[key].expiresAt > now
  }

  function Touched(s: State, key: Key): State {
    s.(order := Without(s.order, key) + [key], touches := s.touches + [key])
  }

  /** An expired entry is dropped when it is looked up. */
  function Dropped(s: State, key: Key): State {
    s.(order := Without(s.order, key), entries := s.entries - {key})
  }

  function Looked(c: Config, s: State, key: Key, now: real): State {
    if c.Ttl(key) > 0.0 && key in s.entries then Dropped(s, key).(clock := now) else s.(clock := now)
  }

  function Answered(c: Config, s: State, key: Key, now: real): Answer {
    if c.Ttl(key) > 0.0 && IsFresh(s, key, now) then Hit(s.entries[key].response)
    else if key in s.inflight then Join(s.inflight[key])
    else Lead(s.next)
  }

  /** A shareable read: from the cache, else from the fetch under way, else from a new fetch. */
  function Get(c: Config, s: State, call: nat, key: Key, now: real): State {
    match Answered(c, s, key, now)
    case Hit(response) => Served(Touched(s, key).(clock := now), call, key, response)
    case Join(t) => Joined(Looked(c, s, key, now), call, key, t)
    case Lead(t) => Led(Looked(c, s, key, now), call, key, t)
  }

  /** A caller is answered from the cache at once. */
  function Served(l: State, call: nat, key: Key, response: Response): State {
    l.(asked := l.asked + {call}, given := l.given + [FromCache(call, key, response)])
  }

  function Joined(l: State, call: nat, key: Key, t: nat): State {
    l.(waiting := l.waiting[call := Waiting(key, t)], asked := l.asked + {call})
  }

  function Led(l: State, call: nat, key: Key, t: nat): State {
    l.(waiting := l.waiting[call := Waiting(key, t)], asked := l.asked + {call},
       inflight := l.inflight[key := t], running := l.running + {t},
       fetched := l.fetched[t := key], next := l.next + 1)
  }

  /** The least recently used keys leave until the cache fits. */
  function Trimmed(c: Config, s: State): State
    decreases |s.order|
  {
    if |s.order| > c.maxEntries then
      Trimmed(c, s.(order := s.order[1..], entries := s.entries - {s.order[0]}, evicted := s.evicted + {s.order[0]}))
    else s
  }

  /** A response is stored as the most recently used, before anything is pushed out. */
  function Placed(c: Config, s: State, key: Key, r: Response, now: real): State {
    Touched(s, key).(entries := s.entries[key := Entry(r, now + c.Ttl(key))],
                     stores := s.stores + [Stored(key, r, now)],
                     evicted := s.evicted - {key})
  }

  function StoredIn(c: Config, s: State, key: Key, r: Response, now: real): State {
    Trimmed(c, Placed(c, s, key, r, now))
  }

  /** A shared fetch ends: a cacheable response is stored, and the key is free again. */
  function Land(c: Config, s: State, task: nat, landing: Landing, now: real): State
    requires task in s.fetched
  {
    var key := s.fetched[task];
    var l := if c.Ttl(key) > 0.0 && landing.Landed? && Cacheable(landing.response)
             then StoredIn(c, s, key, landing.response, now) else s;
    l.(inflight := if key in l.inflight && l.inflight[key] == task then l.inflight - {key} else l.inflight,
       running := l.running - {task}, results := l.results[task := landing], clock := now)
  }

  /** A fetch that has ended hands its result to a caller that waits for it. */
  function Deliver(s: State, call: nat): State
    requires call in s.waiting && s.waiting[call].task in s.results
  {
    var w := s.waiting[call];
    s.(waiting := s.waiting - {call}, given := s.given + [FromFetch(call, w.key, w.task, s.results[w.task])])
  }

  /** A caller is cancelled while it waits. The fetch goes on. */
  function Leave(s: State, call: nat): State {
    s.(waiting := s.waiting - {call})
  }

  datatype Event =
    | GetEvent(call: nat, key: Key, now: real)
    | LandEvent(task: nat, landing: Landing, now: real)
    | DeliverEvent(call: nat)
    | LeaveEvent(call: nat)

  /** The clock does not run backwards, every call is a new one, and only a running fetch can end. */
  predicate Possible(s: State, e: Event) {
    match e
    case GetEvent(call, _, now) => call !in s.asked && s.clock <= now
    case LandEvent(task, _, now) => task in s.running && task in s.fetched && s.clock <= now
    case DeliverEvent(call) => call in s.waiting && s.waiting[call].task in s.results
    case LeaveEvent(call) => call in s.waiting
  }

  function Next(c: Config, s: State, e: Event): State {
    if !Possible(s, e) then s else
    match e
    case GetEvent(call, key, now) => Get(c, s, call, key, now)
    case LandEvent(task, landing, now) => Land(c, s, task, landing, now)
    case DeliverEvent(call) => Deliver(s, call)
    case LeaveEvent(call) => Leave(s, call)
  }

  function Run(c: Config, events: seq<Event>): State {
    if events == [] then START else Next(c, Run(c, events[..|events| - 1]), events[|events| - 1])
  }

  // ---------------------------------------------------------------- history

  /** When key was last used; -1 if never. */
  function LastTouch(touches: seq<Key>, key: Key): (i: int)
    ensures -1 <= i < |touches|
  {
    if touches == [] then -1
    else if touches[|touches| - 1] == key then |touches| - 1
    else LastTouch(touches[..|touches| - 1], key)
  }

  /** The latest response an unbounded log of stores holds for key. */
  function Latest(stores: seq<Stored>, key: Key): Option<Stored> {
    if stores == [] then None
    else if stores[|stores| - 1].key == key then Some(stores[|stores| - 1])
    else Latest(stores[..|stores| - 1], key)
  }

  lemma TouchSnoc(touches: seq<Key>, k: Key, key: Key)
    ensures LastTouch(touches + [k], key) == if k == key then |touches| else LastTouch(touches, key)
  {
    assert (touches + [k])[..|touches|] == touches;
  }

  lemma LatestSnoc(stores: seq<Stored>, r: Stored, key: Key)
    ensures Latest(stores + [r], key) == if r.key == key then Some(r) else Latest(stores, key)
  {
    assert (stores + [r])[..|stores|] == stores;
  }

  // ---------------------------------------------------------------- invariants

  /** The order lists the cached keys, once each, oldest use first, and fits the limit. */
  ghost predicate OrderOk(order: seq<Key>, keys: set<Key>, touches: seq<Key>) {
    && NoDup(order)
    && (forall k :: k in order <==> k in keys)
    && (forall i, j :: 0 <= i < j < |order| ==> LastTouch(touches, order[i]) < LastTouch(touches, order[j]))
  }

  /** What an entry says is what the log of stores says. */
  ghost predicate Backed(c: Config, e: Entry, key: Key, stores: seq<Stored>) {
    match Latest(stores, key)
    case None => false
    case Some(r) =>
      && e.response == r.response && e.expiresAt == r.at + c.Ttl(key)
      && Cacheable(r.response) && c.Ttl(key) > 0.0
  }

  /** A stored response that is no longer cached has expired or was pushed out. */
  ghost predicate Accounted(c: Config, s: State, key: Key) {
    match Latest(s.stores, key)
    case None => true
    case Some(r) => key in s.entries || key in s.evicted || r.at + c.Ttl(key) <= s.clock
  }

  ghost predicate LogOk(c: Config, s: State) {
    && (forall k :: k in s.entries ==> Backed(c, s.entries[k], k, s.stores))
    && (forall k :: Accounted(c, s, k))
    && (forall k :: k in s.entries ==> k !in s.evicted)
  }

  ghost predicate CacheOk(c: Config, s: State) {
    OrderOk(s.order, s.entries.Keys, s.touches) && |s.order| <= c.maxEntries && LogOk(c, s)
  }

  /** One running fetch per key, and none for a cached key. */
  ghost predicate FlightsOk(s: State) {
    && (forall k :: k in s.inflight ==>
          s.inflight[k] in s.running && s.inflight[k] in s.fetched && s.fetched[s.inflight[k]] == k)
    && (forall t :: t in s.running ==> t in s.fetched && s.fetched[t] in s.inflight && s.inflight[s.fetched[t]] == t)
    && (forall t :: t in s.fetched <==> t in s.running || t in s.results)
    && (forall t :: t in s.running ==> t !in s.results)
    && (forall t :: t in s.fetched ==> t < s.next)
    && (forall k :: k in s.inflight ==> k !in s.entries)
  }

  /** Every blocked caller waits for a fetch of its own exact key. */
  ghost predicate WaitersOk(s: State) {
    forall call :: call in s.waiting ==>
      && call in s.asked
      && s.waiting[call].task in s.fetched && s.fetched[s.waiting[call].task] == s.waiting[call].key
  }

  /** An answer is a response once stored for exactly its key, or the end of a fetch of exactly its key. */
  ghost predicate Honest(s: State, g: Given) {
    match g
    case FromCache(_, key, response) =>
      exists i :: 0 <= i < |s.stores| && s.stores[i].key == key && s.stores[i].response == response
    case FromFetch(_, key, task, landing) =>
      task in s.fetched && s.fetched[task] == key && task in s.results && s.results[task] == landing
  }

  /** Every answer is honest, nobody is answered twice, and nobody who was answered still waits. */
  ghost predicate GivenOk(s: State) {
    && (forall i :: 0 <= i < |s.given| ==> Honest(s, s.given[i]))
    && (forall i :: 0 <= i < |s.given| ==> s.given[i].call in s.asked && s.given[i].call !in s.waiting)
    && (forall i, j :: 0 <= i < j < |s.given| ==> s.given[i].call != s.given[j].call)
  }

  ghost predicate Ok(c: Config, s: State) {
    CacheOk(c, s) && FlightsOk(s) && WaitersOk(s) && GivenOk(s)
  }

  // ---------------------------------------------------------------- the order of use

  lemma TouchedOrder(s: State, key: Key, keys: set<Key>)
    requires OrderOk(s.order, s.entries.Keys, s.touches)
    requires keys == s.entries.Keys + {key}
    ensures OrderOk(Touched(s, key).order, keys, Touched(s, key).touches)
    ensures |Touched(s, key).order| == |s.order| + if key in s.entries then 0 else 1
  {
    var rest := Without(s.order, key);
    if key in s.order {
      WithoutContents(s.order, key);
    }
    WithoutOrdered(s.order, key, s.touches);
    forall k ensures LastTouch(s.touches + [key], k) == if k == key then |s.touches| else LastTouch(s.touches, k) {
      TouchSnoc(s.touches, key, k);
    }
  }

  /** Removing a key keeps the others in order of use. */
  lemma WithoutOrdered(order: seq<Key>, key: Key, touches: seq<Key>)
    requires NoDup(order)
    requires forall i, j :: 0 <= i < j < |order| ==> LastTouch(touches, order[i]) < LastTouch(touches, order[j])
    ensures NoDup(Without(order, key)) && key !in Without(order, key)
    ensures forall k :: k in Without(order, key) <==> k in order && k != key
    ensures forall i, j :: 0 <= i < j < |Without(order, key)| ==>
              LastTouch(touches, Without(order, key)[i]) < LastTouch(touches, Without(order, key)[j])
  {
    if key in order {
      WithoutContents(order, key);
    }
  }

  lemma DroppedOrder(s: State, key: Key)
    requires OrderOk(s.order, s.entries.Keys, s.touches) && key in s.entries
    ensures OrderOk(Dropped(s, key).order, Dropped(s, key).entries.Keys, s.touches)
    ensures |Dropped(s, key).order| <= |s.order|
  {
    WithoutOrdered(s.order, key, s.touches);
    WithoutContents(s.order, key);
  }

  // ---------------------------------------------------------------- eviction

  /** Every key that left was used before every key that stayed. */
  ghost predicate LeastRecentLeft(s: State, r: State) {
    forall gone, kept :: gone in s.entries && gone !in r.entries && kept in r.entries ==>
      LastTouch(s.touches, gone) < LastTouch(s.touches, kept)
  }

  lemma {:induction false} TrimmedOk(c: Config, s: State)
    requires OrderOk(s.order, s.entries.Keys, s.touches) && LogOk(c, s)
    ensures CacheOk(c, Trimmed(c, s))
    ensures |Trimmed(c, s).order| == if |s.order| <= c.maxEntries then |s.order| else c.maxEntries
    ensures LeastRecentLeft(s, Trimmed(c, s))
    ensures forall k :: k in Trimmed(c, s).entries ==> k in s.entries
    ensures forall k :: k in s.evicted ==> k in Trimmed(c, s).evicted
    ensures Trimmed(c, s) == s.(order := Trimmed(c, s).order, entries := Trimmed(c, s).entries,
          evicted := Trimmed(c, s).evicted)
    decreases |s.order|
  {
    hide Backed, LastTouch;
    if |s.order| > c.maxEntries {
      var r := EvictedOne(c, s);
      TrimmedOk(c, r);
    }
  }

  lemma EvictedOne(c: Config, s: State) returns (r: State)
    requires OrderOk(s.order, s.entries.Keys, s.touches) && LogOk(c, s) && s.order != []
    ensures r == s.(order := s.order[1..], entries := s.entries - {s.order[0]}, evicted := s.evicted + {s.order[0]})
    ensures OrderOk(r.order, r.entries.Keys, r.touches) && LogOk(c, r)
    ensures LeastRecentLeft(s, r)
  {
    hide Backed, LastTouch, Latest;
    r := s.(order := s.order[1..], entries := s.entries - {s.order[0]}, evicted := s.evicted + {s.order[0]});
    Rotate(s.order);
    forall kept | kept in r.entries ensures LastTouch(s.touches, s.order[0]) < LastTouch(s.touches, kept) {
      var j :| 0 <= j < |s.order| && s.order[j] == kept;
    }
    forall k ensures Accounted(c, r, k) {
      assert Accounted(c, s, k);
    }
  }

  // ---------------------------------------------------------------- every step keeps the invariant

  lemma PlacedLog(c: Config, s: State, key: Key, r: Response, now: real)
    requires LogOk(c, s) && s.clock <= now && Cacheable(r) && c.Ttl(key) > 0.0
    ensures LogOk(c, Placed(c, s, key, r, now))
  {
    hide LastTouch, Latest;
    var p, rec := Placed(c, s, key, r, now), Stored(key, r, now);
    forall k | k in p.entries ensures Backed(c, p.entries[k], k, p.stores) {
      LatestSnoc(s.stores, rec, k);
      if k != key { assert Backed(c, s.entries[k], k, s.stores); }
    }
    forall k ensures Accounted(c, p, k) {
      LatestSnoc(s.stores, rec, k);
      assert Accounted(c, s, k);
    }
  }

  lemma StoredInOk(c: Config, s: State, key: Key, r: Response, now: real)
    requires CacheOk(c, s) && s.clock <= now && Cacheable(r) && c.Ttl(key) > 0.0
    ensures CacheOk(c, StoredIn(c, s, key, r, now))
    ensures LeastRecentLeft(Placed(c, s, key, r, now), StoredIn(c, s, key, r, now))
    ensures forall k :: k in StoredIn(c, s, key, r, now).entries ==> k in s.entries || k == key
    ensures StoredIn(c, s, key, r, now) == s.(order := StoredIn(c, s, key, r, now).order,
              entries := StoredIn(c, s, key, r, now).entries, evicted := StoredIn(c, s, key, r, now).evicted,
              touches := s.touches + [key], stores := s.stores + [Stored(key, r, now)])
  {
    hide LogOk, OrderOk, LeastRecentLeft, Trimmed;
    var p := Placed(c, s, key, r, now);
    TouchedOrder(s, key, p.entries.Keys);
    PlacedLog(c, s, key, r, now);
    TrimmedOk(c, p);
  }

  /** Time passing only lets more responses expire. */
  lemma LaterLog(c: Config, s: State, now: real)
    requires LogOk(c, s) && s.clock <= now
    ensures LogOk(c, s.(clock := now))
  {
    forall k ensures Accounted(c, s.(clock := now), k) {
      assert Accounted(c, s, k);
    }
  }

  lemma LookedOk(c: Config, s: State, key: Key, now: real)
    requires Ok(c, s) && s.clock <= now && !(c.Ttl(key) > 0.0 && IsFresh(s, key, now))
    ensures Ok(c, Looked(c, s, key, now)) && key !in Looked(c, s, key, now).entries
  {
    hide CacheOk, FlightsOk, WaitersOk, GivenOk, Looked;
    var l := Looked(c, s, key, now);
    LookedSame(c, s, key, now);
    LookedCache(c, s, key, now);
    FlightsKept(s, l);
    WaitersKept(s, l);
    GivenKept(s, l);
  }

  lemma LookedCache(c: Config, s: State, key: Key, now: real)
    requires CacheOk(c, s) && s.clock <= now && !(c.Ttl(key) > 0.0 && IsFresh(s, key, now))
    ensures CacheOk(c, Looked(c, s, key, now)) && key !in Looked(c, s, key, now).entries
  {
    hide OrderOk, LastTouch, Latest;
    var l := Looked(c, s, key, now);
    if key in s.entries {
      assert Backed(c, s.entries[key], key, s.stores);
      DroppedOrder(s, key);
      forall k ensures Accounted(c, l, k) {
        assert Accounted(c, s, k);
      }
    } else {
      LaterLog(c, s, now);
    }
  }

  lemma FlightsKept(s: State, r: State)
    requires FlightsOk(s) && r.inflight == s.inflight && r.running == s.running && r.fetched == s.fetched
    requires r.results == s.results && r.next == s.next && forall k :: k in r.entries ==> k in s.entries
    ensures FlightsOk(r)
  {
  }

  lemma JoinedOk(c: Config, l: State, call: nat, key: Key)
    requires Ok(c, l) && call !in l.asked && key in l.inflight
    ensures Ok(c, Joined(l, call, key, l.inflight[key]))
  {
    hide CacheOk, GivenOk;
    GivenKept(l, Joined(l, call, key, l.inflight[key]));
    JoinCache(c, l, Joined(l, call, key, l.inflight[key]));
  }

  lemma LedOk(c: Config, l: State, call: nat, key: Key)
    requires Ok(c, l) && call !in l.asked && key !in l.inflight && key !in l.entries
    ensures Ok(c, Led(l, call, key, l.next))
  {
    hide CacheOk, WaitersOk, GivenOk;
    GivenKept(l, Led(l, call, key, l.next));
    hide FlightsOk;
    JoinCache(c, l, Led(l, call, key, l.next));
    LedFlights(l, call, key);
    LedWaiters(l, call, key);
  }

  lemma LedFlights(l: State, call: nat, key: Key)
    requires FlightsOk(l) && key !in l.inflight && key !in l.entries
    ensures FlightsOk(Led(l, call, key, l.next))
  {
  }

  lemma LedWaiters(l: State, call: nat, key: Key)
    requires FlightsOk(l) && WaitersOk(l)
    ensures WaitersOk(Led(l, call, key, l.next))
  {
  }

  /** Answers stay honest when fetches are added, others end and responses are stored. */
  lemma GivenKept(s: State, r: State)
    requires GivenOk(s) && r.given == s.given && s.asked <= r.asked && s.stores <= r.stores
    requires forall call :: call in r.waiting ==> call in s.waiting || call !in s.asked
    requires forall t :: t in s.fetched ==> t in r.fetched && r.fetched[t] == s.fetched[t]
    requires forall t :: t in s.results ==> t in r.results && r.results[t] == s.results[t]
    ensures GivenOk(r)
  {
    forall i | 0 <= i < |r.given| ensures Honest(r, r.given[i]) {
      assert Honest(s, s.given[i]);
      if s.given[i].FromCache? {
        var j :| 0 <= j < |s.stores| && s.stores[j].key == s.given[i].key
              && s.stores[j].response == s.given[i].response;
        assert r.stores[j] == s.stores[j];
      }
    }
  }

  lemma GivenMore(s: State, r: State, g: Given)
    requires GivenOk(s) && Honest(s, g) && r.given == s.given + [g]
    requires g.call !in s.asked || g.call in s.waiting
    requires r.asked == s.asked + {g.call} && r.waiting == s.waiting - {g.call}
    requires r.stores == s.stores && r.fetched == s.fetched && r.results == s.results
    ensures GivenOk(r)
  {
    forall i | 0 <= i < |r.given| ensures Honest(r, r.given[i]) {
      assert i < |s.given| ==> Honest(s, s.given[i]);
    }
  }

  /** The latest store of a key is one of the stores. */
  lemma {:induction false} LatestIsStored(stores: seq<Stored>, key: Key)
    ensures Latest(stores, key).Some? ==>
              exists i :: 0 <= i < |stores| && stores[i].key == key
                    && stores[i].response == Latest(stores, key).value.response
  {
    if stores != [] && stores[|stores| - 1].key != key {
      LatestIsStored(stores[..|stores| - 1], key);
      if Latest(stores, key).Some? {
        var rest := stores[..|stores| - 1];
        var i :| 0 <= i < |rest| && rest[i].key == key && rest[i].response == Latest(stores, key).value.response;
        assert stores[i] == rest[i];
      }
    }
  }

  lemma ServedOk(c: Config, s: State, call: nat, key: Key, now: real)
    requires Ok(c, s) && s.clock <= now && call !in s.asked && key in s.entries
    requires Ok(c, Touched(s, key).(clock := now))
    ensures Ok(c, Served(Touched(s, key).(clock := now), call, key, s.entries[key].response))
  {
    hide CacheOk, FlightsOk, GivenOk, Touched;
    var l := Touched(s, key).(clock := now);
    var r := Served(l, call, key, s.entries[key].response);
    TouchedKeeps(s, key);
    EntriesAreStored(c, s, key);
    JoinCache(c, l, r);
    FlightsKept(l, r);
    GivenMore(l, r, FromCache(call, key, s.entries[key].response));
  }

  lemma EntriesAreStored(c: Config, s: State, key: Key)
    requires CacheOk(c, s) && key in s.entries
    ensures exists i ::
              0 <= i < |s.stores| && s.stores[i].key == key && s.stores[i].response == s.entries[key].response
  {
    hide OrderOk, Accounted;
    assert Backed(c, s.entries[key], key, s.stores);
    LatestIsStored(s.stores, key);
  }

  lemma TouchedKeeps(s: State, key: Key)
    ensures Touched(s, key) == s.(order := Touched(s, key).order, touches := Touched(s, key).touches)
  {
  }

  lemma DeliverOk(c: Config, s: State, call: nat)
    requires Ok(c, s) && call in s.waiting && s.waiting[call].task in s.results
    ensures Ok(c, Deliver(s, call))
  {
    hide CacheOk, GivenOk;
    var w := s.waiting[call];
    JoinCache(c, s, Deliver(s, call));
    GivenMore(s, Deliver(s, call), FromFetch(call, w.key, w.task, s.results[w.task]));
  }

  lemma GetOk(c: Config, s: State, call: nat, key: Key, now: real)
    requires Ok(c, s) && s.clock <= now && call !in s.asked
    ensures Ok(c, Get(c, s, call, key, now))
  {
    hide Ok, Looked;
    if c.Ttl(key) > 0.0 && IsFresh(s, key, now) {
      HitOk(c, s, key, now);
      ServedOk(c, s, call, key, now);
    } else {
      LookedOk(c, s, key, now);
      LookedSame(c, s, key, now);
      if key in s.inflight {
        JoinedOk(c, Looked(c, s, key, now), call, key);
      } else {
        LedOk(c, Looked(c, s, key, now), call, key);
      }
    }
  }

  lemma LookedSame(c: Config, s: State, key: Key, now: real)
    ensures var l := Looked(c, s, key, now);
      && l.inflight == s.inflight && l.running == s.running && l.fetched == s.fetched
      && l.results == s.results && l.waiting == s.waiting && l.next == s.next
      && l.asked == s.asked && l.given == s.given && l.stores == s.stores
      && forall k :: k in l.entries ==> k in s.entries
  {
    hide Without;
    if c.Ttl(key) > 0.0 && key in s.entries {
      assert Looked(c, s, key, now) == s.(order := Without(s.order, key), entries := s.entries - {key}, clock := now);
    } else {
      assert Looked(c, s, key, now) == s.(clock := now);
    }
  }

  lemma JoinCache(c: Config, s: State, r: State)
    requires CacheOk(c, s) && r.order == s.order && r.entries == s.entries && r.stores == s.stores
    requires r.touches == s.touches && r.evicted == s.evicted && r.clock == s.clock
    ensures CacheOk(c, r)
  {
    forall k ensures Accounted(c, r, k) {
      assert Accounted(c, s, k);
    }
  }

  lemma HitOk(c: Config, s: State, key: Key, now: real)
    requires Ok(c, s) && s.clock <= now && key in s.entries
    ensures Ok(c, Touched(s, key).(clock := now))
  {
    hide CacheOk, FlightsOk, WaitersOk, GivenOk, Touched;
    var r := Touched(s, key).(clock := now);
    TouchedKeeps(s, key);
    HitCache(c, s, key, now);
    FlightsKept(s, r);
    WaitersKept(s, r);
    GivenKept(s, r);
  }

  lemma HitCache(c: Config, s: State, key: Key, now: real)
    requires CacheOk(c, s) && s.clock <= now && key in s.entries
    ensures CacheOk(c, Touched(s, key).(clock := now))
  {
    hide OrderOk, LastTouch, Latest, Backed;
    TouchedOrder(s, key, s.entries.Keys);
    LaterLog(c, s, now);
    var r := Touched(s, key).(clock := now);
    forall k ensures Accounted(c, r, k) {
      assert Accounted(c, s.(clock := now), k);
    }
  }

  lemma LandOk(c: Config, s: State, task: nat, landing: Landing, now: real)
    requires Ok(c, s) && s.clock <= now && task in s.running && task in s.fetched
    ensures Ok(c, Land(c, s, task, landing, now))
  {
    hide CacheOk, WaitersOk, GivenOk, StoredIn, LeastRecentLeft;
    var key, r := s.fetched[task], Land(c, s, task, landing, now);
    var stores := c.Ttl(key) > 0.0 && landing.Landed? && Cacheable(landing.response);
    if stores {
      StoredInOk(c, s, key, landing.response, now);
      LandCache(c, StoredIn(c, s, key, landing.response, now), r);
    } else {
      LandCache(c, s, r);
    }
    LandFlights(s, r, task, landing);
    WaitersKept(s, r);
    GivenKept(s, r);
  }

  lemma LandFlights(s: State, r: State, task: nat, landing: Landing)
    requires FlightsOk(s) && task in s.running && r.fetched == s.fetched && r.next == s.next
    requires r.running == s.running - {task} && r.results == s.results[task := landing]
    requires r.inflight == s.inflight - {s.fetched[task]}
    requires forall k :: k in r.entries ==> k in s.entries || k == s.fetched[task]
    ensures FlightsOk(r)
  {
  }

  lemma WaitersKept(s: State, r: State)
    requires WaitersOk(s) && r.waiting == s.waiting && r.fetched == s.fetched && r.asked == s.asked
    ensures WaitersOk(r)
  {
  }

  lemma LandCache(c: Config, s: State, r: State)
    requires CacheOk(c, s) && s.clock <= r.clock && r.order == s.order && r.entries == s.entries
    requires r.stores == s.stores && r.touches == s.touches && r.evicted == s.evicted
    ensures CacheOk(c, r)
  {
    LaterLog(c, s, r.clock);
    JoinCache(c, s.(clock := r.clock), r);
  }

  lemma LeaveOk(c: Config, s: State, call: nat)
    requires Ok(c, s)
    ensures Ok(c, Leave(s, call))
  {
    hide CacheOk, GivenOk;
    JoinCache(c, s, Leave(s, call));
    GivenKept(s, Leave(s, call));
  }

  /** Every interleaving of lookups, landings, answers and cancellations keeps the invariant. */
  lemma {:induction false} RunOk(c: Config, events: seq<Event>)
    ensures Ok(c, Run(c, events))
    decreases |events|
  {
    hide Ok, Get, Land, Deliver;
    if events == [] {
      StartOk(c);
    } else {
      var s, e := Run(c, events[..|events| - 1]), events[|events| - 1];
      RunOk(c, events[..|events| - 1]);
      if Possible(s, e) {
        match e
        case GetEvent(call, key, now) => GetOk(c, s, call, key, now);
        case LandEvent(task, landing, now) => LandOk(c, s, task, landing, now);
        case DeliverEvent(call) => DeliverOk(c, s, call);
        case LeaveEvent(call) => LeaveOk(c, s, call);
      }
    }
  }

  lemma StartOk(c: Config)
    ensures Ok(c, START)
  {
  }

  // ---------------------------------------------------------------- what callers may rely on

  /**
   A read is answered from the cache exactly when the latest response the log
   of stores holds for that key is younger than the key's lifetime and has not
   been pushed out since; and then the answer is that response.
   */
  lemma HitExactly(c: Config, events: seq<Event>, key: Key, now: real)
    requires Run(c, events).clock <= now
    ensures var s := Run(c, events);
            var latest := Latest(s.stores, key);
            Answered(c, s, key, now).Hit? <==>
              latest.Some? && now - latest.value.at < c.Ttl(key) && key !in s.evicted
    ensures var s := Run(c, events);
            Answered(c, s, key, now).Hit? ==>
              && Answered(c, s, key, now).response == Latest(s.stores, key).value.response
              && Cacheable(Answered(c, s, key, now).response)
  {
    hide Run, Latest, OrderOk, FlightsOk, WaitersOk, GivenOk;
    var s := Run(c, events);
    RunOk(c, events);
    assert Accounted(c, s, key);
    if key in s.entries {
      assert Backed(c, s.entries[key], key, s.stores);
    }
  }

  /** In every run at most one shared fetch per key is under way. */
  lemma OneFlightPerKey(c: Config, events: seq<Event>, a: nat, b: nat)
    requires a in Run(c, events).running && b in Run(c, events).running
    ensures a in Run(c, events).fetched && b in Run(c, events).fetched
    ensures Run(c, events).fetched[a] == Run(c, events).fetched[b] ==> a == b
  {
    hide Run, CacheOk, WaitersOk, GivenOk;
    RunOk(c, events);
  }

  /** A fetch starts only for a key with no fetch under way and no usable response. */
  lemma FetchOnlyWhenNeeded(c: Config, events: seq<Event>, key: Key, now: real)
    requires Run(c, events).clock <= now && Answered(c, Run(c, events), key, now).Lead?
    ensures var s := Run(c, events);
      && (forall t :: t in s.running && t in s.fetched ==> s.fetched[t] != key)
      && (Latest(s.stores, key).None? || now - Latest(s.stores, key).value.at >= c.Ttl(key) || key in s.evicted)
  {
    hide Run, CacheOk, WaitersOk, GivenOk, Latest;
    RunOk(c, events);
    HitExactly(c, events, key, now);
  }

  /** A caller that is not answered at once waits for a running fetch of its own exact key. */
  lemma JoinsRunningFetch(c: Config, events: seq<Event>, call: nat, key: Key, now: real)
    requires Possible(Run(c, events), GetEvent(call, key, now))
    requires !Answered(c, Run(c, events), key, now).Hit?
    ensures var r := Run(c, events + [GetEvent(call, key, now)]);
      && call in r.waiting && r.waiting[call].key == key && r.waiting[call].task in r.running
      && r.waiting[call].task in r.fetched && r.fetched[r.waiting[call].task] == key
  {
    hide CacheOk, WaitersOk, GivenOk, Looked;
    var s := Run(c, events);
    RunOk(c, events);
    LookedSame(c, s, key, now);
    assert (events + [GetEvent(call, key, now)])[..|events|] == events;
  }

  /**
   Every answer handed over, coalesced, leading or from the cache, is for the
   caller's own exact key: a response stored for it, or the end of a fetch of it;
   and no call is answered twice.
   */
  lemma OwnKeyDelivered(c: Config, events: seq<Event>, i: nat)
    requires i < |Run(c, events).given|
    ensures var s := Run(c, events);
      && Honest(s, s.given[i]) && s.given[i].call !in s.waiting
      && forall j :: 0 <= j < |s.given| && j != i ==> s.given[j].call != s.given[i].call
  {
    hide Run, CacheOk, FlightsOk, WaitersOk, Honest;
    RunOk(c, events);
  }

  // ---------------------------------------------------------------- cancellations are private

  /** The same events without the cancellations of these calls. */
  function Uncancelled(events: seq<Event>, calls: set<nat>): seq<Event> {
    if events == [] then []
    else
      var rest, e := Uncancelled(events[..|events| - 1], calls), events[|events| - 1];
      if e.LeaveEvent? && e.call in calls then rest else rest + [e]
  }

  /** What the other callers were handed, in order. */
  function Others(given: seq<Given>, calls: set<nat>): seq<Given> {
    if given == [] then []
    else
      var rest, g := Others(given[..|given| - 1], calls), given[|given| - 1];
      if g.call in calls then rest else rest + [g]
  }

  lemma OthersSnoc(given: seq<Given>, g: Given, calls: set<nat>)
    ensures Others(given + [g], calls) == Others(given, calls) + if g.call in calls then [] else [g]
  {
    assert (given + [g])[..|given|] == given;
  }

  /** Equal but for whether these calls wait and what they were handed. */
  ghost predicate SameForOthers(s: State, r: State, calls: set<nat>) {
    && r == s.(waiting := r.waiting, given := r.given)
    && (forall call :: call !in calls ==> (call in s.waiting <==> call in r.waiting))
    && (forall call :: call !in calls && call in s.waiting ==> r.waiting[call] == s.waiting[call])
    && Others(s.given, calls) == Others(r.given, calls)
  }

  lemma NextSameForOthers(c: Config, s: State, r: State, e: Event, calls: set<nat>)
    requires SameForOthers(s, r, calls)
    ensures e.LeaveEvent? && e.call in calls ==> SameForOthers(Next(c, s, e), r, calls)
    ensures !(e.LeaveEvent? && e.call in calls) ==> SameForOthers(Next(c, s, e), Next(c, r, e), calls)
  {
    hide SameForOthers, Get, Land, Deliver, Leave;
    SameFields(s, r, calls);
    match e
    case GetEvent(call, key, now) =>
      if Possible(s, e) { GetForOthers(c, s, r, call, key, now, calls); }
    case LandEvent(task, landing, now) =>
      if Possible(s, e) { LandForOthers(c, s, r, task, landing, now, calls); }
    case DeliverEvent(call) => DeliverForOthers(c, s, r, call, calls);
    case LeaveEvent(call) => LeaveForOthers(c, s, r, call, calls);
  }

  lemma SameFields(s: State, r: State, calls: set<nat>)
    requires SameForOthers(s, r, calls)
    ensures r == s.(waiting := r.waiting, given := r.given)
  {
  }

  lemma GetForOthers(c: Config, s: State, r: State, call: nat, key: Key, now: real, calls: set<nat>)
    requires SameForOthers(s, r, calls)
    ensures SameForOthers(Get(c, s, call, key, now), Get(c, r, call, key, now), calls)
  {
    hide Others, Touched, Looked, Answered, Served, Joined, Led;
    GetSame(c, s, r, call, key, now);
    var a := Answered(c, s, key, now);
    match a
    case Hit(response) =>
      TouchedKeeps(s, key);
      ServedForOthers(Touched(s, key).(clock := now), Touched(r, key).(clock := now), call, key, response, calls);
    case Join(t) =>
      LookedSame(c, s, key, now);
      JoinedForOthers(Looked(c, s, key, now), Looked(c, r, key, now), call, key, t, calls);
    case Lead(t) =>
      LookedSame(c, s, key, now);
      LedForOthers(Looked(c, s, key, now), Looked(c, r, key, now), call, key, t, calls);
  }

  lemma ServedForOthers(s: State, r: State, call: nat, key: Key, response: Response, calls: set<nat>)
    requires SameForOthers(s, r, calls)
    ensures SameForOthers(Served(s, call, key, response), Served(r, call, key, response), calls)
  {
    hide Others;
    OthersSnoc(s.given, FromCache(call, key, response), calls);
    OthersSnoc(r.given, FromCache(call, key, response), calls);
  }

  lemma JoinedForOthers(s: State, r: State, call: nat, key: Key, t: nat, calls: set<nat>)
    requires SameForOthers(s, r, calls)
    ensures SameForOthers(Joined(s, call, key, t), Joined(r, call, key, t), calls)
  {
    hide Others;
  }

  lemma LedForOthers(s: State, r: State, call: nat, key: Key, t: nat, calls: set<nat>)
    requires SameForOthers(s, r, calls)
    ensures SameForOthers(Led(s, call, key, t), Led(r, call, key, t), calls)
  {
    hide Others;
  }

  lemma LandForOthers(c: Config, s: State, r: State, task: nat, landing: Landing, now: real, calls: set<nat>)
    requires SameForOthers(s, r, calls) && task in s.fetched
    ensures SameForOthers(Land(c, s, task, landing, now), Land(c, r, task, landing, now), calls)
  {
    hide Others, Land;
    LandSame(c, s, r, task, landing, now);
  }

  lemma DeliverForOthers(c: Config, s: State, r: State, call: nat, calls: set<nat>)
    requires SameForOthers(s, r, calls)
    ensures SameForOthers(Next(c, s, DeliverEvent(call)), Next(c, r, DeliverEvent(call)), calls)
  {
    hide Others, Get, Land;
    if call in s.waiting && s.waiting[call].task in s.results {
      var w := s.waiting[call];
      OthersSnoc(s.given, FromFetch(call, w.key, w.task, s.results[w.task]), calls);
    }
    if call in r.waiting && r.waiting[call].task in r.results {
      var w := r.waiting[call];
      OthersSnoc(r.given, FromFetch(call, w.key, w.task, r.results[w.task]), calls);
    }
  }

  lemma LeaveForOthers(c: Config, s: State, r: State, call: nat, calls: set<nat>)
    requires SameForOthers(s, r, calls)
    ensures call in calls ==> SameForOthers(Next(c, s, LeaveEvent(call)), r, calls)
    ensures call !in calls ==> SameForOthers(Next(c, s, LeaveEvent(call)), Next(c, r, LeaveEvent(call)), calls)
  {
    hide Others, Get, Land, Deliver;
  }

  lemma GetSame(c: Config, s: State, r: State, call: nat, key: Key, now: real)
    requires r == s.(waiting := r.waiting, given := r.given)
    ensures Answered(c, r, key, now) == Answered(c, s, key, now)
    ensures Looked(c, r, key, now) == Looked(c, s, key, now).(waiting := r.waiting, given := r.given)
    ensures Touched(r, key) == Touched(s, key).(waiting := r.waiting, given := r.given)
  {
  }

  lemma {:induction false} TrimSame(c: Config, s: State, waiting: map<nat, Waiting>, given: seq<Given>)
    ensures Trimmed(c, s.(waiting := waiting, given := given)) == Trimmed(c, s).(waiting := waiting, given := given)
    ensures Trimmed(c, s).waiting == s.waiting && Trimmed(c, s).given == s.given
    decreases |s.order|
  {
    if |s.order| > c.maxEntries {
      TrimSame(c, s.(order := s.order[1..], entries := s.entries - {s.order[0]}, evicted := s.evicted + {s.order[0]}),
               waiting, given);
    }
  }

  lemma LandSame(c: Config, s: State, r: State, task: nat, landing: Landing, now: real)
    requires r == s.(waiting := r.waiting, given := r.given) && task in s.fetched
    ensures Land(c, r, task, landing, now) == Land(c, s, task, landing, now).(waiting := r.waiting, given := r.given)
    ensures Land(c, s, task, landing, now).waiting == s.waiting && Land(c, s, task, landing, now).given == s.given
  {
    hide Trimmed;
    if landing.Landed? {
      TrimSame(c, Placed(c, s, s.fetched[task], landing.response, now), r.waiting, r.given);
    }
  }

  /**
   Cancellations are private: take any calls, leaders included, and undo all their
   cancellations. The cache, the fetches, their results and everything every other
   caller waits for or is handed stay the same.
   */
  lemma {:induction false} CancellationIsPrivate(c: Config, events: seq<Event>, calls: set<nat>)
    ensures SameForOthers(Run(c, events), Run(c, Uncancelled(events, calls)), calls)
    decreases |events|
  {
    hide Next, SameForOthers;
    if events == [] {
      assert SameForOthers(START, START, calls) by { SameStart(calls); }
    } else {
      var before, e := events[..|events| - 1], events[|events| - 1];
      CancellationIsPrivate(c, before, calls);
      var s, r := Run(c, before), Run(c, Uncancelled(before, calls));
      NextSameForOthers(c, s, r, e, calls);
      if !(e.LeaveEvent? && e.call in calls) {
        assert (Uncancelled(before, calls) + [e])[..|Uncancelled(before, calls)|] == Uncancelled(before, calls);
      }
    }
  }

  lemma SameStart(calls: set<nat>)
    ensures SameForOthers(START, START, calls)
  {
  }

  /** The cache never outgrows its limit and is listed in order of last use. */
  lemma CacheIsBounded(c: Config, events: seq<Event>)
    ensures var s := Run(c, events);
      && |s.entries| <= c.maxEntries && |s.order| == |s.entries|
      && forall i, j :: 0 <= i < j < |s.order| ==> LastTouch(s.touches, s.order[i]) < LastTouch(s.touches, s.order[j])
  {
    hide Run, LogOk, FlightsOk, WaitersOk, GivenOk, LastTouch;
    RunOk(c, events);
    DistinctCount(Run(c, events).order, Run(c, events).entries.Keys);
  }

  lemma {:induction false} DistinctCount<T>(s: seq<T>, keys: set<T>)
    requires NoDup(s) && forall k :: k in s <==> k in keys
    ensures |s| == |keys|
  {
    if s == [] {
      assert keys == {};
    } else {
      Rotate(s);
      DistinctCount(s[1..], keys - {s[0]});
    }
  }

  /** A store pushes out only keys used less recently than every key it keeps. */
  lemma EvictionIsLeastRecent(c: Config, events: seq<Event>, task: nat, r: Response, now: real)
    requires task in Run(c, events).running && task in Run(c, events).fetched && Run(c, events).clock <= now
    requires c.Ttl(Run(c, events).fetched[task]) > 0.0 && Cacheable(r)
    ensures var s := Run(c, events);
      var key := s.fetched[task];
      LeastRecentLeft(Placed(c, s, key, r, now), Land(c, s, task, Landed(r), now))
  {
    hide Run, FlightsOk, WaitersOk, GivenOk, LogOk, OrderOk, StoredIn, LastTouch;
    RunOk(c, events);
    StoredInOk(c, Run(c, events), Run(c, events).fetched[task], r, now);
  }
}
