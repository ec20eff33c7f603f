/**
 The broker's cache and in-flight table as an object, updated in place by its
 two atomic sections and proved against the functions of SingleFlight.
 */
module BrokerCaches {
  import opened Prelude
  import SF = SingleFlight

  class BrokerCache {
    const config: SF.Config
    var order: seq<SF.Key>
    var entries: map<SF.Key, SF.Entry>
    var inflight: map<SF.Key, nat>
    var nextTask: nat
    // The tasks themselves: which are running, what they were for, how they ended, who waits.
    var running: set<nat>
    var fetched: map<nat, SF.Key>
    var results: map<nat, SF.Landing>
    var waiting: map<nat, SF.Waiting>
    ghost var asked: set<nat>
    ghost var given: seq<SF.Given>
    ghost var stores: seq<SF.Stored>
    ghost var touches: seq<SF.Key>
    ghost var evicted: set<SF.Key>
    ghost var clock: real

    ghost function Abs(): SF.State
      reads this
    {
      SF.State(order, entries, inflight, running, fetched, results, waiting, nextTask, asked, given,
               stores, touches, evicted, clock)
    }

    constructor (config: SF.Config)
      ensures this.config == config && Abs() == SF.START
    {
      this.config := config;
      order, entries, inflight, nextTask := [], map[], map[], 0;
      running, fetched, results, waiting := {}, map[], map[], map[];
      asked, given, stores, touches, evicted, clock := {}, [], [], [], {}, 0.0;
    }

    /** A fresh entry is returned and becomes the most recent; an expired one is dropped. */
    method Lookup(key: SF.Key, now: real) returns (hit: Option<SF.Response>)
      modifies this`order, this`entries, this`touches, this`clock
      ensures hit.Some? <==> config.Ttl(key) > 0.0 && SF.IsFresh(old(Abs()), key, now)
      ensures hit.Some? ==>
                hit.value == old(entries)[key].response && Abs() == SF.Touched(old(Abs()), key).(clock := now)
      ensures hit.None? ==> Abs() == SF.Looked(config, old(Abs()), key, now)
    {
      clock := now;
      if config.Ttl(key) > 0.0 {
        if key in entries && entries[key].expiresAt > now {
          order := Without(order, key) + [key];
          touches := touches + [key];
          return Some(entries[key].response);
        }
        if key in entries {
          order := Without(order, key);
          entries := entries - {key};
        }
      }
      return None;
    }

    /** Join the fetch of this key, or start one. */
    method JoinOrCreate(call: nat, key: SF.Key) returns (answer: SF.Answer)
      modifies this`inflight, this`running, this`fetched, this`nextTask, this`waiting, this`asked
      ensures key in old(inflight) ==>
                answer == SF.Join(old(inflight)[key]) && Abs() == SF.Joined(old(Abs()), call, key, answer.task)
      ensures key !in old(inflight) ==>
                answer == SF.Lead(old(nextTask)) && Abs() == SF.Led(old(Abs()), call, key, answer.task)
    {
      if key in inflight {
        answer := SF.Join(inflight[key]);
      } else {
        answer := SF.Lead(nextTask);
        Launch(key);
      }
      waiting := waiting[call := SF.Waiting(key, answer.task)];
      asked := asked + {call};
    }

    /** Start the shared fetch of this key. */
    method Launch(key: SF.Key)
      modifies this`inflight, this`running, this`fetched, this`nextTask
      ensures inflight == old(inflight)[key := old(nextTask)] && running == old(running) + {old(nextTask)}
      ensures fetched == old(fetched)[old(nextTask) := key] && nextTask == old(nextTask) + 1
    {
      inflight := inflight[key := nextTask];
      running := running + {nextTask};
      fetched := fetched[nextTask := key];
      nextTask := nextTask + 1;
    }

    /** Lookup through join-or-create, without giving up control in between. */
    method Get(call: nat, key: SF.Key, now: real) returns (answer: SF.Answer)
      requires SF.Ok(config, Abs()) && clock <= now && call !in asked
      modifies this
      ensures answer == SF.Answered(config, old(Abs()), key, now)
      ensures Abs() == SF.Get(config, old(Abs()), call, key, now)
      ensures SF.Ok(config, Abs())
    {
      hide SF.Ok, SF.Looked, SF.Joined, SF.Led, SF.Touched;
      SF.GetOk(config, Abs(), call, key, now);
      SF.LookedSame(config, Abs(), key, now);
      var hit := Lookup(key, now);
      if hit.Some? {
        asked, given := asked + {call}, given + [SF.FromCache(call, key, hit.value)];
        return SF.Hit(hit.value);
      }
      answer := JoinOrCreate(call, key);
    }

    /** Put a response at the most recent end and push out what no longer fits. */
    method StoreCache(key: SF.Key, entry: SF.Entry)
      requires entry.expiresAt == clock + config.Ttl(key)
      modifies this`order, this`entries, this`stores, this`touches, this`evicted
      ensures Abs() == SF.StoredIn(config, old(Abs()), key, entry.response, clock)
    {
      hide Without, SF.Placed, SF.Touched;
      PlacedIs(config, Abs(), key, entry.response);
      entries := entries[key := entry];
      order := Without(order, key) + [key];
      touches := touches + [key];
      stores := stores + [SF.Stored(key, entry.response, clock)];
      evicted := evicted - {key};
      ghost var placed := Abs();
      assert placed == SF.Placed(config, old(Abs()), key, entry.response, clock);
      hide SF.Trimmed;
      while |order| > config.maxEntries
        invariant SF.Trimmed(config, Abs()) == SF.Trimmed(config, placed)
        decreases |order|
      {
        TrimOne(config, Abs());
        evicted := evicted + {order[0]};
        entries := entries - {order[0]};
        order := order[1..];
      }
      TrimDone(config, Abs());
    }

    /** The end of a shared fetch: store what may be stored, then free the key. */
    method Land(task: nat, landing: SF.Landing, now: real)
      requires SF.Ok(config, Abs()) && clock <= now && task in running && task in fetched
      modifies this
      ensures Abs() == SF.Land(config, old(Abs()), task, landing, now)
      ensures SF.Ok(config, Abs())
    {
      hide SF.Ok, SF.StoredIn;
      SF.LandOk(config, Abs(), task, landing, now);
      ghost var before := Abs();
      var key := fetched[task];
      clock := now;
      if config.Ttl(key) > 0.0 && landing.Landed? && SF.Cacheable(landing.response) {
        ClockFirst(config, before, key, landing.response, now);
        StoreCache(key, SF.Entry(landing.response, now + config.Ttl(key)));
      }
      Settle(task, key, landing);
    }

    /** The fetch has ended: its key is free again, and its result is there for whoever waits. */
    method Settle(task: nat, key: SF.Key, landing: SF.Landing)
      modifies this`inflight, this`running, this`results
      ensures inflight == if key in old(inflight) && old(inflight)[key] == task then old(inflight) - {key}
            else old(inflight)
      ensures running == old(running) - {task} && results == old(results)[task := landing]
    {
      if key in inflight && inflight[key] == task {
        inflight := inflight - {key};
      }
      running := running - {task};
      results := results[task := landing];
    }

    /** What a caller that waits for a fetch gets when it has ended: what the fetch ended with. */
    method Await(call: nat) returns (landing: SF.Landing)
      requires SF.Ok(config, Abs()) && call in waiting && waiting[call].task in results
      modifies this`waiting, this`given
      ensures Abs() == SF.Deliver(old(Abs()), call) && SF.Ok(config, Abs())
      ensures landing == old(results)[old(waiting)[call].task]
    {
      hide SF.Ok;
      SF.DeliverOk(config, Abs(), call);
      var w := waiting[call];
      landing := results[w.task];
      waiting := waiting - {call};
      given := given + [SF.FromFetch(call, w.key, w.task, landing)];
    }
  }

  /** A store, field by field. */
  lemma PlacedIs(c: SF.Config, s: SF.State, key: SF.Key, r: SF.Response)
    ensures SF.Placed(c, s, key, r, s.clock)
            == s.(order := Without(s.order, key) + [key], touches := s.touches + [key],
                  entries := s.entries[key := SF.Entry(r, s.clock + c.Ttl(key))],
                  stores := s.stores + [SF.Stored(key, r, s.clock)], evicted := s.evicted - {key})
  {
  }

  lemma TrimOne(c: SF.Config, s: SF.State)
    requires |s.order| > c.maxEntries
    ensures SF.Trimmed(c, s) == SF.Trimmed(c, s.(order := s.order[1..], entries := s.entries - {s.order[0]},
                                                 evicted := s.evicted + {s.order[0]}))
  {
  }

  lemma TrimDone(c: SF.Config, s: SF.State)
    requires |s.order| <= c.maxEntries
    ensures SF.Trimmed(c, s) == s
  {
  }

  /** Noting the time before a store or after it makes no difference. */
  lemma ClockFirst(c: SF.Config, s: SF.State, key: SF.Key, r: SF.Response, now: real)
    ensures SF.StoredIn(c, s.(clock := now), key, r, now) == SF.StoredIn(c, s, key, r, now).(clock := now)
  {
    TrimClock(c, SF.Placed(c, s, key, r, now), now);
  }

  lemma {:induction false} TrimClock(c: SF.Config, s: SF.State, now: real)
    ensures SF.Trimmed(c, s.(clock := now)) == SF.Trimmed(c, s).(clock := now)
    decreases |s.order|
  {
    if |s.order| > c.maxEntries {
      TrimClock(c, s.(order := s.order[1..], entries := s.entries - {s.order[0]},
            evicted := s.evicted + {s.order[0]}), now);
    }
  }
}
