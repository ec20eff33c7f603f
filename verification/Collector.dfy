/**
 Restart-aware deltas between polls of the broker's counters, and the collector
 that keeps the last good poll across missed and incompatible ones.
 */
module Collector {
  import opened Prelude

  datatype Json =
    | Null
    | Bool(b: bool)
    | Num(n: real)
    | Text(s: string)
    | List(items: seq<Json>)
    | Obj(fields: map<string, Json>)

  function Get(fields: map<string, Json>, key: string): Json {
    if key in fields then fields[key] else Null
  }

  /** What changed: numbers that did not fall become differences, everything else is unknown. */
  function CounterDelta(current: Json, previous: Json): Json {
    match current
    case Obj(fields) =>
      if previous.Obj? then Obj(map k | k in fields :: CounterDelta(fields[k], Get(previous.fields, k))) else Null
    case Num(n) => if previous.Num? && n >= previous.n then Num(n - previous.n) else Null
    case _ => Null
  }

  /** The value at a path of keys; null where there is none. */
  function At(j: Json, path: seq<string>): Json
    decreases |path|
  {
    if path == [] then j
    else if j.Obj? then At(Get(j.fields, path[0]), path[1..])
    else Null
  }

  /** Deltas are taken path by path: descending commutes with the difference. */
  lemma {:induction false} DeltaAtPath(current: Json, previous: Json, path: seq<string>)
    ensures At(CounterDelta(current, previous), path) == CounterDelta(At(current, path), At(previous, path))
    decreases |path|
  {
    if path != [] {
      if current.Obj? && previous.Obj? {
        DeltaAtPath(Get(current.fields, path[0]), Get(previous.fields, path[0]), path[1..]);
      } else {
        NullAt(path);
      }
    }
  }

  lemma {:induction false} NullAt(path: seq<string>)
    ensures At(Null, path) == Null
  {
  }

  /**
   What a delta holds at a path, exactly: the difference of two numbers that did not
   fall, an object with the current keys where both have one, and otherwise nothing.
   */
  lemma DeltaExactly(current: Json, previous: Json, path: seq<string>)
    ensures var d, c, p := At(CounterDelta(current, previous), path), At(current, path), At(previous, path);
      && (d.Num? <==> c.Num? && p.Num? && p.n <= c.n)
      && (d.Num? ==> p.n + d.n == c.n)
      && (d.Obj? <==> c.Obj? && p.Obj?)
      && (d.Obj? ==> d.fields.Keys == c.fields.Keys)
      && (d.Num? || d.Obj? || d == Null)
  {
    DeltaAtPath(current, previous, path);
  }

  /** Every number anywhere in a delta is non-negative. */
  lemma DeltaNeverNegative(current: Json, previous: Json, path: seq<string>)
    ensures At(CounterDelta(current, previous), path).Num? ==> At(CounterDelta(current, previous), path).n >= 0.0
  {
    DeltaAtPath(current, previous, path);
  }

  // ---------------------------------------------------------------- the collector

  /** One poll: healthy with usable metrics, failed, or healthy with metrics it cannot read. */
  datatype Poll = Good(metrics: Json, instance: string, sourceTime: int) | Missed | Incompatible

  datatype Status = StatusOk | Unavailable | StatusIncompatible

  datatype Sample = Sample(at: int, instance: Option<string>, status: Status, metrics: Json, sourceTime: int,
                           stale: bool, restart: bool, error: Option<string>, deltas: Option<Json>)

  const POLL_MISSED: string := "broker_poll_missed"
  const UNAVAILABLE: string := "broker_unavailable"
  const INCOMPATIBLE: string := "broker_metrics_incompatible"

  datatype State = State(lastGood: Option<Sample>, failures: nat)

  const STALE_AFTER: int := 15

  /** The sample a poll produces, and what the collector remembers afterwards. */
  function SampleOnce(c: State, poll: Poll, now: int): (State, Sample) {
    match poll
    case Missed =>
      var grace := c.lastGood.Some? && c.failures == 0;
      (State(c.lastGood, c.failures + 1),
       match c.lastGood
       case None => Sample(now, None, Unavailable, Obj(map[]), now, true, false, Some(UNAVAILABLE), None)
       case Some(g) => Sample(now, g.instance, if grace then StatusOk else Unavailable, g.metrics, g.sourceTime,
                              if grace then now - g.sourceTime > STALE_AFTER else true, false,
                              Some(if grace then POLL_MISSED else UNAVAILABLE), None))
    case Incompatible =>
      (State(c.lastGood, 0),
       match c.lastGood
       case None => Sample(now, None, StatusIncompatible, Obj(map[]), now, true, false, Some(INCOMPATIBLE), None)
       case Some(g) => Sample(now, g.instance, StatusIncompatible, g.metrics, g.sourceTime, true, false,
                              Some(INCOMPATIBLE), None))
    case Good(metrics, instance, sourceTime) =>
      var restart := c.lastGood.Some? && c.lastGood.value.instance != Some(instance);
      var deltas := if c.lastGood.None? || restart then None
                    else Some(CounterDelta(metrics, c.lastGood.value.metrics));
      var sample := Sample(now, Some(instance), StatusOk, metrics, sourceTime, now - sourceTime > STALE_AFTER,
                           restart, None, deltas);
      (State(Some(sample), 0), sample)
  }

  /** A poll and when it was made. */
  datatype Observation = Observation(poll: Poll, now: int)

  function After(c: State, polls: seq<Observation>, n: nat): State
    requires n <= |polls|
  {
    if n == 0 then c else SampleOnce(After(c, polls, n - 1), polls[n - 1].poll, polls[n - 1].now).0
  }

  function SampleAt(c: State, polls: seq<Observation>, n: nat): Sample
    requires n < |polls|
  {
    SampleOnce(After(c, polls, n), polls[n].poll, polls[n].now).1
  }

  /** What the broker reported at one time. */
  datatype Figures = Figures(metrics: Json, instance: Option<string>, sourceTime: int)

  /** What it last reported before poll n: in the latest good poll, or the sample the collector started from. */
  function Latest(c: State, polls: seq<Observation>, n: nat): Option<Figures>
    requires n <= |polls|
  {
    if n > 0 && polls[n - 1].poll.Good? then
      var p := polls[n - 1].poll;
      Some(Figures(p.metrics, Some(p.instance), p.sourceTime))
    else if n > 0 then Latest(c, polls, n - 1)
    else if c.lastGood.Some? then
      var g := c.lastGood.value;
      Some(Figures(g.metrics, g.instance, g.sourceTime))
    else None
  }

  /** The collector still has what the latest good poll brought, and knows whether the last one was missed. */
  lemma {:induction false} RemembersLatest(c: State, polls: seq<Observation>, n: nat)
    requires n <= |polls| && c.failures == 0
    ensures var y, f := After(c, polls, n), Latest(c, polls, n);
      && (y.lastGood.Some? <==> f.Some?)
      && (f.Some? ==>
            f.value == Figures(y.lastGood.value.metrics, y.lastGood.value.instance, y.lastGood.value.sourceTime))
      && (y.failures == 0 <==> n == 0 || !polls[n - 1].poll.Missed?)
  {
    hide CounterDelta;
    if n > 0 {
      RemembersLatest(c, polls, n - 1);
    }
  }

  function Reading(c: State, polls: seq<Observation>, n: nat): Json
    requires n <= |polls|
  {
    if Latest(c, polls, n).Some? then Latest(c, polls, n).value.metrics else Null
  }

  /** Every good poll is from the first sample's broker instance, and the counter at path never falls. */
  ghost predicate Rising(c: State, polls: seq<Observation>, path: seq<string>) {
    && c.lastGood.Some? && At(c.lastGood.value.metrics, path).Num?
    && forall i :: 0 <= i < |polls| && polls[i].poll.Good? ==>
         && c.lastGood.value.instance == Some(polls[i].poll.instance)
         && At(polls[i].poll.metrics, path).Num?
         && (At(Reading(c, polls, i), path).Num? ==>
               At(Reading(c, polls, i), path).n <= At(polls[i].poll.metrics, path).n)
  }

  /** The sum of what the first n samples report at path. */
  function Reported(c: State, polls: seq<Observation>, path: seq<string>, n: nat): real
    requires n <= |polls|
  {
    if n == 0 then 0.0
    else
      var d := SampleAt(c, polls, n - 1).deltas;
      Reported(c, polls, path, n - 1) + if d.Some? && At(d.value, path).Num? then At(d.value, path).n else 0.0
  }

  /**
   Telescoping: within one broker instance the reported deltas of a counter that
   does not fall add up to last minus first, whatever polls were missed or
   incompatible in between.
   */
  lemma {:induction false} DeltasTelescope(c: State, polls: seq<Observation>, path: seq<string>, n: nat)
    requires n <= |polls| && Rising(c, polls, path)
    ensures At(Reading(c, polls, n), path).Num?
    ensures Reported(c, polls, path, n) == At(Reading(c, polls, n), path).n - At(c.lastGood.value.metrics, path).n
    ensures var z := After(c, polls, n).lastGood;
      z.Some? && z.value.instance == c.lastGood.value.instance && z.value.metrics == Reading(c, polls, n)
  {
    hide CounterDelta, At;
    if n > 0 {
      DeltasTelescope(c, polls, path, n - 1);
      var y, o := After(c, polls, n - 1), polls[n - 1];
      if o.poll.Good? {
        GoodStep(y, o, path);
      }
    }
  }

  lemma GoodStep(y: State, o: Observation, path: seq<string>)
    requires o.poll.Good? && y.lastGood.Some? && y.lastGood.value.instance == Some(o.poll.instance)
    requires At(o.poll.metrics, path).Num? && At(y.lastGood.value.metrics, path).Num?
    requires At(y.lastGood.value.metrics, path).n <= At(o.poll.metrics, path).n
    ensures var s := SampleOnce(y, o.poll, o.now).1;
      && s.deltas.Some? && At(s.deltas.value, path).Num?
      && At(s.deltas.value, path).n == At(o.poll.metrics, path).n - At(y.lastGood.value.metrics, path).n
  {
    DeltaAtPath(o.poll.metrics, y.lastGood.value.metrics, path);
  }

  /**
   A missed poll passes as healthy exactly when there is a good one to show and the
   poll before was not missed too.
   */
  lemma GraceIsOnce(c: State, polls: seq<Observation>, n: nat)
    requires n < |polls| && polls[n].poll.Missed? && c.failures == 0
    ensures SampleAt(c, polls, n).status == StatusOk <==>
              After(c, polls, n).lastGood.Some? && (n == 0 || !polls[n - 1].poll.Missed?)
  {
  }

  /** How many of the first n samples carry the restart flag. */
  function Restarts(c: State, polls: seq<Observation>, n: nat): nat
    requires n <= |polls|
  {
    if n == 0 then 0 else Restarts(c, polls, n - 1) + if SampleAt(c, polls, n - 1).restart then 1 else 0
  }

  /** The broker instances seen: that of the last good sample, then those of the good polls. */
  function Seen(c: State, polls: seq<Observation>, n: nat): seq<Option<string>>
    requires n <= |polls|
  {
    if n == 0 then if c.lastGood.Some? then [c.lastGood.value.instance] else []
    else Seen(c, polls, n - 1) + if polls[n - 1].poll.Good? then [Some(polls[n - 1].poll.instance)] else []
  }

  function Changes(s: seq<Option<string>>): nat {
    if |s| <= 1 then 0
    else Changes(s[..|s| - 1]) + if s[|s| - 1] != s[|s| - 2] then 1 else 0
  }

  lemma ChangesSnoc(s: seq<Option<string>>, x: Option<string>)
    ensures Changes(s + [x]) == Changes(s) + if s != [] && s[|s| - 1] != x then 1 else 0
  {
    assert (s + [x])[..|s|] == s;
  }

  lemma FewChanges(s: seq<Option<string>>)
    requires |s| <= 1
    ensures Changes(s) == 0
  {
  }

  lemma NothingPolled(c: State, polls: seq<Observation>)
    ensures After(c, polls, 0) == c
  {
  }

  /** Only good polls move the last good sample. */
  lemma LastGoodAfter(c: State, polls: seq<Observation>, n: nat)
    requires n < |polls|
    ensures var y, z := After(c, polls, n), After(c, polls, n + 1);
      if polls[n].poll.Good? then z.lastGood.Some? && z.lastGood.value.instance == Some(polls[n].poll.instance)
      else z.lastGood == y.lastGood
  {
    hide CounterDelta;
  }

  /** The restart flag is set exactly on a good poll from another instance than the last good one. */
  lemma RestartExactly(c: State, polls: seq<Observation>, n: nat)
    requires n < |polls|
    ensures SampleAt(c, polls, n).restart <==>
              && polls[n].poll.Good? && After(c, polls, n).lastGood.Some?
              && After(c, polls, n).lastGood.value.instance != Some(polls[n].poll.instance)
  {
    hide CounterDelta;
  }

  /**
   Over any run the restart flags are as many as the changes of instance from one
   good poll to the next: missed and incompatible polls hide none and invent none.
   */
  lemma {:induction false} RestartsAreChanges(c: State, polls: seq<Observation>, n: nat)
    requires n <= |polls|
    ensures Restarts(c, polls, n) == Changes(Seen(c, polls, n))
    ensures After(c, polls, n).lastGood.Some? <==> Seen(c, polls, n) != []
    ensures Seen(c, polls, n) != [] ==>
              Seen(c, polls, n)[|Seen(c, polls, n)| - 1] == After(c, polls, n).lastGood.value.instance
  {
    hide After, SampleAt, Changes;
    if n == 0 {
      NothingPolled(c, polls);
      FewChanges(Seen(c, polls, 0));
    } else {
      RestartsAreChanges(c, polls, n - 1);
      RestartExactly(c, polls, n - 1);
      LastGoodAfter(c, polls, n - 1);
      var before, now := Seen(c, polls, n - 1), Seen(c, polls, n);
      if polls[n - 1].poll.Good? {
        ChangesSnoc(before, Some(polls[n - 1].poll.instance));
      } else {
        assert now == before;
      }
    }
  }

  // ---------------------------------------------------------------- what a sample shows

  /** What a sample has to say about its poll, given what the broker last reported before it. */
  ghost predicate Tells(s: Sample, o: Observation, before: Option<Figures>, missedBefore: bool) {
    var shown := if o.poll.Good? then Some(Figures(o.poll.metrics, Some(o.poll.instance), o.poll.sourceTime))
                 else before;
    var again := o.poll.Good? && before.Some? && before.value.instance == Some(o.poll.instance);
    && s.at == o.now
    && s.metrics == (if shown.Some? then shown.value.metrics else Obj(map[]))
    && s.instance == (if shown.Some? then shown.value.instance else None)
    && s.sourceTime == (if shown.Some? then shown.value.sourceTime else o.now)
    && s.restart == (o.poll.Good? && before.Some? && !again)
    && s.deltas == (if again then Some(CounterDelta(o.poll.metrics, before.value.metrics)) else None)
    && (s.status == StatusIncompatible <==> o.poll.Incompatible?)
    && (s.status == Unavailable <==> o.poll.Missed? && (before.None? || missedBefore))
    && (s.error.None? <==> o.poll.Good?)
    && s.stale == (s.status != StatusOk || o.now - s.sourceTime > 15)
  }

  /**
   What every sample shows, from the polls alone: the figures of the latest good poll,
   deltas only against an earlier reading of the same instance, so none on a restart,
   and staleness when unhealthy or after fifteen seconds.
   */
  lemma SamplesTell(c: State, polls: seq<Observation>, n: nat)
    requires n < |polls| && c.failures == 0
    ensures Tells(SampleAt(c, polls, n), polls[n], Latest(c, polls, n), n > 0 && polls[n - 1].poll.Missed?)
    ensures var s := SampleAt(c, polls, n);
      && (s.restart ==> s.deltas.None?)
      && (s.error == Some(POLL_MISSED) <==> polls[n].poll.Missed? && s.status == StatusOk)
      && (s.error == Some(UNAVAILABLE) <==> s.status == Unavailable)
      && (s.error == Some(INCOMPATIBLE) <==> s.status == StatusIncompatible)
  {
    hide CounterDelta, After;
    RemembersLatest(c, polls, n);
  }

  /** The collector as an object; samples it takes are handed to the store. */
  class GovernorCollector {
    var lastGood: Option<Sample>
    var failures: nat
    // What has been handed to the store, oldest first.
    var recorded: seq<Sample>

    ghost function Abs(): State
      reads this
    {
      State(lastGood, failures)
    }

    constructor (latest: Option<Sample>)
      ensures Abs() == State(latest, 0) && recorded == []
    {
      lastGood, failures, recorded := latest, 0, [];
    }

    method Once(poll: Poll, now: int) returns (sample: Sample)
      modifies this
      ensures (Abs(), sample) == SampleOnce(old(Abs()), poll, now)
      ensures recorded == old(recorded) + [sample]
    {
      match poll {
        case Missed =>
          failures := failures + 1;
          var grace := lastGood.Some? && failures == 1;
          if lastGood.None? {
            sample := Sample(now, None, Unavailable, Obj(map[]), now, true, false, Some(UNAVAILABLE), None);
          } else {
            var g := lastGood.value;
            sample := Sample(now, g.instance, if grace then StatusOk else Unavailable, g.metrics, g.sourceTime,
                             if grace then now - g.sourceTime > STALE_AFTER else true, false,
                              Some(if grace then POLL_MISSED else UNAVAILABLE), None);
          }
        case Incompatible =>
          failures := 0;
          if lastGood.None? {
            sample := Sample(now, None, StatusIncompatible, Obj(map[]), now, true, false, Some(INCOMPATIBLE), None);
          } else {
            var g := lastGood.value;
            sample := Sample(now, g.instance, StatusIncompatible, g.metrics, g.sourceTime, true, false,
                  Some(INCOMPATIBLE), None);
          }
        case Good(metrics, instance, sourceTime) =>
          failures := 0;
          var restart := lastGood.Some? && lastGood.value.instance != Some(instance);
          var deltas := None;
          if lastGood.Some? && !restart {
            deltas := Some(CounterDelta(metrics, lastGood.value.metrics));
          }
          sample := Sample(now, Some(instance), StatusOk, metrics, sourceTime, now - sourceTime > STALE_AFTER,
                restart, None, deltas);
          lastGood := Some(sample);
      }
      recorded := recorded + [sample];
    }
  }
}
