/**
 Runs of the limiter and runs of the score arithmetic are the same thing: every
 run of tasks selects by some sequence of masks, and every sequence of masks is
 what some run of arrivals, cancellations and finished admissions selects by.
 */
module FairRuns {
  import opened Prelude
  import opened Lanes
  import opened FairAdmission
  import opened FairTasks
  import opened FairLiveness
  import FS = FairScores
  import SW = ShippedWeights
  import SB = SteadyBacklog

  /** Who was waiting at each selection of the run. */
  ghost function MasksOf(p: Policy, y: System, events: seq<Event>): seq<FS.Mask>
    requires SystemOk(p, y)
    decreases |events|
  {
    if events == [] then []
    else
      NextOk(p, y, events[0]);
      MaskAt(p, y, events[0]) + MasksOf(p, Next(p, y, events[0]), events[1..])
  }

  ghost function MaskAt(p: Policy, y: System, e: Event): seq<FS.Mask>
    requires SystemOk(p, y)
  {
    if SelectsAt(p, y, e) then [Active(BeforeSelect(p, y, e).value)] else []
  }

  /** Which class each selection of the run served. */
  ghost function PicksOf(p: Policy, y: System, events: seq<Event>): seq<nat>
    requires SystemOk(p, y)
    decreases |events|
  {
    if events == [] then []
    else
      NextOk(p, y, events[0]);
      PickAt(p, y, events[0]) + PicksOf(p, Next(p, y, events[0]), events[1..])
  }

  ghost function PickAt(p: Policy, y: System, e: Event): seq<nat>
    requires SystemOk(p, y)
  {
    if SelectsAt(p, y, e) then (NextFacts(p, y, e); CoreShape(p, BeforeSelect(p, y, e).value);
                                [Chosen(p, BeforeSelect(p, y, e).value)])
    else []
  }

  // ---------------------------------------------------------------- every run is a run of masks

  /** One event charges the scores by the mask it selects by, if it selects. */
  lemma EventCharges(p: Policy, y: System, e: Event)
    requires SystemOk(p, y)
    ensures |y.lim.scores| == |Next(p, y, e).lim.scores| == |p.weights|
    ensures FS.ValidRun(p.weights, MaskAt(p, y, e)) && |PickAt(p, y, e)| == |MaskAt(p, y, e)| <= 1
    ensures Next(p, y, e).lim.scores == FS.ScoresAfter(p.weights, y.lim.scores, MaskAt(p, y, e), |MaskAt(p, y, e)|)
    ensures MaskAt(p, y, e) != [] ==> PickAt(p, y, e)[0] == FS.Served(p.weights, y.lim.scores, MaskAt(p, y, e), 0)
  {
    hide Core, LaneOk, Shape, PhasesOk, TicketsOk, FS.Charge, FS.Pick;
    NextOk(p, y, e);
    CoreShape(p, y.lim);
    CoreShape(p, Next(p, y, e).lim);
    if BeforeSelect(p, y, e).Some? {
      NextFacts(p, y, e);
      CoreShape(p, BeforeSelect(p, y, e).value);
    }
  }

  /** The bridge from tasks to arithmetic. */
  lemma {:induction false} RunsAreMaskRuns(p: Policy, y: System, events: seq<Event>)
    requires SystemOk(p, y)
    ensures var acts := MasksOf(p, y, events);
      && |y.lim.scores| == |p.weights| && FS.ValidRun(p.weights, acts) && |PicksOf(p, y, events)| == |acts|
      && RunFrom(p, y, events).lim.scores == FS.ScoresAfter(p.weights, y.lim.scores, acts, |acts|)
      && forall n :: 0 <= n < |acts| ==> PicksOf(p, y, events)[n] == FS.Served(p.weights, y.lim.scores, acts, n)
    decreases |events|
  {
    hide SystemOk, Next, MaskAt, PickAt, FS.ScoresAfter, FS.Served;
    if events == [] {
      Standing(p, y);
    } else {
      EventCharges(p, y, events[0]);
      NextOk(p, y, events[0]);
      var z := Next(p, y, events[0]);
      RunsAreMaskRuns(p, z, events[1..]);
      var front, back := MaskAt(p, y, events[0]), MasksOf(p, z, events[1..]);
      FS.RunConcat(p.weights, y.lim.scores, front, back, |back|);
      forall n | 0 <= n < |front + back|
        ensures PicksOf(p, y, events)[n] == FS.Served(p.weights, y.lim.scores, front + back, n)
      {
        if n < |front| {
          FS.FrontServed(p.weights, y.lim.scores, front, back, n);
        } else {
          FS.RunConcat(p.weights, y.lim.scores, front, back, n - |front|);
        }
      }
    }
  }

  lemma Standing(p: Policy, y: System)
    requires SystemOk(p, y)
    ensures |y.lim.scores| == |p.weights|
    ensures y.lim.scores == FS.ScoresAfter(p.weights, y.lim.scores, [], 0)
  {
    hide Core;
    CoreShape(p, y.lim);
  }

  // ---------------------------------------------------------------- every run of masks is a run

  lemma {:induction false} RunConcat(p: Policy, y: System, a: seq<Event>, b: seq<Event>)
    requires SystemOk(p, y)
    ensures RunFrom(p, y, a + b) == RunFrom(p, RunFrom(p, y, a), b)
    ensures MasksOf(p, y, a + b) == MasksOf(p, y, a) + MasksOf(p, RunFrom(p, y, a), b)
    decreases |a|
  {
    hide SystemOk, Next, MaskAt;
    if a == [] {
      assert a + b == b;
    } else {
      NextOk(p, y, a[0]);
      RunConcat(p, Next(p, y, a[0]), a[1..], b);
      assert (a + b)[1..] == a[1..] + b;
    }
  }

  /** One caller for each class. */
  ghost predicate Named(p: Policy, names: seq<string>) {
    |names| == |p.weights| && forall i :: 0 <= i < |names| ==> p.ClassFor(names[i]) == i
  }

  /** At most one waiter in the lane, of this caller. */
  ghost predicate Solo(l: Lane, name: string) {
    l.callers == [] || (l.callers == [name] && name in l.queues && |l.queues[name]| == 1)
  }

  /** Somebody holds the slot at the bucket, and each class has at most its own caller's one waiter. */
  ghost predicate Busy(p: Policy, names: seq<string>, y: System) {
    && SystemOk(p, y) && Named(p, names) && !y.lim.closed
    && y.lim.serving.Some? && y.lim.serving.value in y.phase && y.phase[y.lim.serving.value] == Admitting
    && |y.lim.lanes| == |p.weights| && forall i :: 0 <= i < |names| ==> Solo(y.lim.lanes[i], names[i])
  }

  /** A waiter on its own arrives in an idle lane. */
  lemma SoloComes(l: Lane, cls: nat, name: string, w: Waiter)
    requires LaneOk(l, cls) && l.callers == [] && w.caller == name
    ensures Push(l, w).callers == [name] && Solo(Push(l, w), name)
  {
  }

  /** A waiter on its own leaves its lane idle, served or not. */
  lemma SoloGoes(l: Lane, cls: nat, name: string)
    requires LaneOk(l, cls) && Solo(l, name) && l.callers != []
    ensures name in l.queues && l.queues[name] != [] && l.callers[0] == name
    ensures Has(l, Head(l)) && Head(l).cls == cls && Head(l).caller == name
    ensures Pop(l).callers == [] && Drop(l, Head(l)).callers == []
  {
    assert QueueOk(l.queues[name], name, cls);
    PopOk(l, cls);
  }

  /** Nothing is selected while the slot is taken. */
  lemma TakenSelectsNobody(p: Policy, s: State)
    requires Core(p, s) && s.serving.Some?
    ensures Select(p, s) == s && !Selects(s)
  {
    hide ExactDepths, FS.BoundedScores;
  }

  /** What a busy limiter looks like from outside. */
  lemma BusyFacts(p: Policy, names: seq<string>, y: System)
    requires Busy(p, names, y)
    ensures |y.lim.lanes| == |y.lim.scores| == |y.lim.classDepth| == |p.weights|
    ensures y.lim.serving.value.cls < |p.weights|
    ensures forall i :: 0 <= i < |p.weights| ==> LaneOk(y.lim.lanes[i], i)
    ensures forall w :: w in y.phase <==> Held(y.lim, w)
    ensures forall w :: Queued(y.lim, w) ==> y.lim.serving != Some(w)
    ensures forall w :: w in y.phase && y.phase[w] == Admitting ==> y.lim.serving == Some(w)
  {
    hide ExactDepths, FS.BoundedScores, LaneOk, TicketsOk, Solo;
  }

  /** The class's caller arrives. */
  lemma Comes(p: Policy, names: seq<string>, y: System, i: nat)
    requires Busy(p, names, y) && i < |names| && y.lim.lanes[i].callers == []
    ensures var z := Next(p, y, Arrive(names[i], 1.0, 0.0));
      && Busy(p, names, z) && z.lim.scores == y.lim.scores && MaskAt(p, y, Arrive(names[i], 1.0, 0.0)) == []
      && |z.lim.lanes| == |y.lim.lanes| && z.lim.lanes[i].callers != []
      && forall j :: 0 <= j < |names| && j != i ==> z.lim.lanes[j] == y.lim.lanes[j]
  {
    hide Core, LaneOk, PhasesOk, TicketsOk, Solo, Push;
    var e := Event.Arrive(names[i], 1.0, 0.0);
    BusyFacts(p, names, y);
    NextFacts(p, y, e);
    NextOk(p, y, e);
    TakenSelectsNobody(p, BeforeSelect(p, y, e).value);
    SoloComes(y.lim.lanes[i], i, names[i], Arrival(p, y, e));
    assert !Held(y.lim, Arrival(p, y, e));
  }

  /** The class's caller gives up. */
  lemma Goes(p: Policy, names: seq<string>, y: System, i: nat) returns (e: Event)
    requires Busy(p, names, y) && i < |names| && y.lim.lanes[i].callers != []
    ensures var z := Next(p, y, e);
      && Busy(p, names, z) && z.lim.scores == y.lim.scores && MaskAt(p, y, e) == []
      && |z.lim.lanes| == |y.lim.lanes| && z.lim.lanes[i].callers == []
      && forall j :: 0 <= j < |names| && j != i ==> z.lim.lanes[j] == y.lim.lanes[j]
  {
    hide Core, LaneOk, PhasesOk, TicketsOk, Drop;
    BusyFacts(p, names, y);
    var l := y.lim.lanes[i];
    SoloGoes(l, i, names[i]);
    var w := Head(l);
    e := Cancel(w);
    assert Queued(y.lim, w) && Held(y.lim, w);
    NextFacts(p, y, e);
    NextOk(p, y, e);
    TakenSelectsNobody(p, BeforeSelect(p, y, e).value);
  }

  /** Arrivals and departures until exactly the classes of the mask are waiting. */
  lemma {:induction false} Arrange(p: Policy, names: seq<string>, y: System, act: FS.Mask, n: nat)
    returns (events: seq<Event>)
    requires Busy(p, names, y) && |act| == |names| && n <= |names|
    ensures var z := RunFrom(p, y, events);
      && Busy(p, names, z) && z.lim.scores == y.lim.scores && MasksOf(p, y, events) == []
      && |z.lim.lanes| == |y.lim.lanes|
      && forall j :: 0 <= j < n ==> (z.lim.lanes[j].callers != [] <==> act[j])
    decreases n
  {
    hide SystemOk, Solo, MaskAt, Next;
    if n == 0 {
      events := [];
    } else {
      var before := Arrange(p, names, y, act, n - 1);
      var z := RunFrom(p, y, before);
      if act[n - 1] == (z.lim.lanes[n - 1].callers != []) {
        events := before;
      } else {
        var e;
        if act[n - 1] {
          e := Arrive(names[n - 1], 1.0, 0.0);
          Comes(p, names, z, n - 1);
        } else {
          e := Goes(p, names, z, n - 1);
        }
        events := before + [e];
        OneMoreEvent(p, y, before, e);
      }
    }
  }

  lemma OneMoreEvent(p: Policy, y: System, before: seq<Event>, e: Event)
    requires SystemOk(p, y)
    ensures RunFrom(p, y, before + [e]) == Next(p, RunFrom(p, y, before), e)
    ensures MasksOf(p, y, before + [e]) == MasksOf(p, y, before) + MaskAt(p, RunFrom(p, y, before), e)
  {
    hide SystemOk, Next, MaskAt;
    RunConcat(p, y, before, [e]);
    var z := RunFrom(p, y, before);
    NextOk(p, z, e);
    assert [e][1..] == [];
    assert RunFrom(p, z, [e]) == RunFrom(p, Next(p, z, e), []);
  }

  /** The slot's owner finishes, and whoever is selected next takes the slot to the bucket. */
  lemma TurnOver(p: Policy, names: seq<string>, y: System, act: FS.Mask) returns (events: seq<Event>)
    requires Busy(p, names, y) && |act| == |names| && FS.SomeActive(act)
    requires |y.lim.lanes| == |names| && forall j :: 0 <= j < |names| ==> (y.lim.lanes[j].callers != [] <==> act[j])
    ensures Busy(p, names, RunFrom(p, y, events)) && MasksOf(p, y, events) == [act]
  {
    hide SystemOk, Solo, MaskAt, Next, FS.SomeActive;
    var owner := y.lim.serving.value;
    var z := Next(p, y, Done(owner));
    var next := Finished(p, names, y, act);
    NextOk(p, y, Done(owner));
    Woken(p, names, z, next);
    events := [Done(owner), Wake(next)];
    OneMoreEvent(p, y, [], Done(owner));
    OneMoreEvent(p, y, [Done(owner)], Wake(next));
    assert [] + [Done(owner)] == [Done(owner)] && [Done(owner)] + [Wake(next)] == events;
  }

  /** After Busy, with the slot given to somebody who has not woken up yet. */
  ghost predicate Handed(p: Policy, names: seq<string>, y: System, w: Waiter) {
    && SystemOk(p, y) && Named(p, names) && !y.lim.closed
    && y.lim.serving == Some(w) && w in y.phase && y.phase[w] == Notified
    && |y.lim.lanes| == |p.weights| && forall i :: 0 <= i < |names| ==> Solo(y.lim.lanes[i], names[i])
  }

  lemma Finished(p: Policy, names: seq<string>, y: System, act: FS.Mask) returns (next: Waiter)
    requires Busy(p, names, y) && |act| == |names| && FS.SomeActive(act)
    requires |y.lim.lanes| == |names| && forall j :: 0 <= j < |names| ==> (y.lim.lanes[j].callers != [] <==> act[j])
    ensures Handed(p, names, Next(p, y, Done(y.lim.serving.value)), next)
    ensures MaskAt(p, y, Done(y.lim.serving.value)) == [act]
  {
    hide Core, LaneOk, PhasesOk, TicketsOk, WorkConserving, Solo, FS.SomeActive, Select, Release, Selects, Active;
    var owner := y.lim.serving.value;
    BusyFacts(p, names, y);
    NextFacts(p, y, Done(owner));
    NextOk(p, y, Done(owner));
    CoreShape(p, y.lim);
    next := HandedOn(p, names, y.lim, act);
    assert Held(y.lim, next) && next != owner;
  }

  /** Releasing the slot hands it to the one waiter of some class, and leaves that class idle. */
  lemma HandedOn(p: Policy, names: seq<string>, s: State, act: FS.Mask) returns (next: Waiter)
    requires p.Valid() && Named(p, names) && |act| == |names| == |s.lanes| && FS.SomeActive(act)
    requires Core(p, s) && s.serving.Some? && !s.closed && s.serving.value.cls < |s.classDepth|
    requires Core(p, Release(s, s.serving.value))
    requires forall j :: 0 <= j < |names| ==> (s.lanes[j].callers != [] <==> act[j]) && Solo(s.lanes[j], names[j])
    ensures var r := Release(s, s.serving.value);
      && Selects(r) && Active(r) == act && Select(p, r).serving == Some(next) && !Select(p, r).closed
      && |Select(p, r).lanes| == |names| && forall j :: 0 <= j < |names| ==> Solo(Select(p, r).lanes[j], names[j])
    ensures Queued(s, next) && s.serving != Some(next)
  {
    hide LaneOk, ExactDepths, FS.BoundedScores, FS.ValidWeights, FS.SomeActive, FS.Charge, FS.Pick, Solo;
    var r := Release(s, s.serving.value);
    CoreShape(p, r);
    assert Active(r) == act;
    SelectShape(p, r);
    var c := Chosen(p, r);
    ShapeLane(p, s, c);
    SoloGoes(s.lanes[c], c, names[c]);
    next := Head(s.lanes[c]);
    IdleSolo(Pop(s.lanes[c]), names[c]);
    assert Queued(s, next);
  }

  lemma IdleSolo(l: Lane, name: string)
    requires l.callers == []
    ensures Solo(l, name)
  {
  }

  lemma Woken(p: Policy, names: seq<string>, y: System, w: Waiter)
    requires Handed(p, names, y, w)
    ensures Busy(p, names, Next(p, y, Wake(w))) && MaskAt(p, y, Wake(w)) == []
  {
    hide Core, LaneOk, PhasesOk, TicketsOk, Solo;
    NextOk(p, y, Wake(w));
  }

  /** From a busy limiter on, tasks can select by any masks in turn. */
  lemma {:induction false} AnyMasks(p: Policy, names: seq<string>, y: System, acts: seq<FS.Mask>)
    returns (events: seq<Event>)
    requires Busy(p, names, y) && FS.ValidRun(p.weights, acts)
    ensures MasksOf(p, y, events) == acts
    decreases |acts|
  {
    hide SystemOk, Solo, FS.SomeActive, Next, MaskAt, RunFrom, MasksOf;
    if acts == [] {
      NoEvents(p, y);
      events := [];
    } else {
      assert |acts[0]| == |p.weights| && FS.SomeActive(acts[0]);
      var prepared := Arrange(p, names, y, acts[0], |names|);
      var z := RunFrom(p, y, prepared);
      var turn := TurnOver(p, names, z, acts[0]);
      var rest := AnyMasks(p, names, RunFrom(p, z, turn), acts[1..]);
      events := prepared + (turn + rest);
      RunConcat(p, z, turn, rest);
      RunConcat(p, y, prepared, turn + rest);
      assert acts == [acts[0]] + acts[1..];
    }
  }

  lemma NoEvents(p: Policy, y: System)
    requires SystemOk(p, y)
    ensures MasksOf(p, y, []) == [] && RunFrom(p, y, []) == y
  {
  }

  /** The mask of the first arrival in an idle limiter. */
  function Only(k: nat): FS.Mask { seq(k, i => i == 0) }

  /** The very first arrival takes the slot, and leaves every score at zero. */
  lemma FirstArrival(p: Policy, names: seq<string>)
    requires p.Valid() && Named(p, names)
    ensures SystemOk(p, Start(p)) && Busy(p, names, Next(p, Start(p), Arrive(names[0], 1.0, 0.0)))
    ensures MaskAt(p, Start(p), Arrive(names[0], 1.0, 0.0)) == [Only(|names|)]
  {
    hide Core, LaneOk, PhasesOk, TicketsOk, WorkConserving, Solo, FS.SomeActive, FS.ValidWeights, Select, Enqueue;
    StartOk(p);
    var y, e := Start(p), Event.Arrive(names[0], 1.0, 0.0);
    NextFacts(p, y, e);
    NextOk(p, y, e);
    FirstSelection(p, names, Arrival(p, y, e));
    FirstLanes(p, names, Next(p, y, e).lim);
  }

  lemma FirstSelection(p: Policy, names: seq<string>, w: Waiter)
    requires p.Valid() && Named(p, names) && w.caller == names[0] && w.cls == 0
    requires Core(p, Fresh(p)) && Core(p, Enqueue(Fresh(p), w))
    ensures var s := Enqueue(Fresh(p), w);
      && Selects(s) && Active(s) == Only(|names|) && Select(p, s).serving == Some(w) && !Select(p, s).closed
      && |Select(p, s).lanes| == |names| && forall i :: 0 <= i < |names| ==> Select(p, s).lanes[i].callers == []
  {
    hide LaneOk, ExactDepths, FS.BoundedScores, FS.ValidWeights, FS.SomeActive, FS.Charge, FS.Pick;
    var s := Enqueue(Fresh(p), w);
    CoreShape(p, s);
    assert Active(s) == Only(|names|);
    assert FS.SomeActive(Only(|names|)) by { OnlyActive(|names|); }
    SelectShape(p, s);
    assert Chosen(p, s) == 0;
    SoloComes(EMPTY, 0, names[0], w);
    ShapeLane(p, s, 0);
    SoloGoes(s.lanes[0], 0, names[0]);
    assert Head(s.lanes[0]) == w;
  }

  lemma FirstLanes(p: Policy, names: seq<string>, s: State)
    requires |s.lanes| == |names| && forall i :: 0 <= i < |names| ==> s.lanes[i].callers == []
    ensures forall i :: 0 <= i < |names| ==> Solo(s.lanes[i], names[i])
  {
  }

  lemma OnlyActive(k: nat)
    requires k >= 1
    ensures FS.SomeActive(Only(k))
  {
    assert Only(k)[0];
  }

  lemma OnlyKeepsZero(w: seq<int>)
    requires FS.ValidWeights(w)
    ensures FS.ValidRun(w, [Only(|w|)])
    ensures FS.ScoresAfter(w, FS.Zeros(|w|), [Only(|w|)], 1) == FS.Zeros(|w|)
  {
    OnlyActive(|w|);
    var act, z := Only(|w|), FS.Zeros(|w|);
    FS.SingleMask(act, 0, w);
    assert FS.Pick(w, z, act) == 0;
    assert FS.Charge(w, z, act) == z;
  }

  /**
   Every sequence of masks is realised: some run of a new limiter selects, after
   its very first arrival, by exactly these masks, from zero scores.
   */
  lemma EveryMaskRunHappens(p: Policy, names: seq<string>, acts: seq<FS.Mask>) returns (events: seq<Event>)
    requires p.Valid() && Named(p, names) && FS.ValidRun(p.weights, acts)
    ensures SystemOk(p, Start(p)) && MasksOf(p, Start(p), events) == [Only(|names|)] + acts
    ensures |PicksOf(p, Start(p), events)| == 1 + |acts|
    ensures forall n :: 0 <= n < |acts| ==>
              PicksOf(p, Start(p), events)[1 + n] == FS.Served(p.weights, FS.Zeros(|p.weights|), acts, n)
  {
    hide SystemOk, Busy, MaskAt, Next, FS.ScoresAfter, FS.Served, FS.ValidWeights;
    FirstArrival(p, names);
    var y, e := Start(p), Event.Arrive(names[0], 1.0, 0.0);
    NextOk(p, y, e);
    var rest := AnyMasks(p, names, Next(p, y, e), acts);
    events := [e] + rest;
    assert events[0] == e && events[1..] == rest;
    RunsAreMaskRuns(p, y, events);
    OnlyKeepsZero(p.weights);
    forall n | 0 <= n < |acts|
      ensures PicksOf(p, y, events)[1 + n] == FS.Served(p.weights, FS.Zeros(|p.weights|), acts, n)
    {
      FS.RunConcat(p.weights, FS.Zeros(|p.weights|), [Only(|names|)], acts, n);
    }
  }

  // ---------------------------------------------------------------- the documented promise

  /** The class is waiting at every selection from m to n of the run and is served at none. */
  ghost predicate Ignored(p: Policy, events: seq<Event>, i: nat, m: nat, n: nat)
    requires p.Valid()
  {
    StartOk(p);
    var acts, picks := MasksOf(p, Start(p), events), PicksOf(p, Start(p), events);
    && m <= n <= |acts| && |picks| == |acts|
    && forall j :: m <= j < n ==> i < |acts[j]| && acts[j][i] && picks[j] != i
  }

  /** In every run of the limiter a waiting class is served within eleven selections. */
  ghost predicate LimiterKeeps(p: Policy, i: nat)
    requires p.Valid()
  {
    forall events: seq<Event>, m: nat, n: nat :: Ignored(p, events, i, m, n) ==> n - m <= 10
  }

  lemma IgnoredIsPassedOver(p: Policy, events: seq<Event>, i: nat, m: nat, n: nat)
    requires p.Valid() && SystemOk(p, Start(p)) && i < |p.weights| && Ignored(p, events, i, m, n)
    ensures var acts := MasksOf(p, Start(p), events);
      && m <= n <= |acts|
      && FS.ValidRun(p.weights, acts) && FS.PassedOver(p.weights, FS.Zeros(|p.weights|), acts, i, m, n)
  {
    hide SystemOk, MasksOf, PicksOf, RunFrom, FS.ScoresAfter, FS.Served, FS.ValidRun;
    RunsAreMaskRuns(p, Start(p), events);
  }

  /**
   The documented promise, of the limiter itself: with the shipped weights, and a
   caller in each class, trading and standard are served within eleven decisions
   in every run of arrivals, cancellations and finished admissions, and bulk is not.
   */
  lemma LimiterPromise(p: Policy, names: seq<string>, i: nat)
    requires p.Valid() && p.weights == SW.SHIPPED && Named(p, names) && i < 3
    ensures LimiterKeeps(p, i) <==> i != 2
  {
    hide SystemOk, Named, MasksOf, PicksOf, FS.ScoresAfter, FS.Served, FS.ValidRun, FS.PassedOver, Ignored;
    StartOk(p);
    SW.PromiseUnlessBulk(i);
    if i != 2 {
      forall events: seq<Event>, m: nat, n: nat | Ignored(p, events, i, m, n) ensures n - m <= 10 {
        IgnoredIsPassedOver(p, events, i, m, n);
      }
    } else {
      var events, m, n := BulkIgnored(p, names);
    }
  }

  /** A run of the limiter in which bulk waits at eleven selections in a row and is not served. */
  lemma BulkIgnored(p: Policy, names: seq<string>) returns (events: seq<Event>, m: nat, n: nat)
    requires p.Valid() && p.weights == SW.SHIPPED && Named(p, names)
    ensures Ignored(p, events, 2, m, n) && n - m == 11
  {
    hide SystemOk, Named, MasksOf, PicksOf, FS.ScoresAfter, FS.Served;
    SW.BulkBreaksExactly(0);
    var acts: seq<FS.Mask>, a: nat, b: nat :|
      && FS.ValidRun(SW.SHIPPED, acts) && a <= b <= |acts| && b - a == 11
      && FS.ScoresAfter(SW.SHIPPED, FS.Zeros(3), acts, a)[2] == 0
      && FS.PassedOver(SW.SHIPPED, FS.Zeros(3), acts, 2, a, b);
    events := EveryMaskRunHappens(p, names, acts);
    m, n := a + 1, b + 1;
    var all, picks := MasksOf(p, Start(p), events), PicksOf(p, Start(p), events);
    forall j | m <= j < n ensures 2 < |all[j]| && all[j][2] && picks[j] != 2 {
      assert all[j] == acts[j - 1] && acts[j - 1][2];
      assert picks[1 + (j - 1)] == FS.Served(p.weights, FS.Zeros(3), acts, j - 1);
    }
  }

  // ---------------------------------------------------------------- callers that stay queued together

  /** All three classes have somebody waiting at every selection from m to n of the run. */
  ghost predicate AllQueued(p: Policy, events: seq<Event>, m: nat, n: nat)
    requires p.Valid()
  {
    StartOk(p);
    SB.Together(MasksOf(p, Start(p), events), m, n)
  }

  /** In every run of the limiter, a class waiting while all three stay queued is served within eleven selections. */
  ghost predicate LimiterKeepsTogether(p: Policy, i: nat)
    requires p.Valid()
  {
    forall events: seq<Event>, m: nat, n: nat ::
      AllQueued(p, events, m, n) && Ignored(p, events, i, m, n) ==> n - m <= 10
  }

  /**
   A run of the limiter in which all three classes wait at fourteen selections in a
   row and bulk is served at none.
   */
  lemma BulkIgnoredTogether(p: Policy, names: seq<string>) returns (events: seq<Event>, m: nat, n: nat)
    requires p.Valid() && p.weights == SW.SHIPPED && Named(p, names)
    ensures AllQueued(p, events, m, n) && Ignored(p, events, 2, m, n) && n - m == 14
  {
    hide SystemOk, Named, MasksOf, PicksOf, FS.ScoresAfter, FS.Served;
    var acts, a := SB.FourteenTogether();
    events := EveryMaskRunHappens(p, names, acts);
    m, n := a + 1, a + 15;
    var all, picks := MasksOf(p, Start(p), events), PicksOf(p, Start(p), events);
    forall j | m <= j < n ensures all[j] == SW.MaskOf(SW.ALL) && all[j][2] && picks[j] != 2 {
      assert all[j] == acts[j - 1] && acts[j - 1] == SW.MaskOf(SW.ALL);
      assert acts[j - 1][2] && FS.Served(SW.SHIPPED, FS.Zeros(3), acts, j - 1) != 2;
      assert picks[1 + (j - 1)] == FS.Served(p.weights, FS.Zeros(3), acts, j - 1);
    }
  }

  /**
   The documented promise as it is worded, for callers queued together: trading and
   standard are served within eleven decisions in every run, and bulk is not.
   */
  lemma LimiterPromiseTogether(p: Policy, names: seq<string>, i: nat)
    requires p.Valid() && p.weights == SW.SHIPPED && Named(p, names) && i < 3
    ensures LimiterKeepsTogether(p, i) <==> i != 2
  {
    hide SystemOk, Named, Ignored, AllQueued;
    LimiterPromise(p, names, i);
    if i == 2 {
      var events, m, n := BulkIgnoredTogether(p, names);
    }
  }
}
