/**
 Nobody waits forever: a measure that every selection lowers, over every run of
 arrivals, wake-ups, cancellations and finished admissions.
 */
module FairLiveness {
  import opened Prelude
  import opened Lanes
  import opened FairAdmission
  import opened FairTasks
  import FS = FairScores

  ghost function RunFrom(p: Policy, y: System, events: seq<Event>): (z: System)
    requires SystemOk(p, y)
    ensures SystemOk(p, z)
    decreases |events|
  {
    if events == [] then y
    else
      NextOk(p, y, events[0]);
      RunFrom(p, Next(p, y, events[0]), events[1..])
  }

  // ---------------------------------------------------------------- safety of whole runs

  /**
   In every run: one admission at a time, the slot's owner is awake, an open
   limiter with a free slot has nobody waiting, close wakes everybody, and every
   ticket ever issued is either still held or has left exactly once.
   */
  lemma EveryRunIsSafe(p: Policy, events: seq<Event>)
    requires p.Valid()
    ensures SystemOk(p, Start(p))
    ensures var y := RunFrom(p, Start(p), events);
      && (forall v, w :: v in y.phase && w in y.phase && y.phase[v] == Admitting == y.phase[w] ==> v == w)
      && (y.lim.serving.Some? ==> y.lim.serving.value in y.phase && y.phase[y.lim.serving.value] != Sleeping)
      && (y.lim.serving == None && !y.lim.closed ==> y.phase == map[])
      && (y.lim.closed ==> forall w :: w in y.phase ==> y.phase[w] != Sleeping)
      && NoDup(y.departed)
      && (forall t :: 0 <= t < y.next ==> (t in y.departed <==> !exists w :: w in y.phase && w.ticket == t))
  {
    hide RunFrom, Core, WorkConserving;
    StartOk(p);
    var y := RunFrom(p, Start(p), events);
    if y.lim.serving == None && !y.lim.closed {
      NobodyHeld(p, y.lim);
    }
  }

  // ---------------------------------------------------------------- the measure

  /** Turns of the class that may pass before w's, when at most `room` callers are ever in line. */
  function Ahead(l: Lane, w: Waiter, room: nat): int
    requires w.caller in l.callers && w.caller in l.queues && w in l.queues[w.caller]
  {
    QueuePlace(l, w) * room + CallerPlace(l, w)
  }

  /** More than any score can move during one wait for the class: twice the score range. */
  function Lap(p: Policy, cls: nat): int
    requires cls < |p.weights|
  {
    FS.CreditCap(p.weights) + (|p.weights| - 1) * Sum(p.weights) + p.weights[cls]
  }

  ghost predicate InLine(s: State, w: Waiter) {
    Queued(s, w) && w.caller in s.lanes[w.cls].callers
  }

  function Distance(p: Policy, s: State, w: Waiter, room: nat): int
    requires |s.lanes| == |s.scores| == |p.weights| && InLine(s, w)
  {
    Ahead(s.lanes[w.cls], w, room) * Lap(p, w.cls) + FS.CreditCap(p.weights) - s.scores[w.cls]
  }

  lemma QueuedInLine(p: Policy, s: State, w: Waiter)
    requires Shape(p, s) && Queued(s, w)
    ensures InLine(s, w) && w.cls < |p.weights| && |s.lanes| == |s.scores| == |p.weights|
  {
    assert LaneOk(s.lanes[w.cls], w.cls);
  }

  /** `room` bounds the callers in line; it does not matter to a waiter that is first of its caller. */
  ghost predicate RoomOk(l: Lane, w: Waiter, room: nat) {
    && w.caller in l.queues && w in l.queues[w.caller]
    && (QueuePlace(l, w) == 0 || |l.callers| <= room)
  }

  /** One turn of w's class, not yet w's, is one fewer ahead of it. */
  lemma TurnAdvances(l: Lane, cls: nat, w: Waiter, room: nat)
    requires LaneOk(l, cls) && Has(l, w) && w.caller in l.callers && RoomOk(l, w, room)
    requires l.callers != [] && l.callers[0] in l.queues && l.queues[l.callers[0]] != []
    requires w != Head(l)
    ensures Has(Pop(l), w) && w.caller in Pop(l).callers
    ensures Ahead(Pop(l), w, room) + 1 <= Ahead(l, w, room)
  {
    hide LaneOk;
    PopAdvances(l, cls, w);
    FS.Distribute(room, QueuePlace(l, w), 0, 1);
  }

  /** The arithmetic of one selection: either a lap or a weight closer. */
  lemma LapArithmetic(ahead: int, ahead': int, lap: int, cap: int, low: int, weight: int, score: int, score': int)
    requires lap == cap + low + weight && lap >= 0
    requires ahead' + 1 <= ahead
    requires -low <= score' && score <= cap
    ensures ahead' * lap + cap - score' + weight <= ahead * lap + cap - score
  {
    FS.MulMono(lap, ahead' + 1, ahead);
    assert lap * (ahead' + 1) == ahead' * lap + lap;
  }

  lemma LapNonNegative(p: Policy, cls: nat)
    requires p.Valid() && cls < |p.weights|
    ensures Lap(p, cls) >= 1 && FS.CreditCap(p.weights) >= 0
  {
    SumAt(p.weights, cls);
    FS.MulMono(|p.weights| - 1, 0, Sum(p.weights));
    FS.MulMono(|p.weights| - 1, 0, Sum(p.weights) - 1);
  }

  /** A selection that does not pick w brings w's turn closer by at least its class's weight. */
  lemma SelectAdvances(p: Policy, s: State, w: Waiter, room: nat)
    requires Core(p, s) && Selects(s) && Queued(s, w) && RoomOk(s.lanes[w.cls], w, room)
    requires Select(p, s).serving != Some(w)
    ensures Core(p, Select(p, s)) && InLine(s, w) && InLine(Select(p, s), w) && w.cls < |p.weights|
    ensures Distance(p, Select(p, s), w, room) + p.weights[w.cls] <= Distance(p, s, w, room)
    ensures Ahead(Select(p, s).lanes[w.cls], w, room) + Slot(Chosen(p, s) == w.cls)
            <= Ahead(s.lanes[w.cls], w, room)
  {
    hide FS.BoundedScores, ExactDepths, FS.ValidWeights, FS.Charge, FS.Pick, LaneOk, Ahead, RoomOk, FS.CreditCap;
    var r, c, i := Select(p, s), Chosen(p, s), w.cls;
    SelectOk(p, s);
    SelectShape(p, s);
    QueuedInLine(p, s, w);
    assert Held(s, w) && Held(r, w);
    QueuedInLine(p, r, w);
    LapNonNegative(p, i);
    FS.ScoreRange(p.weights, s.scores, i);
    FS.ScoreRange(p.weights, r.scores, i);
    if c == i {
      TurnAdvances(s.lanes[i], i, w, room);
      LapArithmetic(Ahead(s.lanes[i], w, room), Ahead(r.lanes[i], w, room), Lap(p, i),
                    FS.CreditCap(p.weights), (|p.weights| - 1) * Sum(p.weights), p.weights[i],
                    s.scores[i], r.scores[i]);
    } else {
      WaitingIsActive(s, w);
      FS.UnservedGains(p.weights, s.scores, Active(s), i);
    }
  }

  lemma WaitingIsActive(s: State, w: Waiter)
    requires InLine(s, w)
    ensures Active(s)[w.cls]
  {
  }

  // ---------------------------------------------------------------- one event

  /** Arrivals and departures, before any selection, never push a waiter back. */
  lemma SectionKeepsPlace(p: Policy, y: System, e: Event, w: Waiter, room: nat)
    requires SystemOk(p, y) && BeforeSelect(p, y, e).Some?
    requires Queued(y.lim, w) && Queued(BeforeSelect(p, y, e).value, w)
    ensures var s := BeforeSelect(p, y, e).value;
      && Core(p, s) && InLine(y.lim, w) && InLine(s, w) && w.cls < |p.weights|
      && Ahead(s.lanes[w.cls], w, room) <= Ahead(y.lim.lanes[w.cls], w, room)
      && s.scores == y.lim.scores
  {
    hide FS.BoundedScores, ExactDepths, FS.ValidWeights, Core, LaneOk, Shape, Ahead;
    var s, i := BeforeSelect(p, y, e).value, w.cls;
    NextFacts(p, y, e);
    QueuedInLine(p, y.lim, w) by { assert Core(p, y.lim); CoreShape(p, y.lim); }
    QueuedInLine(p, s, w) by { CoreShape(p, s); }
    var a, b := y.lim.lanes[i], s.lanes[i];
    assert LaneOk(a, i) by { CoreShape(p, y.lim); ShapeLane(p, y.lim, i); }
    if a == b {
    } else if Enters(y, e) {
      PushKeepsPlace(a, i, Arrival(p, y, e), w);
      SameAhead(a, b, w, room);
    } else {
      assert b == Drop(a, e.w);
      assert Has(a, e.w) && e.w != w by { DroppedWasQueued(p, y, e, w); }
      DropKeepsPlace(a, i, e.w, w);
      SameAhead(a, b, w, room);
    }
  }

  lemma ShapeLane(p: Policy, s: State, i: nat)
    requires Shape(p, s) && i < |s.lanes|
    ensures LaneOk(s.lanes[i], i)
  {
  }

  lemma SameAhead(a: Lane, b: Lane, w: Waiter, room: nat)
    requires w.caller in a.callers && Has(a, w) && w.caller in b.callers && Has(b, w)
    requires CallerPlace(b, w) <= CallerPlace(a, w) && QueuePlace(b, w) <= QueuePlace(a, w)
    ensures Ahead(b, w, room) <= Ahead(a, w, room)
  {
    FS.MulMono(room, QueuePlace(b, w), QueuePlace(a, w));
  }

  lemma DroppedWasQueued(p: Policy, y: System, e: Event, w: Waiter)
    requires SystemOk(p, y) && BeforeSelect(p, y, e).Some? && !Enters(y, e)
    requires w.cls < |y.lim.lanes| && BeforeSelect(p, y, e).value.lanes[w.cls] != y.lim.lanes[w.cls]
    requires Queued(BeforeSelect(p, y, e).value, w)
    ensures e.w.cls == w.cls && Has(y.lim.lanes[w.cls], e.w) && e.w != w
  {
    hide FS.BoundedScores, ExactDepths, FS.ValidWeights, LaneOk;
    NextFacts(p, y, e);
    assert Held(BeforeSelect(p, y, e).value, w);
    assert Held(y.lim, e.w);
  }

  // ---------------------------------------------------------------- whole runs

  ghost predicate SelectsAt(p: Policy, y: System, e: Event)
    requires SystemOk(p, y)
  {
    BeforeSelect(p, y, e).Some? && Selects(BeforeSelect(p, y, e).value)
  }

  /** Whether selecting here gives a turn to class i. */
  ghost predicate Turn(p: Policy, s: State, i: nat)
    requires Shape(p, s)
  {
    Selects(s) && Chosen(p, s) == i
  }

  ghost predicate TurnAt(p: Policy, y: System, e: Event, i: nat)
    requires SystemOk(p, y)
  {
    BeforeSelect(p, y, e).Some? && (NextFacts(p, y, e); Turn(p, BeforeSelect(p, y, e).value, i))
  }

  ghost function Selections(p: Policy, y: System, events: seq<Event>): nat
    requires SystemOk(p, y)
    decreases |events|
  {
    if events == [] then 0
    else
      NextOk(p, y, events[0]);
      Slot(SelectsAt(p, y, events[0])) + Selections(p, Next(p, y, events[0]), events[1..])
  }

  ghost function TurnsOf(p: Policy, y: System, events: seq<Event>, i: nat): nat
    requires SystemOk(p, y)
    decreases |events|
  {
    if events == [] then 0
    else
      NextOk(p, y, events[0]);
      Slot(TurnAt(p, y, events[0], i)) + TurnsOf(p, Next(p, y, events[0]), events[1..], i)
  }

  /** w is in line throughout this event, and never has more than `room` callers in line with it. */
  ghost predicate WaitsThrough(p: Policy, y: System, e: Event, w: Waiter, room: nat)
    requires SystemOk(p, y)
  {
    && Queued(y.lim, w) && Queued(Next(p, y, e).lim, w)
    && (BeforeSelect(p, y, e).Some? ==>
          Queued(BeforeSelect(p, y, e).value, w) && RoomOk(BeforeSelect(p, y, e).value.lanes[w.cls], w, room))
  }

  ghost predicate WaitsThroughout(p: Policy, y: System, events: seq<Event>, w: Waiter, room: nat)
    requires SystemOk(p, y)
    decreases |events|
  {
    if events == [] then Queued(y.lim, w)
    else
      NextOk(p, y, events[0]);
      && WaitsThrough(p, y, events[0], w, room)
      && WaitsThroughout(p, Next(p, y, events[0]), events[1..], w, room)
  }

  /** Running the selection, whether or not it serves anybody. */
  lemma SelectionAdvances(p: Policy, s: State, w: Waiter, room: nat)
    requires Core(p, s) && Queued(s, w) && RoomOk(s.lanes[w.cls], w, room)
    requires Queued(Select(p, s), w)
    ensures Core(p, Select(p, s)) && InLine(s, w) && InLine(Select(p, s), w) && w.cls < |p.weights|
    ensures Distance(p, Select(p, s), w, room) + Slot(Selects(s)) * p.weights[w.cls] <= Distance(p, s, w, room)
    ensures Ahead(Select(p, s).lanes[w.cls], w, room) + Slot(Turn(p, s, w.cls)) <= Ahead(s.lanes[w.cls], w, room)
  {
    hide ExactDepths, LaneOk, RoomOk, FS.BoundedScores, Distance, Ahead;
    SelectOk(p, s);
    QueuedInLine(p, s, w);
    QueuedInLine(p, Select(p, s), w);
    QueuedNotServed(p, Select(p, s), w);
    if Selects(s) {
      SelectAdvances(p, s, w, room);
    }
  }

  /** One event: every selection comes closer by the class weight, every class turn by a place. */
  lemma EventAdvances(p: Policy, y: System, e: Event, w: Waiter, room: nat)
    requires SystemOk(p, y) && WaitsThrough(p, y, e, w, room)
    ensures InLine(y.lim, w) && InLine(Next(p, y, e).lim, w) && w.cls < |p.weights|
    ensures |y.lim.lanes| == |y.lim.scores| == |Next(p, y, e).lim.lanes| == |Next(p, y, e).lim.scores| == |p.weights|
    ensures Distance(p, Next(p, y, e).lim, w, room) + Slot(SelectsAt(p, y, e)) * p.weights[w.cls]
            <= Distance(p, y.lim, w, room)
    ensures Ahead(Next(p, y, e).lim.lanes[w.cls], w, room) + Slot(TurnAt(p, y, e, w.cls))
            <= Ahead(y.lim.lanes[w.cls], w, room)
  {
    hide Core, LaneOk, Shape, Ahead, RoomOk, FS.CreditCap, PhasesOk, TicketsOk, FS.SomeActive, Lap;
    NextOk(p, y, e);
    CoreShape(p, y.lim);
    CoreShape(p, Next(p, y, e).lim);
    QueuedInLine(p, y.lim, w);
    QueuedInLine(p, Next(p, y, e).lim, w);
    if BeforeSelect(p, y, e).Some? {
      var s := BeforeSelect(p, y, e).value;
      SectionKeepsPlace(p, y, e, w, room);
      CoreShape(p, s);
      LapNonNegative(p, w.cls);
      FS.MulMono(Lap(p, w.cls), Ahead(s.lanes[w.cls], w, room), Ahead(y.lim.lanes[w.cls], w, room));
      SelectionAdvances(p, s, w, room);
    }
  }

  lemma QueuedNotServed(p: Policy, s: State, w: Waiter)
    requires Shape(p, s) && Queued(s, w)
    ensures s.serving != Some(w)
  {
  }

  lemma {:induction false} RunAdvances(p: Policy, y: System, events: seq<Event>, w: Waiter, room: nat)
    requires SystemOk(p, y) && WaitsThroughout(p, y, events, w, room)
    ensures InLine(y.lim, w) && w.cls < |p.weights| == |y.lim.lanes| == |y.lim.scores|
    ensures Selections(p, y, events) * p.weights[w.cls] <= Distance(p, y.lim, w, room)
    ensures TurnsOf(p, y, events, w.cls) <= Ahead(y.lim.lanes[w.cls], w, room)
    decreases |events|
  {
    hide Core, LaneOk, Shape, Ahead, SystemOk, Distance, Next, SelectsAt, TurnAt;
    QueuedHasDistance(p, y, w, room);
    if events != [] {
      NextOk(p, y, events[0]);
      var z := Next(p, y, events[0]);
      RunAdvances(p, z, events[1..], w, room);
      EventAdvances(p, y, events[0], w, room);
      FS.Distribute(p.weights[w.cls], Slot(SelectsAt(p, y, events[0])), Selections(p, z, events[1..]), 0);
    }
  }

  lemma QueuedHasDistance(p: Policy, y: System, w: Waiter, room: nat)
    requires SystemOk(p, y) && Queued(y.lim, w)
    ensures InLine(y.lim, w) && w.cls < |p.weights| == |y.lim.lanes| == |y.lim.scores|
    ensures 0 <= Ahead(y.lim.lanes[w.cls], w, room)
    ensures 0 <= Distance(p, y.lim, w, room)
    ensures Distance(p, y.lim, w, room)
            <= (Ahead(y.lim.lanes[w.cls], w, room) + 1) * Lap(p, w.cls) - p.weights[w.cls]
  {
    hide ExactDepths, LaneOk, FS.BoundedScores, FS.CreditCap, Ahead;
    QueuedInLine(p, y.lim, w);
    LapNonNegative(p, w.cls);
    FS.ScoreRange(p.weights, y.lim.scores, w.cls);
    var a := Ahead(y.lim.lanes[w.cls], w, room);
    AheadNonNegative(y.lim.lanes[w.cls], w, room);
    FS.MulMono(Lap(p, w.cls), 0, a);
    assert (a + 1) * Lap(p, w.cls) == a * Lap(p, w.cls) + Lap(p, w.cls);
  }

  lemma AheadNonNegative(l: Lane, w: Waiter, room: nat)
    requires w.caller in l.callers && w.caller in l.queues && w in l.queues[w.caller]
    ensures 0 <= Ahead(l, w, room)
  {
    FS.MulMono(room, 0, QueuePlace(l, w));
  }

  /**
   No waiter starves, in any run: while w is in line, with at most `room` callers
   in its class whenever others of its own caller are ahead of it, the number of
   selections is bounded by its place in line alone.
   */
  lemma WaitIsBounded(p: Policy, y: System, events: seq<Event>, w: Waiter, room: nat)
    requires SystemOk(p, y) && WaitsThroughout(p, y, events, w, room)
    ensures InLine(y.lim, w) && w.cls < |p.weights|
    ensures Selections(p, y, events) * p.weights[w.cls]
            <= (Ahead(y.lim.lanes[w.cls], w, room) + 1) * Lap(p, w.cls) - p.weights[w.cls]
  {
    hide SystemOk, Selections, Distance, Ahead, Lap, WaitsThroughout;
    RunAdvances(p, y, events, w, room);
    QueuedAtStart(p, y, events, w, room);
    QueuedHasDistance(p, y, w, room);
  }

  lemma QueuedAtStart(p: Policy, y: System, events: seq<Event>, w: Waiter, room: nat)
    requires SystemOk(p, y) && WaitsThroughout(p, y, events, w, room)
    ensures Queued(y.lim, w)
  {
  }

  /**
   Round-robin inside the class: the first waiter of the caller at place q of
   the deque is served at the latest by the (q+1)-st turn of the class, whoever
   arrives or leaves meanwhile.
   */
  lemma CallerTurnIsBounded(p: Policy, y: System, events: seq<Event>, w: Waiter)
    requires SystemOk(p, y) && WaitsThroughout(p, y, events, w, 0)
    requires Queued(y.lim, w) && QueuePlace(y.lim.lanes[w.cls], w) == 0
    ensures InLine(y.lim, w)
    ensures TurnsOf(p, y, events, w.cls) <= CallerPlace(y.lim.lanes[w.cls], w)
  {
    hide SystemOk, TurnsOf, WaitsThroughout;
    RunAdvances(p, y, events, w, 0);
  }
}
