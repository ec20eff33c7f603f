/**
 The tasks that call the fair limiter, interleaved in any order: arrivals,
 wake-ups, cancellations, finished admissions and close.
 */
module FairTasks {
  import opened Prelude
  import opened Lanes
  import opened FairAdmission
  import FS = FairScores

  /** Asleep on the condition, notified and about to re-check, or holding the slot at the bucket. */
  datatype Phase = Sleeping | Notified | Admitting

  /** `departed` lists the tickets that have left, in order of leaving. */
  datatype System = System(lim: State, phase: map<Waiter, Phase>, next: nat, departed: seq<nat>)

  datatype Event =
    | Arrive(caller: string, cost: real, at: real)
    | Wake(w: Waiter)
    | Cancel(w: Waiter)
    | Done(w: Waiter)
    | Close

  function Start(p: Policy): System { System(Fresh(p), map[], 0, []) }

  function NotifyAll(phase: map<Waiter, Phase>): map<Waiter, Phase> {
    map w | w in phase :: if phase[w] == Sleeping then Notified else phase[w]
  }

  function Arrival(p: Policy, y: System, e: Event): Waiter
    requires e.Arrive?
  {
    Waiter(y.next, e.caller, p.ClassFor(e.caller), e.cost, e.at)
  }

  /** A task that stops waiting here: it was cancelled, or it woke up in a closed limiter. */
  predicate GivesUp(y: System, e: Event) {
    match e
    case Wake(w) => w in y.phase && y.phase[w] == Notified && y.lim.closed
    case Cancel(w) => w in y.phase && y.phase[w] != Admitting
    case _ => false
  }

  predicate Finishes(y: System, e: Event) {
    e.Done? && e.w in y.phase && y.phase[e.w] == Admitting
  }

  predicate Enters(y: System, e: Event) { e.Arrive? && !y.lim.closed }

  /** The state a critical section hands to the selection it runs, if it runs one. */
  ghost function BeforeSelect(p: Policy, y: System, e: Event): (r: Option<State>)
    requires SystemOk(p, y)
  {
    if Enters(y, e) then Some(Enqueue(y.lim, Arrival(p, y, e)))
    else if GivesUp(y, e) then Some(Abandon(y.lim, e.w))
    else if Finishes(y, e) then Some(Release(y.lim, e.w))
    else None
  }

  ghost predicate PhasesOk(y: System) {
    && (forall w :: w in y.phase <==> Held(y.lim, w))
    && (forall w :: w in y.phase && y.phase[w] == Admitting ==> y.lim.serving == Some(w))
    && (y.lim.serving.Some? ==> y.lim.serving.value in y.phase && y.phase[y.lim.serving.value] != Sleeping)
    && (y.lim.closed ==> forall w :: w in y.phase ==> y.phase[w] != Sleeping)
  }

  ghost predicate TicketsOk(y: System) {
    && (forall w :: w in y.phase ==> w.ticket < y.next && w.ticket !in y.departed)
    && (forall v, w :: v in y.phase && w in y.phase && v.ticket == w.ticket ==> v == w)
    && NoDup(y.departed)
    && (forall t :: t in y.departed ==> t < y.next)
    && (forall t :: 0 <= t < y.next ==> t in y.departed || exists w :: w in y.phase && w.ticket == t)
  }

  ghost predicate SystemOk(p: Policy, y: System) {
    Core(p, y.lim) && WorkConserving(y.lim) && PhasesOk(y) && TicketsOk(y)
  }

  /** One critical section, or nothing when the event does not apply. */
  ghost function Next(p: Policy, y: System, e: Event): System
    requires SystemOk(p, y)
  {
    NextFacts(p, y, e);
    if Enters(y, e) then
      var w := Arrival(p, y, e);
      var lim := Select(p, Enqueue(y.lim, w));
      System(lim, y.phase[w := if lim.serving == Some(w) then Admitting else Sleeping], y.next + 1, y.departed)
    else if GivesUp(y, e) then
      System(Select(p, Abandon(y.lim, e.w)), NotifyAll(y.phase - {e.w}), y.next, y.departed + [e.w.ticket])
    else if Finishes(y, e) then
      System(Select(p, Release(y.lim, e.w)), NotifyAll(y.phase - {e.w}), y.next, y.departed + [e.w.ticket])
    else if e.Wake? && e.w in y.phase && y.phase[e.w] == Notified then
      y.(phase := y.phase[e.w := if y.lim.serving == Some(e.w) then Admitting else Sleeping])
    else if e.Close? then
      System(y.lim.(closed := true), NotifyAll(y.phase), y.next, y.departed)
    else y
  }

  /** Leaving removes exactly one waiter from what the limiter holds. */
  ghost predicate Leaves(s: State, r: State, w: Waiter) {
    Held(s, w) && forall v :: Held(r, v) <==> Held(s, v) && v != w
  }

  ghost predicate Joins(s: State, r: State, w: Waiter) {
    !Held(s, w) && forall v :: Held(r, v) <==> Held(s, v) || v == w
  }

  lemma NextFacts(p: Policy, y: System, e: Event)
    requires SystemOk(p, y)
    ensures BeforeSelect(p, y, e).Some? ==> Core(p, BeforeSelect(p, y, e).value)
    ensures Enters(y, e) ==> Joins(y.lim, Enqueue(y.lim, Arrival(p, y, e)), Arrival(p, y, e))
    ensures GivesUp(y, e) ==> Leaves(y.lim, Abandon(y.lim, e.w), e.w)
    ensures Finishes(y, e) ==> Leaves(y.lim, Release(y.lim, e.w), e.w) && y.lim.serving == Some(e.w)
  {
    hide ExactDepths, FS.BoundedScores, Shape, FS.ValidWeights, Queued;
    if Enters(y, e) {
      EnqueueOk(p, y.lim, Arrival(p, y, e));
    } else if GivesUp(y, e) {
      AbandonOk(p, y.lim, e.w);
    } else if Finishes(y, e) {
      ReleaseOk(p, y.lim, e.w);
    }
  }

  // ---------------------------------------------------------------- every step keeps the invariant

  lemma StartOk(p: Policy)
    requires p.Valid()
    ensures SystemOk(p, Start(p))
  {
    FS.ZeroScoresBounded(p.weights);
    var s := Fresh(p);
    assert forall w :: !Held(s, w);
    assert Shape(p, s);
  }

  lemma TicketsLeave(y: System, w: Waiter, phase: map<Waiter, Phase>, lim: State)
    requires TicketsOk(y) && w in y.phase
    requires forall v :: v in phase <==> v in y.phase && v != w
    ensures TicketsOk(System(lim, phase, y.next, y.departed + [w.ticket]))
  {
    var z := System(lim, phase, y.next, y.departed + [w.ticket]);
    forall t | 0 <= t < y.next ensures t in z.departed || exists v :: v in phase && v.ticket == t {
      if t !in y.departed {
        var v :| v in y.phase && v.ticket == t;
        if v == w {
          assert z.departed[|y.departed|] == t;
        } else {
          assert v in phase;
        }
      } else {
        assert t in z.departed;
      }
    }
  }

  lemma TicketsJoin(y: System, w: Waiter, f: Phase, lim: State)
    requires TicketsOk(y) && w.ticket == y.next && w !in y.phase
    ensures TicketsOk(System(lim, y.phase[w := f], y.next + 1, y.departed))
  {
    var z := System(lim, y.phase[w := f], y.next + 1, y.departed);
    forall t | 0 <= t < z.next ensures t in z.departed || exists v :: v in z.phase && v.ticket == t {
      if t == y.next {
        assert w in z.phase;
      } else if t !in y.departed {
        var v :| v in y.phase && v.ticket == t;
        assert v in z.phase;
      }
    }
  }

  /** With a free slot in an open limiter there is nobody to lose. */
  lemma NobodyHeld(p: Policy, s: State)
    requires Core(p, s) && WorkConserving(s) && !s.closed && s.serving == None
    ensures forall v :: !Held(s, v)
  {
    hide ExactDepths, FS.BoundedScores;
    forall v ensures !Held(s, v) {
      if v.cls < |s.lanes| {
        assert LaneOk(s.lanes[v.cls], v.cls);
      }
    }
  }

  /**
   No lost wake-up: the one selection that notifies nobody, the arrival's, can
   only pick the arrival itself.
   */
  lemma ArrivalSelectsItself(p: Policy, y: System, e: Event)
    requires SystemOk(p, y) && Enters(y, e)
    ensures Next(p, y, e).lim.serving == y.lim.serving
            || (y.lim.serving == None && Next(p, y, e).lim.serving == Some(Arrival(p, y, e)))
  {
    hide ExactDepths, FS.BoundedScores, LaneOk, Queued;
    var s := Enqueue(y.lim, Arrival(p, y, e));
    NextFacts(p, y, e);
    SelectOk(p, s);
    if Selects(s) {
      NobodyHeld(p, y.lim);
      assert Held(s, Select(p, s).serving.value);
    }
  }

  lemma PhasesJoin(y: System, w: Waiter, lim: State)
    requires PhasesOk(y) && !y.lim.closed && !lim.closed && w !in y.phase
    requires forall v :: Held(lim, v) <==> Held(y.lim, v) || v == w
    requires lim.serving == y.lim.serving || (y.lim.serving == None && lim.serving == Some(w))
    ensures PhasesOk(System(lim, y.phase[w := if lim.serving == Some(w) then Admitting else Sleeping], y.next + 1,
          y.departed))
  {
    hide Held;
    assert y.lim.serving != Some(w);
  }

  lemma EnterOk(p: Policy, y: System, e: Event)
    requires SystemOk(p, y) && Enters(y, e)
    ensures SystemOk(p, Next(p, y, e))
  {
    hide PhasesOk, TicketsOk, ExactDepths, FS.BoundedScores, LaneOk, Has, Held;
    var w, lim := Arrival(p, y, e), Next(p, y, e).lim;
    NextFacts(p, y, e);
    SelectOk(p, Enqueue(y.lim, w));
    ArrivalSelectsItself(p, y, e);
    assert w !in y.phase by { assert PhasesOk(y); PhaseKeys(y); }
    TicketsJoin(y, w, if lim.serving == Some(w) then Admitting else Sleeping, lim);
    PhasesJoin(y, w, lim);
  }

  lemma PhaseKeys(y: System)
    requires PhasesOk(y)
    ensures forall w :: w in y.phase <==> Held(y.lim, w)
  {
  }

  lemma PhasesLeave(y: System, w: Waiter, lim: State, departed: seq<nat>)
    requires PhasesOk(y) && lim.closed == y.lim.closed
    requires forall v :: Held(lim, v) <==> Held(y.lim, v) && v != w
    requires y.lim.serving.Some? && y.lim.serving != Some(w) ==> lim.serving == y.lim.serving
    ensures PhasesOk(System(lim, NotifyAll(y.phase - {w}), y.next, departed))
  {
    assert lim.serving.Some? ==> Held(lim, lim.serving.value);
    hide Held;
  }

  lemma LeaveOk(p: Policy, y: System, e: Event)
    requires SystemOk(p, y) && (GivesUp(y, e) || Finishes(y, e))
    ensures SystemOk(p, Next(p, y, e))
  {
    hide PhasesOk, TicketsOk, ExactDepths, FS.BoundedScores, LaneOk, Has, Held;
    var lim := Next(p, y, e).lim;
    NextFacts(p, y, e);
    var s := BeforeSelect(p, y, e).value;
    SelectOk(p, s);
    PhasesLeave(y, e.w, lim, y.departed + [e.w.ticket]);
    TicketsLeave(y, e.w, NotifyAll(y.phase - {e.w}), lim);
  }

  /** Every step of every task keeps the whole invariant. */
  lemma NextOk(p: Policy, y: System, e: Event)
    requires SystemOk(p, y)
    ensures SystemOk(p, Next(p, y, e))
  {
    hide Core, TicketsOk;
    if Enters(y, e) {
      EnterOk(p, y, e);
    } else if GivesUp(y, e) || Finishes(y, e) {
      LeaveOk(p, y, e);
    } else if e.Close? {
      CloseOk(p, y);
    } else {
      PhaseChangeOk(p, y, e);
    }
  }

  lemma CloseOk(p: Policy, y: System)
    requires SystemOk(p, y)
    ensures SystemOk(p, Next(p, y, Close))
  {
    hide FS.BoundedScores, LaneOk, Has, TicketsOk;
    var z := Next(p, y, Close);
    assert forall v :: Queued(z.lim, v) <==> Queued(y.lim, v);
    assert forall v :: Held(z.lim, v) <==> Held(y.lim, v);
    assert Shape(p, z.lim);
    CloseDepths(p, y.lim);
    TicketsSame(y, z);
  }

  lemma CloseDepths(p: Policy, s: State)
    requires p.Valid() && Shape(p, s) && ExactDepths(p, s) && Shape(p, s.(closed := true))
    ensures ExactDepths(p, s.(closed := true))
  {
    var r := s.(closed := true);
    assert forall c :: Depth(r.callerDepth, c) == CallerLoad(p, s, c) == CallerLoad(p, r, c);
    forall i | 0 <= i < |r.lanes| ensures r.classDepth[i] == ClassLoad(r, i) {
      assert s.classDepth[i] == ClassLoad(s, i);
    }
  }

  lemma TicketsSame(y: System, z: System)
    requires TicketsOk(y) && z.next == y.next && z.departed == y.departed && z.phase.Keys == y.phase.Keys
    ensures TicketsOk(z)
  {
    assert forall w :: w in z.phase <==> w in y.phase;
    forall t | 0 <= t < z.next ensures t in z.departed || exists w :: w in z.phase && w.ticket == t {
      if t !in y.departed {
        var w :| w in y.phase && w.ticket == t;
        assert w in z.phase;
      }
    }
  }

  lemma PhaseChangeOk(p: Policy, y: System, e: Event)
    requires SystemOk(p, y) && !Enters(y, e) && !GivesUp(y, e) && !Finishes(y, e) && !e.Close?
    ensures SystemOk(p, Next(p, y, e))
  {
    hide Core, TicketsOk, Held;
    if e.Wake? && e.w in y.phase && y.phase[e.w] == Notified {
      TicketsSame(y, Next(p, y, e));
    }
  }
}
