/**
 What every event does to the tasks, and what closing does: nobody is admitted any
 more, and everybody leaves by an event of its own.
 */
module FairClosing {
  import opened Prelude
  import opened Lanes
  import opened FairAdmission
  import opened FairTasks
  import opened FairLiveness
  import FS = FairScores

  ghost predicate IsAdmitting(y: System, w: Waiter) { w in y.phase && y.phase[w] == Admitting }

  /** Closed for good, the same owner of the slot or none, and nobody newly admitted or arrived. */
  ghost predicate OnlyDrained(y: System, z: System) {
    && z.lim.closed && (z.lim.serving == y.lim.serving || z.lim.serving == None)
    && z.phase.Keys <= y.phase.Keys && z.next == y.next && y.departed <= z.departed
    && forall w :: IsAdmitting(z, w) ==> IsAdmitting(y, w)
  }

  /** Once the limiter is closed no event admits anybody. */
  lemma ClosedAdmitsNobody(p: Policy, y: System, e: Event)
    requires SystemOk(p, y) && y.lim.closed
    ensures OnlyDrained(y, Next(p, y, e))
  {
    hide Core, TicketsOk, Held, Drop;
    NextFacts(p, y, e);
  }

  /** In every run from a closed limiter on, the admitted tasks are among those admitted before it closed. */
  lemma {:induction false} ClosedRunAdmitsNobody(p: Policy, y: System, events: seq<Event>)
    requires SystemOk(p, y) && y.lim.closed
    ensures OnlyDrained(y, RunFrom(p, y, events))
    decreases |events|
  {
    hide SystemOk, Next;
    if events != [] {
      var z := Next(p, y, events[0]);
      NextOk(p, y, events[0]);
      ClosedAdmitsNobody(p, y, events[0]);
      ClosedRunAdmitsNobody(p, z, events[1..]);
      var last := RunFrom(p, z, events[1..]);
      assert forall w :: IsAdmitting(last, w) ==> IsAdmitting(z, w);
    }
  }

  /** The waiter is gone, and nobody else is. */
  ghost predicate Left(y: System, z: System, w: Waiter) {
    z.phase.Keys == y.phase.Keys - {w} && z.departed == y.departed + [w.ticket] && z.next == y.next
  }

  /**
   What a notified task finds when it wakes up: a closed limiter, and it leaves; its
   turn, and it is admitted; or neither, and it sleeps on.
   */
  lemma WakesTo(p: Policy, y: System, w: Waiter)
    requires SystemOk(p, y) && w in y.phase && y.phase[w] == Notified
    ensures var z := Next(p, y, Wake(w));
      if y.lim.closed then Left(y, z, w)
      else
        && z.lim == y.lim && z.next == y.next && z.departed == y.departed
        && z.phase == y.phase[w := if y.lim.serving == Some(w) then Admitting else Sleeping]
  {
    hide Core, TicketsOk, Held;
  }

  /** Exactly one task joins: the caller that arrived, with a new ticket, at its class, admitted if it got the slot. */
  ghost predicate Arrived(p: Policy, y: System, z: System, caller: string, cost: real, at: real) {
    var w := Waiter(y.next, caller, p.ClassFor(caller), cost, at);
    && w !in y.phase && z.next == y.next + 1 && z.departed == y.departed
    && z.phase == y.phase[w := if z.lim.serving == Some(w) then Admitting else Sleeping]
  }

  /**
   Every event takes effect: an arrival joins an open limiter and is turned away from
   a closed one, a cancelled waiter and a finished admission leave, and close closes.
   */
  lemma EventsTakeEffect(p: Policy, y: System, e: Event)
    requires SystemOk(p, y)
    ensures var z := Next(p, y, e);
      match e
      case Arrive(caller, cost, at) => if y.lim.closed then z == y else Arrived(p, y, z, caller, cost, at)
      case Cancel(w) => if w in y.phase && y.phase[w] != Admitting then Left(y, z, w) else z == y
      case Done(w) => if IsAdmitting(y, w) then Left(y, z, w) else z == y
      case Close => z.lim.closed && z.phase.Keys == y.phase.Keys && z.next == y.next && z.departed == y.departed
      case Wake(w) => w !in y.phase || y.phase[w] != Notified ==> z == y
  {
    hide Core, Held;
    NextFacts(p, y, e);
  }

  /** The event by which a task leaves a closed limiter: it finishes, or it wakes up. */
  function Exit(y: System, w: Waiter): Event
    requires w in y.phase
  {
    if y.phase[w] == Admitting then Done(w) else Wake(w)
  }

  lemma ExitLeaves(p: Policy, y: System, w: Waiter)
    requires SystemOk(p, y) && y.lim.closed && w in y.phase
    ensures Left(y, Next(p, y, Exit(y, w)), w) && Next(p, y, Exit(y, w)).lim.closed
  {
    hide Core, TicketsOk, Held;
    if y.phase[w] == Admitting {
      EventsTakeEffect(p, y, Done(w));
    } else {
      WakesTo(p, y, w);
    }
    ClosedAdmitsNobody(p, y, Exit(y, w));
  }

  /** Nobody is stranded by close: each task needs one event of its own, and then the limiter is empty. */
  lemma {:induction false} CloseDrains(p: Policy, y: System) returns (events: seq<Event>)
    requires SystemOk(p, y) && y.lim.closed
    ensures |events| == |y.phase| && RunFrom(p, y, events).phase == map[]
    ensures RunFrom(p, y, events).lim.serving == None
    ensures forall n :: 0 <= n < |events| ==> events[n].Wake? || events[n].Done?
    decreases |y.phase|
  {
    hide SystemOk, Next;
    if y.phase == map[] {
      events := [];
      EmptySlot(p, y);
    } else {
      var w :| w in y.phase;
      var e := Exit(y, w);
      NextOk(p, y, e);
      ExitLeaves(p, y, w);
      var z := Next(p, y, e);
      assert |z.phase.Keys| == |y.phase.Keys| - 1;
      var rest := CloseDrains(p, z);
      events := [e] + rest;
      assert events[1..] == rest;
    }
  }

  lemma EmptySlot(p: Policy, y: System)
    requires SystemOk(p, y) && y.phase == map[]
    ensures y.lim.serving == None
  {
    hide Core, TicketsOk;
  }
}
