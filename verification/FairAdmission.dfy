/**
 Weighted fair admission: the limiter's state and the critical sections that
 change it, with what each section keeps.
 */
module FairAdmission {
  import opened Prelude
  import opened Lanes
  import FS = FairScores

  // ---------------------------------------------------------------- policy

  function LowerChar(c: char): char {
    if 'A' <= c <= 'Z' then c - 'A' + 'a' else c
  }

  function Lower(s: string): string {
    seq(|s|, i requires 0 <= i < |s| => LowerChar(s[i]))
  }

  /** Class weights in table order, the default class, and the class of each known caller. */
  datatype Policy = Policy(weights: seq<int>, defaultClass: nat, callers: map<string, nat>) {
    ghost predicate Valid() {
      && FS.ValidWeights(weights) && defaultClass < |weights|
      && forall c :: c in callers ==> callers[c] < |weights|
    }

    function ClassFor(caller: string): nat {
      if Lower(caller) in callers then callers[Lower(caller)] else defaultClass
    }
  }

  const CAPITALS: string := "ABCDEFGHIJKLMNOPQRSTUVWXYZ"
  const SMALL: string := "abcdefghijklmnopqrstuvwxyz"

  /** The two forms of one letter. */
  ghost predicate Twins(a: char, b: char) {
    exists k :: 0 <= k < 26 && CAPITALS[k] == a && SMALL[k] == b
  }

  /** Equal up to the case of letters. */
  ghost predicate SameLabel(a: string, b: string) {
    |a| == |b| && forall i :: 0 <= i < |a| ==> a[i] == b[i] || Twins(a[i], b[i]) || Twins(b[i], a[i])
  }

  lemma AlphabetIs(k: nat)
    requires k < 26
    ensures CAPITALS[k] == 'A' + k as char && SMALL[k] == 'a' + k as char
  {
  }

  lemma TwinsAre(a: char, b: char)
    ensures Twins(a, b) <==> 'A' <= a <= 'Z' && b == LowerChar(a)
  {
    if 'A' <= a <= 'Z' && b == LowerChar(a) {
      var k := (a - 'A') as nat;
      AlphabetIs(k);
      assert CAPITALS[k] == a && SMALL[k] == b;
    }
    if k :| 0 <= k < 26 && CAPITALS[k] == a && SMALL[k] == b {
      AlphabetIs(k);
    }
  }

  /** Lower-casing identifies labels exactly when they differ in the case of letters at most. */
  lemma LowerExactly(a: string, b: string)
    ensures Lower(a) == Lower(b) <==> SameLabel(a, b)
    ensures Lower(Lower(a)) == Lower(a) && SameLabel(Lower(a), a)
  {
    forall x: char, y: char ensures LowerChar(x) == LowerChar(y) <==> x == y || Twins(x, y) || Twins(y, x) {
      TwinsAre(x, y);
      TwinsAre(y, x);
    }
    assert Lower(a) == Lower(b) ==> forall i :: 0 <= i < |a| ==> LowerChar(a[i]) == Lower(a)[i] == Lower(b)[i];
    assert SameLabel(a, b) ==> Lower(a) == Lower(b);
  }

  /** The table names callers in small letters, as loading it leaves them. */
  ghost predicate Normalized(p: Policy) { forall c :: c in p.callers ==> Lower(c) == c }

  /**
   Which class a caller waits in: that of the entry with its label, in whatever case,
   and the default class when the table has no such entry.
   */
  lemma WaitsInClass(p: Policy, caller: string)
    requires Normalized(p)
    ensures forall c :: c in p.callers && SameLabel(c, caller) ==> p.ClassFor(caller) == p.callers[c]
    ensures (forall c :: c in p.callers ==> !SameLabel(c, caller)) ==> p.ClassFor(caller) == p.defaultClass
  {
    hide Lower, SameLabel;
    forall c | c in p.callers ensures SameLabel(c, caller) <==> c == Lower(caller) {
      LowerExactly(c, caller);
      LowerExactly(caller, caller);
    }
  }

  // ---------------------------------------------------------------- limiter state

  datatype State = State(
    lanes: seq<Lane>,
    scores: seq<int>,
    serving: Option<Waiter>,
    closed: bool,
    callerDepth: map<string, int>,
    classDepth: seq<int>)

  function Fresh(p: Policy): State {
    State(seq(|p.weights|, _ => EMPTY), FS.Zeros(|p.weights|), None, false, map[], FS.Zeros(|p.weights|))
  }

  ghost predicate Queued(s: State, w: Waiter) {
    w.cls < |s.lanes| && Has(s.lanes[w.cls], w)
  }

  /** Waiters the limiter still holds: queued, or in the serving slot. */
  ghost predicate Held(s: State, w: Waiter) {
    Queued(s, w) || s.serving == Some(w)
  }

  function Slot(b: bool): int { if b then 1 else 0 }

  /** The requests of one caller that are queued or being served. */
  function CallerLoad(p: Policy, s: State, caller: string): int
    requires p.ClassFor(caller) < |s.lanes|
  {
    QueueLen(s.lanes[p.ClassFor(caller)], caller)
    + Slot(s.serving.Some? && s.serving.value.caller == caller)
  }

  /** The requests of one class that are queued or being served. */
  function ClassLoad(s: State, i: nat): int
    requires i < |s.lanes| && forall c :: c in s.lanes[i].callers ==> c in s.lanes[i].queues
  {
    Waiting(s.lanes[i]) + Slot(s.serving.Some? && s.serving.value.cls == i)
  }

  function Depth(depths: map<string, int>, caller: string): int {
    if caller in depths then depths[caller] else 0
  }

  ghost predicate Shape(p: Policy, s: State) {
    && |s.lanes| == |s.scores| == |s.classDepth| == |p.weights|
    && (forall i :: 0 <= i < |s.lanes| ==> LaneOk(s.lanes[i], i))
    && (forall w :: Held(s, w) ==> w.cls == p.ClassFor(w.caller))
    && (s.serving.Some? ==> s.serving.value.cls < |s.lanes| && !Queued(s, s.serving.value))
  }

  /** The depth counters say exactly how many requests are queued or being served. */
  ghost predicate ExactDepths(p: Policy, s: State)
    requires p.Valid() && Shape(p, s)
  {
    && (forall c :: Depth(s.callerDepth, c) == CallerLoad(p, s, c))
    && (forall c :: c in s.callerDepth ==> s.callerDepth[c] > 0)
    && (forall i :: 0 <= i < |s.lanes| ==> s.classDepth[i] == ClassLoad(s, i))
  }

  ghost predicate Core(p: Policy, s: State) {
    && p.Valid() && Shape(p, s) && ExactDepths(p, s)
    && FS.BoundedScores(p.weights, s.scores)
  }

  /** At every lock boundary of an open limiter, a free slot means nobody is waiting. */
  ghost predicate WorkConserving(s: State) {
    !s.closed && s.serving == None ==> forall i :: 0 <= i < |s.lanes| ==> s.lanes[i].callers == []
  }

  // ---------------------------------------------------------------- critical sections

  function Bump(depths: map<string, int>, caller: string): map<string, int> {
    depths[caller := Depth(depths, caller) + 1]
  }

  function Lowered(depths: map<string, int>, caller: string): map<string, int> {
    if Depth(depths, caller) - 1 <= 0 then depths - {caller}
    else depths[caller := Depth(depths, caller) - 1]
  }

  function Enqueue(s: State, w: Waiter): State
    requires w.cls < |s.lanes| == |s.classDepth|
  {
    s.(lanes := s.lanes[w.cls := Push(s.lanes[w.cls], w)],
       callerDepth := Bump(s.callerDepth, w.caller),
       classDepth := s.classDepth[w.cls := s.classDepth[w.cls] + 1])
  }

  function Active(s: State): FS.Mask {
    seq(|s.lanes|, i requires 0 <= i < |s.lanes| => s.lanes[i].callers != [])
  }

  /** Whether SelectIfIdle would serve somebody. */
  ghost predicate Selects(s: State) {
    s.serving == None && !s.closed && FS.SomeActive(Active(s))
  }

  ghost function Chosen(p: Policy, s: State): (c: nat)
    requires |s.lanes| == |s.scores| == |p.weights| && FS.SomeActive(Active(s))
    ensures c < |s.lanes| && s.lanes[c].callers != []
  {
    FS.Pick(p.weights, s.scores, Active(s))
  }

  ghost function Select(p: Policy, s: State): State
    requires Shape(p, s)
  {
    if !Selects(s) then s
    else
      var c := Chosen(p, s);
      assert s.lanes[c].callers[0] in s.lanes[c].callers;
      assert QueueOk(s.lanes[c].queues[s.lanes[c].callers[0]], s.lanes[c].callers[0], c);
      s.(scores := FS.Charge(p.weights, s.scores, Active(s)),
         serving := Some(Head(s.lanes[c])),
         lanes := s.lanes[c := Pop(s.lanes[c])])
  }

  function Decremented(s: State, w: Waiter): State
    requires w.cls < |s.classDepth|
  {
    s.(callerDepth := Lowered(s.callerDepth, w.caller),
       classDepth := s.classDepth[w.cls := s.classDepth[w.cls] - 1])
  }

  /** A waiter gives up: it leaves the slot, or its place in the queues. */
  function Abandon(s: State, w: Waiter): State
    requires w.cls < |s.lanes| == |s.classDepth|
  {
    Decremented(
      if s.serving == Some(w) then s.(serving := None)
      else s.(lanes := s.lanes[w.cls := Drop(s.lanes[w.cls], w)]), w)
  }

  /** A served waiter is done, before the next selection. */
  function Release(s: State, w: Waiter): State
    requires w.cls < |s.classDepth|
  {
    Decremented(if s.serving == Some(w) then s.(serving := None) else s, w)
  }

  // ---------------------------------------------------------------- what each section keeps

  lemma CoreShape(p: Policy, s: State)
    requires Core(p, s)
    ensures p.Valid() && Shape(p, s)
    ensures |s.lanes| == |s.scores| == |s.classDepth| == |p.weights|
    ensures forall w :: Held(s, w) ==> w.cls < |p.weights|
  {
    hide ExactDepths, LaneOk, FS.BoundedScores;
  }

  /** Every waiter the limiter holds is older. */
  ghost predicate Youngest(s: State, w: Waiter) {
    !Held(s, w) && forall v :: Held(s, v) ==> v.ticket < w.ticket
  }

  lemma EnqueueLane(p: Policy, s: State, w: Waiter)
    requires Core(p, s) && Youngest(s, w) && w.cls == p.ClassFor(w.caller)
    ensures w.cls < |s.lanes| && LaneOk(s.lanes[w.cls], w.cls)
    ensures w.caller in s.lanes[w.cls].queues ==>
              forall v :: v in s.lanes[w.cls].queues[w.caller] ==> v.ticket < w.ticket
  {
    hide ExactDepths, FS.BoundedScores;
    var l := s.lanes[w.cls];
    if w.caller in l.queues {
      assert QueueOk(l.queues[w.caller], w.caller, w.cls);
      forall v | v in l.queues[w.caller] ensures v.ticket < w.ticket {
        assert Queued(s, v);
      }
    }
  }

  lemma EnqueueShape(p: Policy, s: State, w: Waiter)
    requires Core(p, s) && Youngest(s, w) && w.cls == p.ClassFor(w.caller)
    ensures Shape(p, Enqueue(s, w))
    ensures forall v :: Queued(Enqueue(s, w), v) <==> Queued(s, v) || v == w
  {
    hide ExactDepths, FS.BoundedScores, LaneOk, Has, Push, FS.ValidWeights;
    EnqueueLane(p, s, w);
    PushOk(s.lanes[w.cls], w.cls, w);
  }

  lemma EnqueueDepths(p: Policy, s: State, w: Waiter)
    requires Core(p, s) && Youngest(s, w) && w.cls == p.ClassFor(w.caller)
    requires Shape(p, Enqueue(s, w))
    ensures ExactDepths(p, Enqueue(s, w))
  {
    hide FS.BoundedScores, Push, Has, QueueLen, Waiting;
    EnqueueLane(p, s, w);
    PushOk(s.lanes[w.cls], w.cls, w);
    var r := Enqueue(s, w);
    forall c ensures Depth(r.callerDepth, c) == CallerLoad(p, r, c) {
      assert Depth(s.callerDepth, c) == CallerLoad(p, s, c);
    }
    assert forall c :: c in r.callerDepth ==> r.callerDepth[c] > 0;
    forall i | 0 <= i < |r.lanes| ensures r.classDepth[i] == ClassLoad(r, i) {
      assert s.classDepth[i] == ClassLoad(s, i);
    }
  }

  lemma EnqueueOk(p: Policy, s: State, w: Waiter)
    requires Core(p, s) && Youngest(s, w) && w.cls == p.ClassFor(w.caller)
    ensures Core(p, Enqueue(s, w))
    ensures forall v :: Held(Enqueue(s, w), v) <==> Held(s, v) || v == w
  {
    hide FS.BoundedScores, Shape, ExactDepths, Queued;
    EnqueueShape(p, s, w);
    EnqueueDepths(p, s, w);
  }

  /** A selection moves the head of the chosen class into the slot. */
  lemma SelectShape(p: Policy, s: State)
    requires p.Valid() && Shape(p, s) && Selects(s)
    ensures var c := Chosen(p, s);
            && LaneOk(s.lanes[c], c) && s.lanes[c].callers[0] in s.lanes[c].queues
            && s.lanes[c].queues[s.lanes[c].callers[0]] != []
            && Select(p, s).serving == Some(Head(s.lanes[c])) && Select(p, s).lanes == s.lanes[c := Pop(s.lanes[c])]
            && Head(s.lanes[c]).cls == c && Queued(s, Head(s.lanes[c]))
    ensures Shape(p, Select(p, s))
    ensures forall v :: Held(Select(p, s), v) <==> Held(s, v)
  {
    hide FS.BoundedScores, FS.ValidWeights, FS.SomeActive;
    var c, r := Chosen(p, s), Select(p, s);
    var l := s.lanes[c];
    assert l.callers[0] in l.callers && QueueOk(l.queues[l.callers[0]], l.callers[0], c);
    PopOk(l, c);
    assert forall v :: Queued(r, v) <==> Queued(s, v) && v != Head(l) by { hide Has, Pop, LaneOk; }
    assert forall i :: 0 <= i < |r.lanes| ==> LaneOk(r.lanes[i], i) by { hide LaneOk, Pop; }
  }

  lemma SelectDepths(p: Policy, s: State)
    requires p.Valid() && Shape(p, s) && ExactDepths(p, s) && Selects(s)
    requires Shape(p, Select(p, s))
    ensures ExactDepths(p, Select(p, s))
  {
    hide FS.BoundedScores, FS.ValidWeights, FS.SomeActive, Has, QueueLen, Waiting, Pop;
    SelectShape(p, s);
    var c, r := Chosen(p, s), Select(p, s);
    PopOk(s.lanes[c], c);
    var h := Head(s.lanes[c]);
    assert h.cls == p.ClassFor(h.caller);
    forall d ensures Depth(r.callerDepth, d) == CallerLoad(p, r, d) {
      assert Depth(s.callerDepth, d) == CallerLoad(p, s, d);
    }
    forall i | 0 <= i < |r.lanes| ensures r.classDepth[i] == ClassLoad(r, i) {
      assert s.classDepth[i] == ClassLoad(s, i);
    }
  }

  /** Selecting loses nobody, and leaves the slot free only when nobody waits. */
  lemma SelectOk(p: Policy, s: State)
    requires Core(p, s)
    ensures Core(p, Select(p, s)) && WorkConserving(Select(p, s))
    ensures forall v :: Held(Select(p, s), v) <==> Held(s, v)
    ensures Selects(s) ==> Select(p, s).serving.Some? && Queued(s, Select(p, s).serving.value)
  {
    hide FS.BoundedScores, ExactDepths, Queued, FS.ValidWeights;
    if Selects(s) {
      SelectShape(p, s);
      SelectDepths(p, s);
      FS.BoundedStep(p.weights, s.scores, Active(s));
    } else if !s.closed && s.serving == None {
      forall i | 0 <= i < |s.lanes| ensures s.lanes[i].callers == [] {
        assert !Active(s)[i];
      }
    }
  }

  lemma LoweredDepth(depths: map<string, int>, caller: string)
    requires Depth(depths, caller) > 0 && forall c :: c in depths ==> depths[c] > 0
    ensures forall c :: Depth(Lowered(depths, caller), c) == Depth(depths, c) - if c == caller then 1 else 0
    ensures forall c :: c in Lowered(depths, caller) ==> Lowered(depths, caller)[c] > 0
  {
  }

  /** Giving up the slot, whether by finishing or by abandoning it. */
  lemma ReleaseOk(p: Policy, s: State, w: Waiter)
    requires Core(p, s) && s.serving == Some(w)
    ensures Release(s, w) == Abandon(s, w)
    ensures Core(p, Release(s, w))
    ensures forall v :: Held(Release(s, w), v) <==> Held(s, v) && v != w
  {
    hide FS.BoundedScores, FS.ValidWeights, Has, QueueLen, Waiting, Lowered, Depth;
    var r := Release(s, w);
    assert forall v :: Queued(r, v) <==> Queued(s, v);
    assert Held(s, w);
    assert Depth(s.callerDepth, w.caller) == CallerLoad(p, s, w.caller);
    LoweredDepth(s.callerDepth, w.caller);
    forall d ensures Depth(r.callerDepth, d) == CallerLoad(p, r, d) {
      assert Depth(s.callerDepth, d) == CallerLoad(p, s, d);
    }
    forall i | 0 <= i < |r.lanes| ensures r.classDepth[i] == ClassLoad(r, i) {
      assert s.classDepth[i] == ClassLoad(s, i);
    }
  }

  lemma AbandonShape(p: Policy, s: State, w: Waiter)
    requires Core(p, s) && Queued(s, w) && s.serving != Some(w)
    ensures Shape(p, Abandon(s, w))
    ensures forall v :: Held(Abandon(s, w), v) <==> Held(s, v) && v != w
  {
    hide FS.BoundedScores, FS.ValidWeights, ExactDepths, Has, LaneOk, Drop;
    DropOk(s.lanes[w.cls], w.cls, w) by { assert LaneOk(s.lanes[w.cls], w.cls); assert Has(s.lanes[w.cls], w); }
    assert forall v :: Queued(Abandon(s, w), v) <==> Queued(s, v) && v != w;
  }

  lemma AbandonDepths(p: Policy, s: State, w: Waiter)
    requires Core(p, s) && Queued(s, w) && s.serving != Some(w)
    requires Shape(p, Abandon(s, w))
    ensures ExactDepths(p, Abandon(s, w))
  {
    hide FS.BoundedScores, FS.ValidWeights, Has, QueueLen, Waiting, Drop, Lowered, Depth;
    var r := Abandon(s, w);
    assert Held(s, w);
    assert Depth(s.callerDepth, w.caller) == CallerLoad(p, s, w.caller);
    DropOk(s.lanes[w.cls], w.cls, w);
    LoweredDepth(s.callerDepth, w.caller) by { QueueLenPositive(s.lanes[w.cls], w); }
    forall d ensures Depth(r.callerDepth, d) == CallerLoad(p, r, d) {
      assert Depth(s.callerDepth, d) == CallerLoad(p, s, d);
    }
    forall i | 0 <= i < |r.lanes| ensures r.classDepth[i] == ClassLoad(r, i) {
      assert s.classDepth[i] == ClassLoad(s, i);
    }
  }

  lemma QueueLenPositive(l: Lane, w: Waiter)
    requires Has(l, w)
    ensures QueueLen(l, w.caller) > 0
  {
  }

  /** An abandoning waiter leaves the structure, wherever it was, and only it does. */
  lemma AbandonOk(p: Policy, s: State, w: Waiter)
    requires Core(p, s) && Held(s, w)
    ensures Core(p, Abandon(s, w))
    ensures forall v :: Held(Abandon(s, w), v) <==> Held(s, v) && v != w
  {
    hide FS.BoundedScores, FS.ValidWeights, ExactDepths, Shape, Queued;
    if s.serving == Some(w) {
      ReleaseOk(p, s, w);
    } else {
      AbandonShape(p, s, w);
      AbandonDepths(p, s, w);
    }
  }
}
