/**
 One caller class of the fair limiter: a deque of callers, and behind each
 caller a FIFO queue of waiters.
 */
module Lanes {
  import opened Prelude

  /** A request waiting for its turn. The ticket stands for the waiter's object identity. */
  datatype Waiter = Waiter(ticket: nat, caller: string, cls: nat, cost: real, enqueuedAt: real)

  datatype Lane = Lane(queues: map<string, seq<Waiter>>, callers: seq<string>)

  const EMPTY: Lane := Lane(map[], [])

  /** Waiters stand in the order they arrived. */
  ghost predicate InOrder(q: seq<Waiter>) {
    forall i, j :: 0 <= i < j < |q| ==> q[i].ticket < q[j].ticket
  }

  ghost predicate QueueOk(q: seq<Waiter>, caller: string, cls: nat) {
    q != [] && InOrder(q) && forall i :: 0 <= i < |q| ==> q[i].caller == caller && q[i].cls == cls
  }

  /** The deque holds, without duplicates, exactly the callers with a non-empty queue. */
  ghost predicate LaneOk(l: Lane, cls: nat) {
    && NoDup(l.callers)
    && (forall c :: c in l.callers <==> c in l.queues)
    && (forall c :: c in l.queues ==> QueueOk(l.queues[c], c, cls))
  }

  ghost predicate Has(l: Lane, w: Waiter) {
    w.caller in l.queues && w in l.queues[w.caller]
  }

  function QueueLen(l: Lane, caller: string): nat {
    if caller in l.queues then |l.queues[caller]| else 0
  }

  // ---------------------------------------------------------------- the three edits

  function Push(l: Lane, w: Waiter): Lane {
    if w.caller in l.queues then
      Lane(l.queues[w.caller := l.queues[w.caller] + [w]], l.callers)
    else
      Lane(l.queues[w.caller := [w]], l.callers + [w.caller])
  }

  /** The waiter whose turn it is when this class is chosen. */
  function Head(l: Lane): Waiter
    requires l.callers != [] && l.callers[0] in l.queues && l.queues[l.callers[0]] != []
  {
    l.queues[l.callers[0]][0]
  }

  function Pop(l: Lane): Lane
    requires l.callers != [] && l.callers[0] in l.queues && l.queues[l.callers[0]] != []
  {
    var c := l.callers[0];
    var rest := l.queues[c][1..];
    if rest != [] then Lane(l.queues[c := rest], l.callers[1..] + [c])
    else Lane(l.queues - {c}, l.callers[1..])
  }

  function Drop(l: Lane, w: Waiter): Lane {
    if w.caller !in l.queues then l
    else
      var rest := Without(l.queues[w.caller], w);
      if rest != [] then Lane(l.queues[w.caller := rest], l.callers)
      else Lane(l.queues - {w.caller}, Without(l.callers, w.caller))
  }

  // ---------------------------------------------------------------- how many wait

  function Load(callers: seq<string>, queues: map<string, seq<Waiter>>): nat
    requires forall c :: c in callers ==> c in queues
  {
    if callers == [] then 0 else |queues[callers[0]]| + Load(callers[1..], queues)
  }

  function Waiting(l: Lane): nat
    requires forall c :: c in l.callers ==> c in l.queues
  {
    Load(l.callers, l.queues)
  }

  lemma {:induction false} LoadFrame(cs: seq<string>, a: map<string, seq<Waiter>>, b: map<string, seq<Waiter>>)
    requires forall c :: c in cs ==> c in a && c in b && a[c] == b[c]
    ensures Load(cs, a) == Load(cs, b)
  {
    if cs != [] {
      LoadFrame(cs[1..], a, b);
    }
  }

  lemma {:induction false} LoadAppend(cs: seq<string>, c: string, q: map<string, seq<Waiter>>)
    requires c in q && forall d :: d in cs ==> d in q
    ensures Load(cs + [c], q) == Load(cs, q) + |q[c]|
  {
    if cs == [] {
      assert cs + [c] == [c];
    } else {
      assert (cs + [c])[1..] == cs[1..] + [c];
      LoadAppend(cs[1..], c, q);
    }
  }

  lemma {:induction false} LoadUpdate(cs: seq<string>, q: map<string, seq<Waiter>>, c: string, v: seq<Waiter>)
    requires NoDup(cs) && c in cs && forall d :: d in cs ==> d in q
    ensures Load(cs, q[c := v]) == Load(cs, q) - |q[c]| + |v|
  {
    if cs[0] == c {
      LoadFrame(cs[1..], q, q[c := v]);
    } else {
      LoadUpdate(cs[1..], q, c, v);
    }
  }

  lemma {:induction false} LoadSplit(a: seq<string>, b: seq<string>, q: map<string, seq<Waiter>>)
    requires forall d :: d in a + b ==> d in q
    ensures (forall d :: d in a ==> d in q) && (forall d :: d in b ==> d in q)
    ensures Load(a + b, q) == Load(a, q) + Load(b, q)
  {
    assert forall d :: d in a ==> d in a + b;
    assert forall d :: d in b ==> d in a + b;
    if a == [] {
      assert a + b == b;
    } else {
      assert (a + b)[1..] == a[1..] + b;
      LoadSplit(a[1..], b, q);
    }
  }

  lemma LoadRemove(cs: seq<string>, q: map<string, seq<Waiter>>, c: string)
    requires NoDup(cs) && c in cs && forall d :: d in cs ==> d in q
    ensures forall d :: d in Without(cs, c) ==> d in q - {c}
    ensures Load(Without(cs, c), q - {c}) == Load(cs, q) - |q[c]|
  {
    WithoutContents(cs, c);
    var i := Index(cs, c);
    assert cs == cs[..i] + ([c] + cs[i + 1..]);
    LoadSplit(cs[..i], [c] + cs[i + 1..], q);
    assert ([c] + cs[i + 1..])[1..] == cs[i + 1..];
    LoadFrame(Without(cs, c), q, q - {c});
    LoadSplit(cs[..i], cs[i + 1..], q);
  }

  // ---------------------------------------------------------------- what the edits keep

  lemma PushQueue(q: seq<Waiter>, c: string, cls: nat, w: Waiter)
    requires q == [] || QueueOk(q, c, cls)
    requires w.caller == c && w.cls == cls && forall v :: v in q ==> v.ticket < w.ticket
    ensures QueueOk(q + [w], c, cls)
  {
  }

  lemma PushLane(l: Lane, cls: nat, w: Waiter)
    requires LaneOk(l, cls) && w.cls == cls
    requires w.caller in l.queues ==> forall v :: v in l.queues[w.caller] ==> v.ticket < w.ticket
    ensures LaneOk(Push(l, w), cls)
  {
    hide QueueOk;
    if w.caller in l.queues {
      PushQueue(l.queues[w.caller], w.caller, cls, w);
    } else {
      PushQueue([], w.caller, cls, w);
      assert [] + [w] == [w];
    }
  }

  lemma PushLoad(l: Lane, cls: nat, w: Waiter)
    requires LaneOk(l, cls) && LaneOk(Push(l, w), cls)
    ensures Waiting(Push(l, w)) == Waiting(l) + 1
  {
    hide QueueOk;
    if w.caller in l.queues {
      LoadUpdate(l.callers, l.queues, w.caller, l.queues[w.caller] + [w]);
    } else {
      LoadFrame(l.callers, l.queues, Push(l, w).queues);
      LoadAppend(l.callers, w.caller, Push(l, w).queues);
    }
  }

  /** Contents, order and count after an arrival. */
  lemma PushOk(l: Lane, cls: nat, w: Waiter)
    requires LaneOk(l, cls) && w.cls == cls
    requires w.caller in l.queues ==> forall v :: v in l.queues[w.caller] ==> v.ticket < w.ticket
    ensures LaneOk(Push(l, w), cls)
    ensures forall v :: Has(Push(l, w), v) <==> Has(l, v) || v == w
    ensures Waiting(Push(l, w)) == Waiting(l) + 1
    ensures forall c :: QueueLen(Push(l, w), c) == QueueLen(l, c) + if c == w.caller then 1 else 0
  {
    hide QueueOk, NoDup;
    PushLane(l, cls, w);
    PushLoad(l, cls, w);
  }

  /** A queue that loses its front is still in order and has lost exactly that waiter. */
  lemma TailQueue(q: seq<Waiter>, c: string, cls: nat)
    requires QueueOk(q, c, cls)
    ensures q[1..] != [] ==> QueueOk(q[1..], c, cls)
    ensures forall v :: v in q[1..] <==> v in q && v != q[0]
  {
    assert q == [q[0]] + q[1..];
  }

  lemma WithoutQueue(q: seq<Waiter>, c: string, cls: nat, w: Waiter)
    requires QueueOk(q, c, cls) && w in q
    ensures Without(q, w) != [] ==> QueueOk(Without(q, w), c, cls)
    ensures |Without(q, w)| == |q| - 1
    ensures forall v :: v in Without(q, w) <==> v in q && v != w
  {
    WithoutContents(q, w);
  }

  lemma PopLoad(l: Lane, cls: nat)
    requires LaneOk(l, cls) && l.callers != []
    requires l.callers[0] in l.queues && l.queues[l.callers[0]] != []
    requires forall c :: c in Pop(l).callers ==> c in Pop(l).queues
    ensures Waiting(Pop(l)) == Waiting(l) - 1
  {
    var c := l.callers[0];
    var q := l.queues[c];
    if q[1..] != [] {
      LoadFrame(l.callers[1..], l.queues, l.queues[c := q[1..]]);
      LoadAppend(l.callers[1..], c, l.queues[c := q[1..]]);
    } else {
      LoadFrame(l.callers[1..], l.queues, l.queues - {c});
    }
  }

  lemma PopLane(l: Lane, cls: nat)
    requires LaneOk(l, cls) && l.callers != []
    ensures l.callers[0] in l.queues && Has(l, Head(l)) && Head(l).cls == cls
    ensures LaneOk(Pop(l), cls)
  {
    Rotate(l.callers);
    assert l.callers[0] in l.callers;
    assert QueueOk(l.queues[l.callers[0]], l.callers[0], cls);
    TailQueue(l.queues[l.callers[0]], l.callers[0], cls);
  }

  /** Contents, order and count after a turn: exactly the head leaves. */
  lemma PopOk(l: Lane, cls: nat)
    requires LaneOk(l, cls) && l.callers != []
    ensures l.callers[0] in l.queues && Has(l, Head(l)) && Head(l).cls == cls
    ensures LaneOk(Pop(l), cls)
    ensures forall v :: Has(Pop(l), v) <==> Has(l, v) && v != Head(l)
    ensures Waiting(Pop(l)) == Waiting(l) - 1
    ensures forall c :: QueueLen(Pop(l), c) == QueueLen(l, c) - if c == Head(l).caller then 1 else 0
  {
    PopLane(l, cls);
    TailQueue(l.queues[l.callers[0]], l.callers[0], cls);
    assert QueueOk(l.queues[l.callers[0]], l.callers[0], cls);
    PopLoad(l, cls);
  }

  lemma DropLane(l: Lane, cls: nat, w: Waiter)
    requires LaneOk(l, cls) && Has(l, w)
    ensures LaneOk(Drop(l, w), cls)
  {
    hide QueueOk;
    WithoutQueue(l.queues[w.caller], w.caller, cls, w);
    WithoutContents(l.callers, w.caller);
  }

  lemma DropLoad(l: Lane, cls: nat, w: Waiter)
    requires LaneOk(l, cls) && Has(l, w) && LaneOk(Drop(l, w), cls)
    ensures Waiting(Drop(l, w)) == Waiting(l) - 1
  {
    hide QueueOk;
    var c := w.caller;
    WithoutQueue(l.queues[c], c, cls, w);
    if Without(l.queues[c], w) != [] {
      LoadUpdate(l.callers, l.queues, c, Without(l.queues[c], w));
    } else {
      LoadRemove(l.callers, l.queues, c);
    }
  }

  /** Contents, order and count after an abandonment: exactly that waiter leaves. */
  lemma DropOk(l: Lane, cls: nat, w: Waiter)
    requires LaneOk(l, cls) && Has(l, w)
    ensures LaneOk(Drop(l, w), cls)
    ensures forall v :: Has(Drop(l, w), v) <==> Has(l, v) && v != w
    ensures Waiting(Drop(l, w)) == Waiting(l) - 1
    ensures forall c :: QueueLen(Drop(l, w), c) == QueueLen(l, c) - if c == w.caller then 1 else 0
  {
    hide QueueOk, NoDup, Without;
    DropLane(l, cls, w);
    DropLoad(l, cls, w);
    WithoutQueue(l.queues[w.caller], w.caller, cls, w);
  }

  // ---------------------------------------------------------------- places in line

  /** How many callers of the class are served before w's caller. */
  function CallerPlace(l: Lane, w: Waiter): nat
    requires w.caller in l.callers
  {
    Index(l.callers, w.caller)
  }

  /** How many waiters of the same caller are served before w. */
  function QueuePlace(l: Lane, w: Waiter): nat
    requires w.caller in l.queues && w in l.queues[w.caller]
  {
    Index(l.queues[w.caller], w)
  }

  /** Arrivals stand behind everybody already there. */
  lemma PushKeepsPlace(l: Lane, cls: nat, w: Waiter, v: Waiter)
    requires LaneOk(l, cls) && Has(l, v)
    ensures v.caller in Push(l, w).callers && Has(Push(l, w), v)
    ensures CallerPlace(Push(l, w), v) == CallerPlace(l, v)
    ensures QueuePlace(Push(l, w), v) == QueuePlace(l, v)
  {
    if w.caller in l.queues {
      if w.caller == v.caller {
        IndexAppend(l.queues[v.caller], v, w);
      }
    } else {
      IndexAppend(l.callers, v.caller, w.caller);
    }
  }

  /** Departures never push anybody back. */
  lemma DropKeepsPlace(l: Lane, cls: nat, w: Waiter, v: Waiter)
    requires LaneOk(l, cls) && Has(l, v) && Has(l, w) && v != w
    ensures v.caller in Drop(l, w).callers && Has(Drop(l, w), v)
    ensures CallerPlace(Drop(l, w), v) <= CallerPlace(l, v)
    ensures QueuePlace(Drop(l, w), v) <= QueuePlace(l, v)
  {
    assert QueueOk(l.queues[w.caller], w.caller, cls);
    if w.caller == v.caller {
      IndexWithout(l.queues[w.caller], v, w);
    } else if Without(l.queues[w.caller], w) == [] {
      IndexWithout(l.callers, v.caller, w.caller);
    }
  }

  /**
   A turn of the class moves every other waiter up: its caller comes one place
   closer, or, when its caller was the one served, it comes one place closer in
   its own queue while the caller goes to the back of the deque.
   */
  lemma PopAdvances(l: Lane, cls: nat, v: Waiter)
    requires LaneOk(l, cls) && l.callers != [] && Has(l, v)
    requires l.callers[0] in l.queues && l.queues[l.callers[0]] != []
    requires v != Head(l)
    ensures v.caller in Pop(l).callers && Has(Pop(l), v)
    ensures if CallerPlace(l, v) > 0 then
              CallerPlace(Pop(l), v) == CallerPlace(l, v) - 1 && QueuePlace(Pop(l), v) == QueuePlace(l, v)
            else
              QueuePlace(l, v) > 0 && QueuePlace(Pop(l), v) == QueuePlace(l, v) - 1
              && CallerPlace(Pop(l), v) == |l.callers| - 1
  {
    PopOk(l, cls);
    var c := l.callers[0];
    if v.caller == c {
      IndexTail(l.queues[c], v);
      IndexUnique(Pop(l).callers, c, |l.callers| - 1);
    } else {
      IndexTail(l.callers, v.caller);
      if l.queues[c][1..] != [] {
        IndexAppend(l.callers[1..], v.caller, c);
      }
    }
  }

  /** Within one caller the turn always goes to the earliest arrival still waiting. */
  lemma HeadIsEarliest(l: Lane, cls: nat, v: Waiter)
    requires LaneOk(l, cls) && l.callers != []
    requires l.callers[0] in l.queues && l.queues[l.callers[0]] != []
    requires Has(l, v) && v.caller == Head(l).caller && v != Head(l)
    ensures Head(l).ticket < v.ticket
  {
    assert QueueOk(l.queues[l.callers[0]], l.callers[0], cls);
  }
}
