/**
 The fair limiter as an object: queues, callers, scores, slot and depth counters
 updated in place by the critical sections. Each method is proved against the
 corresponding function on FairAdmission.State.
 */
module WeightedFairLimiters {
  import opened Prelude
  import opened Lanes
  import FA = FairAdmission
  import FS = FairScores

  /** The classes with somebody waiting among the first n, in table order. */
  function ActiveUpTo(mask: FS.Mask, n: nat): (r: seq<nat>)
    requires n <= |mask|
    ensures forall i :: i in r <==> 0 <= i < n && mask[i]
    ensures forall a :: 0 <= a < |r| ==> r[a] < n && mask[r[a]]
    ensures forall a, b :: 0 <= a < b < |r| ==> r[a] < r[b]
  {
    if n == 0 then [] else ActiveUpTo(mask, n - 1) + if mask[n - 1] then [n - 1] else []
  }

  function TotalOf(active: seq<nat>, w: seq<int>): int
    requires forall t :: 0 <= t < |active| ==> active[t] < |w|
  {
    if active == [] then 0
    else
      var last := active[|active| - 1];
      TotalOf(active[..|active| - 1], w) + w[last]
  }

  function PrefixSum(a: seq<int>, n: nat): int
    requires n <= |a|
  {
    if n == 0 then 0 else PrefixSum(a, n - 1) + a[n - 1]
  }

  lemma {:induction false} PrefixSumShift(a: seq<int>, n: nat)
    requires 1 <= n <= |a|
    ensures PrefixSum(a, n) == a[0] + PrefixSum(a[1..], n - 1)
  {
    if n > 1 {
      PrefixSumShift(a, n - 1);
    }
  }

  lemma {:induction false} PrefixSumIsSum(a: seq<int>)
    ensures PrefixSum(a, |a|) == Sum(a)
  {
    if a != [] {
      PrefixSumShift(a, |a|);
      PrefixSumIsSum(a[1..]);
    }
  }

  lemma TotalSnoc(active: seq<nat>, i: nat, w: seq<int>)
    requires i < |w| && forall t :: 0 <= t < |active| ==> active[t] < |w|
    ensures TotalOf(active + [i], w) == TotalOf(active, w) + w[i]
    ensures active + [] == active
  {
    assert (active + [i])[..|active|] == active;
  }

  /** Summing the listed weights gives the sum under the mask. */
  lemma {:induction false} TotalIsMaskSum(mask: FS.Mask, w: seq<int>, m: seq<int>, n: nat)
    requires |mask| == |w| == |m| && n <= |w|
    requires forall i :: 0 <= i < |m| ==> m[i] == if mask[i] then w[i] else 0
    ensures TotalOf(ActiveUpTo(mask, n), w) == PrefixSum(m, n)
  {
    hide TotalOf;
    if n == 0 {
      TotalEmpty(w);
    } else {
      TotalIsMaskSum(mask, w, m, n - 1);
      TotalSnoc(ActiveUpTo(mask, n - 1), n - 1, w);
    }
  }

  lemma ListedClasses(mask: FS.Mask)
    ensures forall t :: 0 <= t < |ActiveUpTo(mask, |mask|)| ==> ActiveUpTo(mask, |mask|)[t] < |mask|
  {
  }

  /** Summing the weights of the listed classes gives the active weight. */
  lemma ListedTotal(mask: FS.Mask, w: seq<int>)
    requires |mask| == |w|
    ensures TotalOf(ActiveUpTo(mask, |mask|), w) == FS.MaskSum(mask, w)
  {
    var m := FS.Masked(mask, w);
    TotalIsMaskSum(mask, w, m, |mask|);
    PrefixSumIsSum(m);
  }

  lemma TotalEmpty(w: seq<int>)
    ensures TotalOf([], w) == 0
  {
  }

  /** The first best of the list is the first best under the mask. */
  lemma ListedMax(mask: FS.Mask, a: seq<int>, at: nat)
    requires |mask| == |a| && at < |ActiveUpTo(mask, |mask|)|
    requires forall t :: 0 <= t < |ActiveUpTo(mask, |mask|)| ==>
               a[ActiveUpTo(mask, |mask|)[t]] <= a[ActiveUpTo(mask, |mask|)[at]]
    requires forall t :: 0 <= t < at ==> a[ActiveUpTo(mask, |mask|)[t]] < a[ActiveUpTo(mask, |mask|)[at]]
    ensures FS.IsFirstMax(mask, a, ActiveUpTo(mask, |mask|)[at])
  {
    var active := ActiveUpTo(mask, |mask|);
    forall i | 0 <= i < |a| && mask[i]
      ensures a[i] <= a[active[at]] && (i < active[at] ==> a[i] < a[active[at]])
    {
      assert i in active;
      var t :| 0 <= t < |active| && active[t] == i;
    }
  }

  lemma FirstMaxUnique(act: FS.Mask, a: seq<int>, c: nat)
    requires |act| == |a| && FS.IsFirstMax(act, a, c)
    ensures FS.SomeActive(act) && FS.FirstMax(act, a) == c
  {
  }

  class WeightedFairLimiter {
    const policy: FA.Policy
    var queues: seq<map<string, seq<Waiter>>>
    var callers: seq<seq<string>>
    var scores: seq<int>
    var serving: Option<Waiter>
    var closed: bool
    var callerDepth: map<string, int>
    var classDepth: seq<int>

    ghost predicate Lined()
      reads this
    {
      policy.Valid() && |queues| == |callers| == |scores| == |classDepth| == |policy.weights|
    }

    /** The state the critical sections are specified on. */
    ghost function Abs(): FA.State
      reads this
      requires Lined()
    {
      FA.State(seq(|queues|, i requires 0 <= i < |queues| reads this requires |callers| == |queues| =>
                     Lane(queues[i], callers[i])),
               scores, serving, closed, callerDepth, classDepth)
    }

    constructor (policy: FA.Policy)
      requires policy.Valid()
      ensures this.policy == policy && Lined() && Abs() == FA.Fresh(policy)
    {
      this.policy := policy;
      queues := seq(|policy.weights|, _ => map[]);
      callers := seq(|policy.weights|, _ => []);
      scores := FS.Zeros(|policy.weights|);
      serving := None;
      closed := false;
      callerDepth := map[];
      classDepth := FS.Zeros(|policy.weights|);
    }

    method Enqueue(w: Waiter)
      requires Lined() && w.cls < |policy.weights|
      modifies this
      ensures Lined() && Abs() == FA.Enqueue(old(Abs()), w)
    {
      var waiting := queues[w.cls];
      if w.caller in waiting {
        queues := queues[w.cls := waiting[w.caller := waiting[w.caller] + [w]]];
      } else {
        queues := queues[w.cls := waiting[w.caller := [w]]];
        callers := callers[w.cls := callers[w.cls] + [w.caller]];
      }
      callerDepth := callerDepth[w.caller := (if w.caller in callerDepth then callerDepth[w.caller] else 0) + 1];
      classDepth := classDepth[w.cls := classDepth[w.cls] + 1];
    }

    /** The classes with somebody waiting, in table order. */
    method ActiveClasses() returns (active: seq<nat>)
      requires Lined()
      ensures active == ActiveUpTo(FA.Active(Abs()), |policy.weights|)
    {
      active := [];
      for i := 0 to |callers|
        invariant active == ActiveUpTo(FA.Active(Abs()), i)
      {
        if callers[i] != [] {
          active := active + [i];
        }
      }
    }

    /** Credit every active class with its weight and reset the idle ones. */
    method Credit(active: seq<nat>)
      requires Lined() && active == ActiveUpTo(FA.Active(Abs()), |policy.weights|)
      modifies this`scores
      ensures Lined() && scores == FS.Boost(policy.weights, old(scores), FA.Active(old(Abs())))
    {
      ghost var before, mask := scores, FA.Active(Abs());
      for i := 0 to |scores|
        invariant |scores| == |before|
        invariant forall j :: i <= j < |scores| ==> scores[j] == before[j]
        invariant forall j :: 0 <= j < i ==> scores[j] == if mask[j] then before[j] + policy.weights[j] else 0
      {
        scores := scores[i := if i in active then scores[i] + policy.weights[i] else 0];
      }
    }

    /** The first of the listed classes with the highest score. */
    method Best(active: seq<nat>, ghost mask: FS.Mask) returns (chosen: nat)
      requires Lined() && |mask| == |policy.weights|
      requires active == ActiveUpTo(mask, |mask|) && active != []
      ensures FS.IsFirstMax(mask, scores, chosen)
    {
      hide ActiveUpTo, FS.IsFirstMax;
      chosen := active[0];
      ghost var at := 0;
      for j := 1 to |active|
        invariant 0 <= at < j && chosen == active[at]
        invariant forall t :: 0 <= t < j ==> scores[active[t]] <= scores[chosen]
        invariant forall t :: 0 <= t < at ==> scores[active[t]] < scores[chosen]
      {
        if scores[active[j]] > scores[chosen] {
          chosen := active[j];
          at := j;
        }
      }
      ListedMax(mask, scores, at);
    }

    method TotalWeight(active: seq<nat>, ghost mask: FS.Mask) returns (total: int)
      requires Lined() && |mask| == |policy.weights| && active == ActiveUpTo(mask, |mask|)
      ensures total == FS.MaskSum(mask, policy.weights)
    {
      hide TotalOf, FS.MaskSum;
      ListedClasses(mask);
      hide ActiveUpTo;
      total := 0;
      TotalEmpty(policy.weights);
      for j := 0 to |active|
        invariant total == TotalOf(active[..j], policy.weights)
      {
        assert active[..j + 1] == active[..j] + [active[j]];
        TotalSnoc(active[..j], active[j], policy.weights);
        total := total + policy.weights[active[j]];
      }
      assert active[..|active|] == active;
      ListedTotal(mask, policy.weights);
    }

    /** Move the head of the chosen class into the slot and rotate its callers. */
    method Serve(chosen: nat)
      requires Lined() && chosen < |policy.weights| && LaneOk(Abs().lanes[chosen], chosen)
      requires callers[chosen] != []
      requires callers[chosen][0] in queues[chosen] && queues[chosen][callers[chosen][0]] != []
      modifies this
      ensures Lined()
      ensures Abs() == old(Abs()).(serving := Some(Head(old(Abs()).lanes[chosen])),
                                   lanes := old(Abs()).lanes[chosen := Pop(old(Abs()).lanes[chosen])])
    {
      var caller := callers[chosen][0];
      var queue := queues[chosen][caller];
      callers := callers[chosen := callers[chosen][1..]];
      serving := Some(queue[0]);
      if queue[1..] != [] {
        queues := queues[chosen := queues[chosen][caller := queue[1..]]];
        callers := callers[chosen := callers[chosen] + [caller]];
      } else {
        queues := queues[chosen := queues[chosen] - {caller}];
      }
    }

    /** Give the free slot to the next waiter in weighted fair order. */
    method SelectIfIdle()
      requires Lined() && FA.Shape(policy, Abs())
      modifies this
      ensures Lined() && Abs() == FA.Select(policy, old(Abs()))
    {
      hide ActiveUpTo, FS.Boost, FS.MaskSum, FS.FirstMax, FS.IsFirstMax, Pop, Head, LaneOk, FS.SomeActive,
            FA.Shape, FA.Active;
      if serving.Some? || closed {
        return;
      }
      ghost var s, mask := Abs(), FA.Active(Abs());
      ActiveLength(s);
      var active := ActiveClasses();
      if active == [] {
        NoneActive(mask);
        return;
      }
      SomeListed(mask);
      FA.SelectShape(policy, s);
      Credit(active);
      var chosen := Best(active, mask);
      FirstMaxUnique(mask, scores, chosen);
      var total := TotalWeight(active, mask);
      scores := scores[chosen := scores[chosen] - total];
      assert Abs().lanes == s.lanes;
      Serve(chosen);
    }

    method DecrementDepth(w: Waiter)
      requires Lined() && w.cls < |policy.weights|
      modifies this`callerDepth, this`classDepth
      ensures Lined() && Abs() == FA.Decremented(old(Abs()), w)
    {
      callerDepth := callerDepth[w.caller := (if w.caller in callerDepth then callerDepth[w.caller] else 0) - 1];
      if callerDepth[w.caller] <= 0 {
        callerDepth := callerDepth - {w.caller};
      }
      classDepth := classDepth[w.cls := classDepth[w.cls] - 1];
    }

    /** Take a waiter that stops waiting out of the slot or out of its queue. */
    method Abandon(w: Waiter)
      requires Lined() && w.cls < |policy.weights|
      modifies this
      ensures Lined() && Abs() == FA.Abandon(old(Abs()), w)
    {
      if serving == Some(w) {
        serving := None;
      } else if w.caller in queues[w.cls] {
        var queue := Without(queues[w.cls][w.caller], w);
        if queue != [] {
          queues := queues[w.cls := queues[w.cls][w.caller := queue]];
        } else {
          queues := queues[w.cls := queues[w.cls] - {w.caller}];
          callers := callers[w.cls := Without(callers[w.cls], w.caller)];
        }
      }
      DecrementDepth(w);
    }

    /** First critical section of an acquisition: refused when closed, otherwise queued. */
    method Arrive(w: Waiter) returns (refused: bool)
      requires Lined() && FA.Core(policy, Abs()) && FA.Youngest(Abs(), w)
      requires w.cls == policy.ClassFor(w.caller)
      modifies this
      ensures Lined() && refused == old(closed)
      ensures refused ==> Abs() == old(Abs())
      ensures !refused ==> FA.Shape(policy, FA.Enqueue(old(Abs()), w))
      ensures !refused ==> Abs() == FA.Select(policy, FA.Enqueue(old(Abs()), w))
      ensures FA.Core(policy, Abs())
    {
      hide FA.Core, FA.Shape, FA.Select, FA.Enqueue, FA.Youngest;
      if closed {
        return true;
      }
      ghost var s := Abs();
      FA.CoreShape(policy, s);
      FA.EnqueueOk(policy, s, w);
      FA.CoreShape(policy, FA.Enqueue(s, w));
      FA.SelectOk(policy, FA.Enqueue(s, w));
      Enqueue(w);
      SelectIfIdle();
      return false;
    }

    /** A cancelled or closed-out waiter leaves and the slot is offered again. */
    method GiveUp(w: Waiter)
      requires Lined() && FA.Core(policy, Abs()) && FA.Held(Abs(), w) && w.cls < |policy.weights|
      modifies this
      ensures Lined() && FA.Shape(policy, FA.Abandon(old(Abs()), w))
      ensures Abs() == FA.Select(policy, FA.Abandon(old(Abs()), w))
      ensures FA.Core(policy, Abs()) && FA.WorkConserving(Abs())
    {
      hide FA.Core, FA.Shape, FA.Select, FA.Abandon;
      ghost var s := Abs();
      FA.CoreShape(policy, s);
      FA.AbandonOk(policy, s, w);
      FA.CoreShape(policy, FA.Abandon(s, w));
      FA.SelectOk(policy, FA.Abandon(s, w));
      Abandon(w);
      SelectIfIdle();
    }

    /** A served waiter is done with the bucket and the slot is offered again. */
    method Finish(w: Waiter)
      requires Lined() && FA.Core(policy, Abs()) && serving == Some(w) && w.cls < |policy.weights|
      modifies this
      ensures Lined() && FA.Shape(policy, FA.Release(old(Abs()), w))
      ensures Abs() == FA.Select(policy, FA.Release(old(Abs()), w))
      ensures FA.Core(policy, Abs()) && FA.WorkConserving(Abs())
    {
      hide FA.Core, FA.Shape, FA.Select, FA.Decremented;
      ghost var s := Abs();
      FA.CoreShape(policy, s);
      FA.ReleaseOk(policy, s, w);
      FA.CoreShape(policy, FA.Release(s, w));
      FA.SelectOk(policy, FA.Release(s, w));
      if serving == Some(w) {
        serving := None;
      }
      assert Abs() == s.(serving := None);
      DecrementDepth(w);
      SelectIfIdle();
    }

    method Close()
      requires Lined()
      modifies this`closed
      ensures Lined() && Abs() == old(Abs()).(closed := true)
    {
      closed := true;
    }

    /** What monitoring sees: exactly how many requests each caller and class has in the limiter. */
    method Snapshot() returns (byCaller: map<string, int>, byClass: seq<int>)
      requires Lined() && FA.Core(policy, Abs())
      ensures forall c :: FA.Depth(byCaller, c) == FA.CallerLoad(policy, Abs(), c)
      ensures |byClass| == |policy.weights|
      ensures forall i :: 0 <= i < |byClass| ==> byClass[i] == FA.ClassLoad(Abs(), i)
    {
      byCaller := callerDepth;
      byClass := [];
      for i := 0 to |policy.weights|
        invariant byClass == classDepth[..i]
      {
        byClass := byClass + [classDepth[i]];
      }
    }
  }

  lemma ActiveLength(s: FA.State)
    ensures |FA.Active(s)| == |s.lanes|
  {
  }

  lemma NoneActive(mask: FS.Mask)
    requires ActiveUpTo(mask, |mask|) == []
    ensures !FS.SomeActive(mask)
  {
  }

  lemma SomeListed(mask: FS.Mask)
    requires ActiveUpTo(mask, |mask|) != []
    ensures FS.SomeActive(mask)
  {
    assert mask[ActiveUpTo(mask, |mask|)[0]];
  }
}
