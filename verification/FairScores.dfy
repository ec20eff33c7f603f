/**
 Smooth weighted round-robin over caller classes, as arithmetic on scores.

 A class is named by its position in the policy's weights table: the limiter
 visits classes, and breaks ties, in table order. A selection sees the weights,
 the current scores, and a mask telling which classes have somebody waiting.
 */
module FairScores {
  import opened Prelude

  type Mask = seq<bool>

  ghost predicate ValidWeights(w: seq<int>) {
    |w| >= 1 && forall i :: 0 <= i < |w| ==> w[i] >= 1
  }

  ghost predicate SomeActive(act: Mask) {
    exists i :: 0 <= i < |act| && act[i]
  }

  /** The values of `a` under the mask, zero elsewhere. */
  function Masked(act: Mask, a: seq<int>): (r: seq<int>)
    requires |act| == |a|
  {
    seq(|a|, i requires 0 <= i < |a| => if act[i] then a[i] else 0)
  }

  function MaskSum(act: Mask, a: seq<int>): int
    requires |act| == |a|
  {
    Sum(Masked(act, a))
  }

  function Size(act: Mask): int {
    Sum(seq(|act|, i requires 0 <= i < |act| => if act[i] then 1 else 0))
  }

  /** Active classes gain their weight, idle ones fall back to zero. */
  function Boost(w: seq<int>, s: seq<int>, act: Mask): (r: seq<int>)
    requires |w| == |s| == |act|
    ensures |r| == |w|
  {
    seq(|w|, i requires 0 <= i < |w| => if act[i] then s[i] + w[i] else 0)
  }

  /** The first active class, in table order, among those with the top value. */
  ghost predicate IsFirstMax(act: Mask, a: seq<int>, c: nat)
    requires |act| == |a|
  {
    && c < |a| && act[c]
    && (forall i :: 0 <= i < |a| && act[i] ==> a[i] <= a[c])
    && (forall i :: 0 <= i < c && act[i] ==> a[i] < a[c])
  }

  function FirstMax(act: Mask, a: seq<int>): (c: nat)
    requires |act| == |a| && SomeActive(act)
    ensures IsFirstMax(act, a, c)
  {
    FirstMaxUpTo(act, a, |a|)
  }

  function FirstMaxUpTo(act: Mask, a: seq<int>, n: nat): (c: nat)
    requires |act| == |a| && n <= |a|
    requires exists i :: 0 <= i < n && act[i]
    ensures c < n && act[c]
    ensures forall i :: 0 <= i < n && act[i] ==> a[i] <= a[c]
    ensures forall i :: 0 <= i < c && act[i] ==> a[i] < a[c]
  {
    if exists i :: 0 <= i < n - 1 && act[i] then
      var best := FirstMaxUpTo(act, a, n - 1);
      if act[n - 1] && a[best] < a[n - 1] then n - 1 else best
    else
      n - 1
  }

  /** Which class a selection serves. */
  function Pick(w: seq<int>, s: seq<int>, act: Mask): (c: nat)
    requires |w| == |s| == |act| && SomeActive(act)
    ensures c < |w| && act[c]
  {
    FirstMax(act, Boost(w, s, act))
  }

  /** The scores a selection leaves behind. */
  function Charge(w: seq<int>, s: seq<int>, act: Mask): (r: seq<int>)
    requires |w| == |s| == |act| && SomeActive(act)
    ensures |r| == |w|
  {
    var b := Boost(w, s, act);
    var c := Pick(w, s, act);
    b[c := b[c] - MaskSum(act, w)]
  }

  // ---------------------------------------------------------------- upper bound

  function PosPart(s: seq<int>): seq<int> {
    seq(|s|, i requires 0 <= i < |s| => Max(0, s[i]))
  }

  /** How much credit is outstanding: the sum of the positive parts of the scores. */
  function Credit(s: seq<int>): int { Sum(PosPart(s)) }

  function CreditCap(w: seq<int>): int { (|w| - 1) * (Sum(w) - 1) }

  lemma ActiveWeightRange(w: seq<int>, act: Mask)
    requires ValidWeights(w) && |act| == |w|
    ensures 0 <= MaskSum(act, w) <= Sum(w)
    ensures SomeActive(act) ==> 1 <= MaskSum(act, w)
  {
    SumLe(Masked(act, w), w);
    var zeros := seq(|w|, _ => 0);
    SumConst(zeros, 0);
    SumLe(zeros, Masked(act, w));
    if SomeActive(act) {
      var i :| 0 <= i < |act| && act[i];
      SumAt(Masked(act, w), i);
    }
  }

  /** The winner could pay the whole active weight: credit does not grow. */
  lemma CreditStepPaid(w: seq<int>, s: seq<int>, act: Mask)
    requires ValidWeights(w) && |w| == |s| == |act| && SomeActive(act)
    requires Boost(w, s, act)[Pick(w, s, act)] >= MaskSum(act, w)
    ensures Credit(Charge(w, s, act)) <= Credit(s)
  {
    var b, c, wa := Boost(w, s, act), Pick(w, s, act), MaskSum(act, w);
    var r := Charge(w, s, act);
    var pb := PosPart(b);
    assert PosPart(r) == pb[c := Max(0, r[c])];
    SumUpdate(pb, c, Max(0, r[c]));
    ActiveWeightRange(w, act);
    var both := seq(|w|, i requires 0 <= i < |w| => PosPart(s)[i] + Masked(act, w)[i]);
    SumPlus(PosPart(s), Masked(act, w), both);
    SumLe(pb, both);
  }

  /** The winner could not pay: nobody else holds more than W-1. */
  lemma CreditStepUnpaid(w: seq<int>, s: seq<int>, act: Mask)
    requires ValidWeights(w) && |w| == |s| == |act| && SomeActive(act)
    requires Boost(w, s, act)[Pick(w, s, act)] < MaskSum(act, w)
    ensures Credit(Charge(w, s, act)) <= CreditCap(w)
  {
    var c, r, top := Pick(w, s, act), Charge(w, s, act), Sum(w) - 1;
    ActiveWeightRange(w, act);
    SumAllButOne(PosPart(r), c, top);
  }

  /** If one entry is zero and the others are at most top, the sum is at most (k-1)*top. */
  lemma SumAllButOne(a: seq<int>, c: nat, top: int)
    requires c < |a| && a[c] <= 0
    requires forall i :: 0 <= i < |a| && i != c ==> a[i] <= top
    ensures Sum(a) <= (|a| - 1) * top
  {
    hide Sum;
    var cap := seq(|a|, _ => top);
    SumConst(cap, top);
    SumUpdate(cap, c, 0);
    SumLe(a, cap[c := 0]);
    Distribute(top, |a|, 0, 1);
  }

  /** Credit never exceeds (k-1)(W-1), whatever becomes active or idle between selections. */
  lemma CreditStep(w: seq<int>, s: seq<int>, act: Mask)
    requires ValidWeights(w) && |w| == |s| == |act| && SomeActive(act)
    requires Credit(s) <= CreditCap(w)
    ensures Credit(Charge(w, s, act)) <= CreditCap(w)
  {
    if Boost(w, s, act)[Pick(w, s, act)] >= MaskSum(act, w) {
      CreditStepPaid(w, s, act);
    } else {
      CreditStepUnpaid(w, s, act);
    }
  }

  // ---------------------------------------------------------------- lower bound

  /** W(k-1) + W(k-2) + ... + W(k-j): the most debt that j of k classes share. */
  function DebtCap(W: int, k: nat, j: nat): (u: int)
    requires j <= k
  {
    if j == 0 then 0 else DebtCap(W, k, j - 1) + W * (k - j)
  }

  ghost predicate GroupBounded(w: seq<int>, s: seq<int>, t: Mask)
    requires |w| == |s| == |t|
  {
    0 <= Size(t) <= |w| && MaskSum(t, s) >= -DebtCap(Sum(w), |w|, Size(t))
  }

  /** No group of classes is ever further below zero than its share of the debt. */
  ghost predicate DebtBounded(w: seq<int>, s: seq<int>)
    requires |w| == |s|
  {
    forall t: Mask | |t| == |w| :: GroupBounded(w, s, t)
  }

  lemma {:induction false} DebtCapGrowth(W: int, k: nat, j: nat, n: nat)
    requires j + n <= k && W >= 0
    ensures DebtCap(W, k, j) <= DebtCap(W, k, j + n)
    ensures n >= 1 ==> DebtCap(W, k, j + n) <= DebtCap(W, k, j) + n * (W * (k - j) - W)
  {
    if n >= 1 {
      DebtCapGrowth(W, k, j, n - 1);
      var step := W * (k - j) - W;
      MulMono(W, k - (j + n), k - j - 1);
      assert W * (k - j - 1) == step;
      MulMono(W, 0, k - (j + n));
      assert (n - 1) * step + step == n * step;
    }
  }

  function Meet(a: Mask, b: Mask): (r: Mask)
    requires |a| == |b|
    ensures |r| == |a|
  {
    seq(|a|, i requires 0 <= i < |a| => a[i] && b[i])
  }

  function Minus(a: Mask, b: Mask): (r: Mask)
    requires |a| == |b|
    ensures |r| == |a|
  {
    seq(|a|, i requires 0 <= i < |a| => a[i] && !b[i])
  }

  lemma MaskSumLe(t: Mask, a: seq<int>, b: seq<int>)
    requires |t| == |a| == |b|
    requires forall i :: 0 <= i < |t| && t[i] ==> a[i] <= b[i]
    ensures MaskSum(t, a) <= MaskSum(t, b)
  {
    SumLe(Masked(t, a), Masked(t, b));
  }

  lemma SizeRange(t: Mask)
    ensures 0 <= Size(t) <= |t|
  {
    var ones, zeros := seq(|t|, _ => 1), seq(|t|, _ => 0);
    SumConst(ones, 1);
    SumConst(zeros, 0);
    var ind := seq(|t|, i requires 0 <= i < |t| => if t[i] then 1 else 0);
    SumLe(zeros, ind);
    SumLe(ind, ones);
  }

  /** Splitting a mask splits both its size and its sum. */
  lemma MaskSplit(t: Mask, u: Mask, a: seq<int>)
    requires |t| == |u| == |a|
    ensures MaskSum(t, a) == MaskSum(Meet(t, u), a) + MaskSum(Minus(t, u), a)
    ensures Size(t) == Size(Meet(t, u)) + Size(Minus(t, u))
  {
    SumPlus(Masked(Meet(t, u), a), Masked(Minus(t, u), a), Masked(t, a));
    SumPlus(seq(|t|, i requires 0 <= i < |t| => if Meet(t, u)[i] then 1 else 0),
            seq(|t|, i requires 0 <= i < |t| => if Minus(t, u)[i] then 1 else 0),
            seq(|t|, i requires 0 <= i < |t| => if t[i] then 1 else 0));
  }

  /** Taking one class out of a mask. */
  lemma MaskRemove(t: Mask, c: nat, a: seq<int>)
    requires |t| == |a| && c < |t| && t[c]
    ensures MaskSum(t, a) == MaskSum(t[c := false], a) + a[c]
    ensures Size(t) == Size(t[c := false]) + 1
  {
    assert Masked(t[c := false], a) == Masked(t, a)[c := 0];
    SumUpdate(Masked(t, a), c, 0);
    var ind := seq(|t|, i requires 0 <= i < |t| => if t[i] then 1 else 0);
    assert ind[c := 0] == seq(|t|, i requires 0 <= i < |t| => if t[c := false][i] then 1 else 0);
    SumUpdate(ind, c, 0);
  }

  lemma MaskSumAtMost(t: Mask, a: seq<int>, top: int)
    requires |t| == |a|
    requires forall i :: 0 <= i < |t| && t[i] ==> a[i] <= top
    ensures MaskSum(t, a) <= Size(t) * top
  {
    var ind := seq(|t|, i requires 0 <= i < |t| => if t[i] then 1 else 0);
    var scaled := seq(|t|, i requires 0 <= i < |t| => ind[i] * top);
    SumScale(ind, top, scaled);
    SumLe(Masked(t, a), scaled);
  }

  lemma {:induction false} SumScale(a: seq<int>, f: int, b: seq<int>)
    requires |a| == |b| && forall i :: 0 <= i < |a| ==> b[i] == a[i] * f
    ensures Sum(b) == Sum(a) * f
  {
    if a != [] {
      SumScale(a[1..], f, b[1..]);
      assert a[0] * f + Sum(a[1..]) * f == Sum(a) * f;
    }
  }

  /**
   The averaging argument behind the debt bound: the winner's score is at least
   the average of itself and the n active classes left outside the group.
   */
  lemma Averaging(n: int, sc: int, rest: int, outside: int, all: int, wa: int, W: int,
                  cap: int, capAll: int, d: int)
    requires n >= 1 && wa <= W
    requires outside <= n * sc && all == sc + rest + outside
    requires all >= -capAll + wa
    requires rest >= -(cap - d)
    requires capAll <= cap + n * (d - W)
    ensures sc + rest - wa >= -cap
  {
    var v, low := sc + rest - wa, -cap - 1;
    Distribute(n, sc, rest, wa);
    MulMono(n, d - cap, rest);
    MulMono(n, wa, W);
    Distribute(n, d, 0, W);
    Distribute(n, d, 0, cap);
    Distribute(n, -cap, 0, 1);
    assert n * -cap == -(n * cap);
    if v <= low {
      MulMono(n, v, low);
      assert false;
    }
  }

  lemma Distribute(n: int, a: int, b: int, c: int)
    ensures n * (a + b - c) == n * a + n * b - n * c
  {
  }

  lemma MulMono(f: int, a: int, b: int)
    requires f >= 0 && a <= b
    ensures f * a <= f * b
  {
  }

  lemma FullMask(w: seq<int>, s: seq<int>, act: Mask)
    requires |w| == |s| == |act|
    ensures MaskSum(act, Boost(w, s, act)) == MaskSum(act, s) + MaskSum(act, w)
  {
    SumPlus(Masked(act, s), Masked(act, w), Masked(act, Boost(w, s, act)));
  }

  /** How a group of active classes that contains the winner shares the scores with the rest. */
  lemma WinnerGroup(w: seq<int>, s: seq<int>, act: Mask, t: Mask)
    requires ValidWeights(w) && |w| == |s| == |act| == |t| && SomeActive(act)
    requires Meet(t, act) == t && t[Pick(w, s, act)]
    ensures var b, c := Boost(w, s, act), Pick(w, s, act);
            var rest, others := t[c := false], Minus(act, t);
            && MaskSum(t, Charge(w, s, act)) == b[c] + MaskSum(rest, b) - MaskSum(act, w)
            && MaskSum(act, s) + MaskSum(act, w) == b[c] + MaskSum(rest, b) + MaskSum(others, b)
            && Size(t) == Size(rest) + 1 && Size(act) == Size(t) + Size(others)
            && 0 <= Size(rest) && 0 <= Size(others) && Size(act) <= |w|
            && MaskSum(rest, s) <= MaskSum(rest, b)
            && MaskSum(others, b) <= Size(others) * b[c]
  {
    var b, c := Boost(w, s, act), Pick(w, s, act);
    var rest, others := t[c := false], Minus(act, t);
    FullMask(w, s, act);
    MaskSplit(act, t, b);
    assert Meet(act, t) == t;
    MaskRemove(t, c, b);
    MaskRemove(t, c, Charge(w, s, act));
    assert Masked(rest, Charge(w, s, act)) == Masked(rest, b);
    SizeRange(rest);
    SizeRange(others);
    SizeRange(act);
    MaskSumAtMost(others, b, b[c]);
    MaskSumLe(rest, s, b);
  }

  /** The debt bound for such a group. */
  lemma DebtOfWinners(w: seq<int>, s: seq<int>, act: Mask, t: Mask)
    requires ValidWeights(w) && |w| == |s| == |act| == |t| && SomeActive(act)
    requires DebtBounded(w, s)
    requires Meet(t, act) == t && t[Pick(w, s, act)]
    ensures GroupBounded(w, Charge(w, s, act), t)
  {
    hide Masked, MaskSum, Size, Meet, Minus, Boost, Charge, Pick, FirstMax, IsFirstMax, ValidWeights, SomeActive, Sum;
    var k, W, wa := |w|, Sum(w), MaskSum(act, w);
    var b, c := Boost(w, s, act), Pick(w, s, act);
    var others, rest := Minus(act, t), t[c := false];
    WinnerGroup(w, s, act, t);
    ActiveWeightRange(w, act);
    assert GroupBounded(w, s, act);
    assert GroupBounded(w, s, rest);
    var j, n := Size(t), Size(others);
    if n == 0 {
      EmptyGroup(others, b);
    } else {
      DebtCapGrowth(W, k, j, n);
      Averaging(n, b[c], MaskSum(rest, b), MaskSum(others, b), MaskSum(act, s) + wa, wa, W,
                DebtCap(W, k, j), DebtCap(W, k, j + n), W * (k - j));
    }
  }

  lemma EmptyGroup(t: Mask, a: seq<int>)
    requires |t| == |a| && Size(t) == 0
    ensures MaskSum(t, a) == 0
  {
    EmptyMask(t);
    SumConst(Masked(t, a), 0);
  }

  lemma EmptyMask(t: Mask)
    requires Size(t) == 0
    ensures forall i :: 0 <= i < |t| ==> !t[i]
  {
    var ind := seq(|t|, i requires 0 <= i < |t| => if t[i] then 1 else 0);
    forall i | 0 <= i < |t| ensures !t[i] {
      SumAt(ind, i);
    }
  }

  /** The scores of a group after a selection are those of its active part. */
  lemma GroupAfter(w: seq<int>, s: seq<int>, act: Mask, t: Mask)
    requires ValidWeights(w) && |w| == |s| == |act| == |t| && SomeActive(act)
    ensures MaskSum(t, Charge(w, s, act)) == MaskSum(Meet(t, act), Charge(w, s, act))
    ensures 0 <= Size(Meet(t, act)) <= Size(t) <= |w|
  {
    var r := Charge(w, s, act);
    MaskSplit(t, act, r);
    SizeRange(t);
    SizeRange(Meet(t, act));
    SizeRange(Minus(t, act));
    var zeros := Masked(Minus(t, act), r);
    SumConst(zeros, 0);
  }

  /** No selection breaks the debt bound, whatever becomes active or idle in between. */
  lemma DebtStep(w: seq<int>, s: seq<int>, act: Mask)
    requires ValidWeights(w) && |w| == |s| == |act| && SomeActive(act)
    requires DebtBounded(w, s)
    ensures DebtBounded(w, Charge(w, s, act))
  {
    forall t: Mask | |t| == |w| ensures GroupBounded(w, Charge(w, s, act), t) {
      DebtStepGroup(w, s, act, t);
    }
  }

  /** A group of active classes without the winner does not lose. */
  lemma LosersGain(w: seq<int>, s: seq<int>, act: Mask, t: Mask)
    requires ValidWeights(w) && |w| == |s| == |act| == |t| && SomeActive(act)
    requires !t[Pick(w, s, act)] && forall i :: 0 <= i < |t| && t[i] ==> act[i]
    ensures MaskSum(t, s) <= MaskSum(t, Charge(w, s, act))
  {
    MaskSumLe(t, s, Charge(w, s, act));
  }

  lemma DebtStepGroup(w: seq<int>, s: seq<int>, act: Mask, t: Mask)
    requires ValidWeights(w) && |w| == |s| == |act| == |t| && SomeActive(act)
    requires DebtBounded(w, s)
    ensures GroupBounded(w, Charge(w, s, act), t)
  {
    hide Masked, MaskSum, Size, Boost, Charge, Pick, DebtCap, ValidWeights;
    var c, ta := Pick(w, s, act), Meet(t, act);
    GroupAfter(w, s, act, t);
    ActiveWeightRange(w, act);
    if t[c] {
      assert Meet(ta, act) == ta;
      DebtOfWinners(w, s, act, ta);
    } else {
      assert GroupBounded(w, s, ta);
      LosersGain(w, s, act, ta);
    }
    DebtCapGrowth(Sum(w), |w|, Size(ta), Size(t) - Size(ta));
  }

  // ---------------------------------------------------------------- whole runs

  ghost predicate BoundedScores(w: seq<int>, s: seq<int>) {
    |s| == |w| && Credit(s) <= CreditCap(w) && DebtBounded(w, s)
  }

  ghost predicate ValidRun(w: seq<int>, acts: seq<Mask>) {
    forall n :: 0 <= n < |acts| ==> |acts[n]| == |w| && SomeActive(acts[n])
  }

  /** The scores after the first n selections of a run that starts from s. */
  function ScoresAfter(w: seq<int>, s: seq<int>, acts: seq<Mask>, n: nat): (r: seq<int>)
    requires |s| == |w| && ValidRun(w, acts) && n <= |acts|
    ensures |r| == |w|
  {
    if n == 0 then s else Charge(w, ScoresAfter(w, s, acts, n - 1), acts[n - 1])
  }

  /** The class served by selection number n of the run, counting from zero. */
  function Served(w: seq<int>, s: seq<int>, acts: seq<Mask>, n: nat): (c: nat)
    requires |s| == |w| && ValidRun(w, acts) && n < |acts|
    ensures c < |w|
  {
    Pick(w, ScoresAfter(w, s, acts, n), acts[n])
  }

  /** How often class i is served in the first n selections. */
  function Turns(w: seq<int>, s: seq<int>, acts: seq<Mask>, i: nat, n: nat): nat
    requires |s| == |w| && ValidRun(w, acts) && n <= |acts|
  {
    if n == 0 then 0
    else Turns(w, s, acts, i, n - 1) + if Served(w, s, acts, n - 1) == i then 1 else 0
  }

  /** A run that follows another starts from the scores the other left. */
  lemma {:induction false} RunConcat(w: seq<int>, s: seq<int>, front: seq<Mask>, back: seq<Mask>, n: nat)
    requires |s| == |w| && ValidRun(w, front) && ValidRun(w, back) && n <= |back|
    ensures ValidRun(w, front + back)
    ensures ScoresAfter(w, s, front + back, |front|) == ScoresAfter(w, s, front, |front|)
    ensures ScoresAfter(w, s, front + back, |front| + n)
            == ScoresAfter(w, ScoresAfter(w, s, front, |front|), back, n)
    ensures n < |back| ==> Served(w, s, front + back, |front| + n)
                           == Served(w, ScoresAfter(w, s, front, |front|), back, n)
  {
    hide Charge, Pick, SomeActive;
    FrontAlone(w, s, front, back, |front|);
    if n > 0 {
      RunConcat(w, s, front, back, n - 1);
      assert (front + back)[|front| + n - 1] == back[n - 1];
    }
    assert n < |back| ==> (front + back)[|front| + n] == back[n];
  }

  lemma {:induction false} FrontAlone(w: seq<int>, s: seq<int>, front: seq<Mask>, back: seq<Mask>, n: nat)
    requires |s| == |w| && ValidRun(w, front) && ValidRun(w, back) && n <= |front|
    ensures ValidRun(w, front + back)
    ensures ScoresAfter(w, s, front + back, n) == ScoresAfter(w, s, front, n)
  {
    hide Charge, Pick, SomeActive;
    if n > 0 {
      FrontAlone(w, s, front, back, n - 1);
      assert (front + back)[n - 1] == front[n - 1];
    }
  }

  lemma FrontServed(w: seq<int>, s: seq<int>, front: seq<Mask>, back: seq<Mask>, n: nat)
    requires |s| == |w| && ValidRun(w, front) && ValidRun(w, back) && n < |front|
    ensures ValidRun(w, front + back)
    ensures Served(w, s, front + back, n) == Served(w, s, front, n)
  {
    hide Charge, Pick, SomeActive;
    FrontAlone(w, s, front, back, n);
    assert (front + back)[n] == front[n];
  }

  function Zeros(k: nat): seq<int> { seq(k, _ => 0) }

  lemma ZeroCredit(w: seq<int>)
    requires ValidWeights(w)
    ensures Credit(Zeros(|w|)) <= CreditCap(w)
  {
    SumConst(PosPart(Zeros(|w|)), 0);
    var ones := seq(|w|, _ => 1);
    SumConst(ones, 1);
    SumLe(ones, w);
    MulMono(|w| - 1, 0, Sum(w) - 1);
  }

  lemma ZeroGroup(w: seq<int>, t: Mask)
    requires ValidWeights(w) && |t| == |w|
    ensures GroupBounded(w, Zeros(|w|), t)
  {
    hide ValidWeights;
    SizeRange(t);
    SumConst(Masked(t, Zeros(|w|)), 0);
    ActiveWeightRange(w, t);
    DebtCapGrowth(Sum(w), |w|, 0, Size(t));
  }

  lemma ZeroScoresBounded(w: seq<int>)
    requires ValidWeights(w)
    ensures BoundedScores(w, Zeros(|w|))
  {
    hide GroupBounded, Credit, CreditCap;
    ZeroCredit(w);
    forall t: Mask | |t| == |w| ensures GroupBounded(w, Zeros(|w|), t) {
      ZeroGroup(w, t);
    }
  }

  lemma BoundedStep(w: seq<int>, s: seq<int>, act: Mask)
    requires ValidWeights(w) && |act| == |w| && SomeActive(act)
    requires BoundedScores(w, s)
    ensures BoundedScores(w, Charge(w, s, act))
  {
    CreditStep(w, s, act);
    DebtStep(w, s, act);
  }

  /** Every score a run can reach stays inside both bounds. */
  lemma {:induction false} RunBounded(w: seq<int>, s: seq<int>, acts: seq<Mask>, n: nat)
    requires ValidWeights(w) && ValidRun(w, acts) && n <= |acts|
    requires |s| == |w| && BoundedScores(w, s)
    ensures BoundedScores(w, ScoresAfter(w, s, acts, n))
  {
    hide BoundedScores, Charge;
    if n > 0 {
      RunBounded(w, s, acts, n - 1);
      BoundedStep(w, ScoresAfter(w, s, acts, n - 1), acts[n - 1]);
    }
  }

  /** What the bounds say about a single class: its score lies in [-(k-1)W, (k-1)(W-1)]. */
  lemma ScoreRange(w: seq<int>, s: seq<int>, i: nat)
    requires ValidWeights(w) && BoundedScores(w, s) && i < |w|
    ensures -((|w| - 1) * Sum(w)) <= s[i] <= CreditCap(w)
  {
    hide Masked, MaskSum, Size, Sum;
    SumAt(PosPart(s), i);
    var t := seq(|w|, j => j == i);
    assert GroupBounded(w, s, t);
    SingleMask(t, i, s);
    assert DebtCap(Sum(w), |w|, 1) == DebtCap(Sum(w), |w|, 0) + Sum(w) * (|w| - 1);
  }

  lemma SingleMask(t: Mask, i: nat, a: seq<int>)
    requires i < |t| == |a| && forall j :: 0 <= j < |t| ==> (t[j] <==> j == i)
    ensures MaskSum(t, a) == a[i] && Size(t) == 1
  {
    MaskRemove(t, i, a);
    var none := t[i := false];
    SumConst(Masked(none, a), 0);
    SumConst(seq(|t|, j requires 0 <= j < |t| => if none[j] then 1 else 0), 0);
  }

  /** Class i is waiting at every selection from m to n and never served. */
  ghost predicate PassedOver(w: seq<int>, s: seq<int>, acts: seq<Mask>, i: nat, m: nat, n: nat)
    requires |s| == |w| && ValidRun(w, acts) && m <= n <= |acts|
  {
    i < |w| && forall j :: m <= j < n ==> acts[j][i] && Served(w, s, acts, j) != i
  }

  /** An active class that is not served gains exactly its weight. */
  lemma UnservedGains(w: seq<int>, s: seq<int>, act: Mask, i: nat)
    requires |w| == |s| == |act| && SomeActive(act) && i < |w|
    requires act[i] && Pick(w, s, act) != i
    ensures Charge(w, s, act)[i] == s[i] + w[i]
  {
  }

  lemma {:induction false} PassedOverScore(w: seq<int>, s: seq<int>, acts: seq<Mask>, i: nat, m: nat, n: nat)
    requires |s| == |w| && ValidRun(w, acts) && m <= n <= |acts|
    requires PassedOver(w, s, acts, i, m, n)
    ensures ScoresAfter(w, s, acts, n)[i] == ScoresAfter(w, s, acts, m)[i] + (n - m) * w[i]
  {
    hide Charge, Pick, SomeActive;
    if m < n {
      PassedOverScore(w, s, acts, i, m, n - 1);
      assert acts[n - 1][i] && Served(w, s, acts, n - 1) != i;
      var before := ScoresAfter(w, s, acts, n - 1);
      UnservedGains(w, before, acts[n - 1], i);
      assert (n - m) * w[i] == (n - 1 - m) * w[i] + w[i];
    }
  }

  /**
   Nobody starves, in any run: a class that is waiting at n selections in a row
   without being served has n*w <= (k-1)(W-1) - score, and so n*w <= (k-1)(2W-1)
   whatever happened before.
   */
  lemma NoStarvation(w: seq<int>, acts: seq<Mask>, i: nat, m: nat, n: nat)
    requires ValidWeights(w) && ValidRun(w, acts) && m <= n <= |acts|
    requires PassedOver(w, Zeros(|w|), acts, i, m, n)
    ensures (n - m) * w[i] <= CreditCap(w) - ScoresAfter(w, Zeros(|w|), acts, m)[i]
    ensures (n - m) * w[i] <= (|w| - 1) * (2 * Sum(w) - 1)
  {
    hide BoundedScores, ScoresAfter, ValidRun;
    var z := Zeros(|w|);
    ZeroScoresBounded(w);
    RunBounded(w, z, acts, m);
    RunBounded(w, z, acts, n);
    PassedOverScore(w, z, acts, i, m, n);
    ScoreRange(w, ScoresAfter(w, z, acts, m), i);
    ScoreRange(w, ScoresAfter(w, z, acts, n), i);
    Distribute(|w| - 1, Sum(w) - 1, Sum(w), 0);
  }

  // ---------------------------------------------------------------- constant backlog

  /** The run in which the same classes are backlogged at every one of n selections. */
  function Constant(act: Mask, n: nat): seq<Mask> { seq(n, _ => act) }

  /** Inside a constant backlog the scores balance to zero and nobody is a full round behind. */
  ghost predicate Balanced(w: seq<int>, act: Mask, s: seq<int>)
    requires |w| == |s| == |act|
  {
    && Sum(s) == 0
    && (forall i :: 0 <= i < |w| && act[i] ==> s[i] > -MaskSum(act, w))
    && (forall i :: 0 <= i < |w| && !act[i] ==> s[i] == 0)
  }

  lemma BalancedStep(w: seq<int>, act: Mask, s: seq<int>)
    requires ValidWeights(w) && |w| == |s| == |act| && SomeActive(act)
    requires Balanced(w, act, s)
    ensures Balanced(w, act, Charge(w, s, act))
  {
    var b, c := Boost(w, s, act), Pick(w, s, act);
    ActiveWeightRange(w, act);
    SumPlus(s, Masked(act, w), b);
    SumUpdate(b, c, b[c] - MaskSum(act, w));
    if b[c] <= 0 {
      SumLe(b, Zeros(|w|));
      SumConst(Zeros(|w|), 0);
      assert false;
    }
  }

  /** One selection charges the whole active weight to the class it serves. */
  lemma ChargeAccount(w: seq<int>, s: seq<int>, act: Mask, i: nat)
    requires |w| == |s| == |act| && SomeActive(act) && i < |w| && act[i]
    ensures Charge(w, s, act)[i]
            == s[i] + w[i] - if Pick(w, s, act) == i then MaskSum(act, w) else 0
  {
  }

  /** The bookkeeping identity: a score is what the class earned minus what it was charged. */
  lemma {:induction false} ConstantRun(w: seq<int>, act: Mask, n: nat, total: nat, i: nat)
    requires ValidWeights(w) && |w| == |act| && SomeActive(act) && n <= total && i < |w|
    requires ValidRun(w, Constant(act, total))
    ensures Balanced(w, act, ScoresAfter(w, Zeros(|w|), Constant(act, total), n))
    ensures act[i] ==> ScoresAfter(w, Zeros(|w|), Constant(act, total), n)[i]
                       == n * w[i] - Turns(w, Zeros(|w|), Constant(act, total), i, n) * MaskSum(act, w)
  {
    hide Balanced, Charge, Pick, ValidRun, SomeActive, MaskSum, Sum, ValidWeights;
    var acts, z := Constant(act, total), Zeros(|w|);
    if n == 0 {
      BalancedZeros(w, act);
    } else {
      ConstantRun(w, act, n - 1, total, i);
      assert acts[n - 1] == act;
      var before, turns := ScoresAfter(w, z, acts, n - 1), Turns(w, z, acts, i, n - 1);
      BalancedStep(w, act, before);
      if act[i] {
        ChargeAccount(w, before, act, i);
        OneMore(n - 1, w[i], turns, MaskSum(act, w));
      }
    }
  }

  lemma BalancedZeros(w: seq<int>, act: Mask)
    requires ValidWeights(w) && |w| == |act| && SomeActive(act)
    ensures Balanced(w, act, Zeros(|w|))
  {
    SumConst(Zeros(|w|), 0);
    ActiveWeightRange(w, act);
  }

  lemma OneMore(n: int, f: int, turns: int, W: int)
    ensures (n + 1) * f == n * f + f && (turns + 1) * W == turns * W + W
  {
  }

  lemma BalancedTop(w: seq<int>, act: Mask, s: seq<int>, i: nat)
    requires |w| == |s| == |act| && i < |w| && act[i] && Balanced(w, act, s)
    ensures s[i] <= (Size(act) - 1) * (MaskSum(act, w) - 1)
  {
    var rest, neg, top := act[i := false], seq(|s|, j requires 0 <= j < |s| => -s[j]), MaskSum(act, w) - 1;
    assert Masked(act, s) == s;
    MaskRemove(act, i, s);
    MaskSumAtMost(rest, neg, top);
    SumScale(Masked(rest, s), -1, Masked(rest, neg));
  }

  /**
   Turns are proportional to weights at every moment of a constant backlog that
   starts from zero scores: with W the active weight and m the number of active
   classes, class i has had more than n*w/W - (m-1) (for m >= 2) and fewer than
   n*w/W + 1 of the first n turns.
   */
  lemma Proportional(w: seq<int>, act: Mask, n: nat, i: nat)
    requires ValidWeights(w) && |w| == |act| && i < |w| && act[i]
    requires ValidRun(w, Constant(act, n))
    ensures var W := MaskSum(act, w);
            var turns := Turns(w, Zeros(|w|), Constant(act, n), i, n);
            n * w[i] - (Size(act) - 1) * (W - 1) <= turns * W <= n * w[i] + W - 1
  {
    hide ValidRun, Turns, ScoresAfter, MaskSum, Size;
    ConstantRun(w, act, n, n, i);
    BalancedTop(w, act, ScoresAfter(w, Zeros(|w|), Constant(act, n), n), i);
  }

  lemma MultipleAbove(q: int, W: int)
    requires q * W > -W && W >= 1
    ensures q * W >= 0
  {
    if q <= -1 {
      MulMono(W, q, -1);
      assert false;
    }
  }

  /** A class that earned W weights and paid in multiples of W, and is less than W behind, is not behind. */
  lemma RoundNotBehind(w: seq<int>, act: Mask, total: nat, i: nat)
    requires ValidWeights(w) && |w| == |act| && SomeActive(act) && i < |w|
    requires 0 <= MaskSum(act, w) <= total && ValidRun(w, Constant(act, total))
    ensures ScoresAfter(w, Zeros(|w|), Constant(act, total), MaskSum(act, w))[i] >= 0
  {
    hide Turns, ScoresAfter, ValidRun, MaskSum, SomeActive, ValidWeights;
    var W := MaskSum(act, w);
    ActiveWeightRange(w, act);
    ConstantRun(w, act, W, total, i);
    if act[i] {
      var turns := Turns(w, Zeros(|w|), Constant(act, total), i, W);
      assert W * w[i] - turns * W == (w[i] - turns) * W by { Distribute(W, w[i], 0, turns); }
      MultipleAbove(w[i] - turns, W);
    }
  }

  lemma NonNegativeZeroSum(s: seq<int>)
    requires Sum(s) == 0 && forall i :: 0 <= i < |s| ==> s[i] >= 0
    ensures s == Zeros(|s|)
  {
    forall i | 0 <= i < |s| ensures s[i] == 0 {
      SumAt(s, i);
    }
  }

  /** After exactly W selections every score is back at zero. */
  lemma RoundReturns(w: seq<int>, act: Mask, total: nat)
    requires ValidWeights(w) && |w| == |act| && SomeActive(act)
    requires 0 <= MaskSum(act, w) <= total && ValidRun(w, Constant(act, total))
    ensures ScoresAfter(w, Zeros(|w|), Constant(act, total), MaskSum(act, w)) == Zeros(|w|)
  {
    hide Turns, ScoresAfter, ValidRun, MaskSum, SomeActive;
    var s := ScoresAfter(w, Zeros(|w|), Constant(act, total), MaskSum(act, w));
    ConstantRun(w, act, MaskSum(act, w), total, 0);
    forall i | 0 <= i < |w| ensures s[i] >= 0 {
      RoundNotBehind(w, act, total, i);
    }
    NonNegativeZeroSum(s);
  }

  lemma {:induction false} Periodic(w: seq<int>, act: Mask, n: nat, total: nat)
    requires ValidWeights(w) && |w| == |act| && SomeActive(act)
    requires 0 <= MaskSum(act, w) && n + MaskSum(act, w) <= total
    requires ValidRun(w, Constant(act, total))
    ensures ScoresAfter(w, Zeros(|w|), Constant(act, total), n + MaskSum(act, w))
            == ScoresAfter(w, Zeros(|w|), Constant(act, total), n)
  {
    hide Charge, ValidRun, MaskSum, SomeActive;
    if n == 0 {
      RoundReturns(w, act, total);
    } else {
      Periodic(w, act, n - 1, total);
      assert Constant(act, total)[n - 1] == Constant(act, total)[n - 1 + MaskSum(act, w)] == act;
    }
  }

  lemma Cancel(W: int, a: int, b: int)
    requires W >= 1 && W * a == W * b
    ensures a == b
  {
    if a < b { MulMono(W, a + 1, b); assert false; }
    if b < a { MulMono(W, b + 1, a); assert false; }
  }

  /**
   Exact shares: in a constant backlog that starts from zero scores, any W
   consecutive selections serve class i exactly w[i] times, where W is the sum
   of the backlogged weights, and leave the scores where they were.
   */
  lemma ExactShares(w: seq<int>, act: Mask, n: nat, total: nat, i: nat)
    requires ValidWeights(w) && |w| == |act| && i < |w| && act[i]
    requires 0 <= MaskSum(act, w) && n + MaskSum(act, w) <= total
    requires ValidRun(w, Constant(act, total))
    ensures Turns(w, Zeros(|w|), Constant(act, total), i, n + MaskSum(act, w))
            == Turns(w, Zeros(|w|), Constant(act, total), i, n) + w[i]
    ensures ScoresAfter(w, Zeros(|w|), Constant(act, total), n + MaskSum(act, w))
            == ScoresAfter(w, Zeros(|w|), Constant(act, total), n)
  {
    hide Turns, ScoresAfter, ValidRun, MaskSum;
    var z, acts, W := Zeros(|w|), Constant(act, total), MaskSum(act, w);
    ActiveWeightRange(w, act);
    Periodic(w, act, n, total);
    ConstantRun(w, act, n, total, i);
    ConstantRun(w, act, n + W, total, i);
    var before, after := Turns(w, z, acts, i, n), Turns(w, z, acts, i, n + W);
    Distribute(w[i], n, W, 0);
    Distribute(W, before, w[i], 0);
    Cancel(W, after, before + w[i]);
  }

  lemma {:induction false} TurnsGrow(w: seq<int>, s: seq<int>, acts: seq<Mask>, i: nat, m: nat, n: nat)
    requires |s| == |w| && ValidRun(w, acts) && m <= n <= |acts|
    ensures Turns(w, s, acts, i, m) <= Turns(w, s, acts, i, n)
  {
    hide Served;
    if m < n {
      TurnsGrow(w, s, acts, i, m, n - 1);
    }
  }

  /**
   While the same classes stay backlogged from zero scores, no wait is longer than
   one round.
   */
  lemma ServedWithinRound(w: seq<int>, act: Mask, n: nat, total: nat, i: nat)
    requires ValidWeights(w) && |w| == |act| && i < |w| && act[i]
    requires 0 <= Sum(w) && n + Sum(w) <= total && ValidRun(w, Constant(act, total))
    ensures Turns(w, Zeros(|w|), Constant(act, total), i, n)
            < Turns(w, Zeros(|w|), Constant(act, total), i, n + Sum(w))
  {
    hide Turns, ScoresAfter, ValidRun, MaskSum;
    ActiveWeightRange(w, act);
    ExactShares(w, act, n, total, i);
    TurnsGrow(w, Zeros(|w|), Constant(act, total), i, n + MaskSum(act, w), n + Sum(w));
  }
}
