/**
 The shipped policy's weights, trading 8, standard 2 and bulk 1, and the promise
 the documentation makes for them: a waiting class gets a turn within eleven
 decisions. Which classes keep it, and from which scores the third one does.
 */
module ShippedWeights {
  import opened Prelude
  import opened FairScores

  const SHIPPED: seq<int> := [8, 2, 1]

  /** The three scores, by class. */
  datatype Triple = Triple(t: int, s: int, b: int)

  /** Who is waiting: trading, standard and bulk by initial, or all of them. */
  datatype Mix = T | S | B | TS | TB | SB | ALL {
    predicate Trading() { T? || TS? || TB? || ALL? }

    predicate Standard() { S? || TS? || SB? || ALL? }

    predicate Bulk() { B? || TB? || SB? || ALL? }

    function Weight(): int {
      (if Trading() then 8 else 0) + (if Standard() then 2 else 0) + (if Bulk() then 1 else 0)
    }
  }

  const ZERO: Triple := Triple(0, 0, 0)

  function Boosted(x: Triple, m: Mix): Triple {
    Triple(if m.Trading() then x.t + 8 else 0, if m.Standard() then x.s + 2 else 0, if m.Bulk() then x.b + 1 else 0)
  }

  function Winner(x: Triple, m: Mix): nat {
    var y := Boosted(x, m);
    if m.Trading() && (m.Standard() ==> y.s <= y.t) && (m.Bulk() ==> y.b <= y.t) then 0
    else if m.Standard() && (m.Bulk() ==> y.b <= y.s) then 1
    else 2
  }

  /** One selection, on three scores. */
  function Paid(x: Triple, m: Mix): Triple {
    var y, w := Boosted(x, m), m.Weight();
    match Winner(x, m)
    case 0 => y.(t := y.t - w)
    case 1 => y.(s := y.s - w)
    case _ => y.(b := y.b - w)
  }

  function Scores(x: Triple): seq<int> { [x.t, x.s, x.b] }

  function MaskOf(m: Mix): Mask { [m.Trading(), m.Standard(), m.Bulk()] }

  /** Scores and mixes are the scheduler's, at these weights. */
  lemma PaidIsCharge(x: Triple, m: Mix)
    ensures SomeActive(MaskOf(m))
    ensures Pick(SHIPPED, Scores(x), MaskOf(m)) == Winner(x, m)
    ensures Charge(SHIPPED, Scores(x), MaskOf(m)) == Scores(Paid(x, m))
  {
    hide FirstMax, IsFirstMax, MaskSum, Winner;
    var act := MaskOf(m);
    MixWeight(m);
    assert Boost(SHIPPED, Scores(x), act) == Scores(Boosted(x, m));
    WinnerIsFirst(Boosted(x, m), x, m);
  }

  lemma MixWeight(m: Mix)
    ensures SomeActive(MaskOf(m)) && MaskSum(MaskOf(m), SHIPPED) == m.Weight()
  {
    var act := MaskOf(m);
    assert act[0] || act[1] || act[2];
    var a := Masked(act, SHIPPED);
    assert Sum(a) == a[0] + Sum(a[1..]) && Sum(a[1..]) == a[1] + Sum(a[2..]) && Sum(a[2..]) == a[2] + Sum(a[3..]);
  }

  lemma WinnerIsFirst(y: Triple, x: Triple, m: Mix)
    requires y == Boosted(x, m) && SomeActive(MaskOf(m))
    ensures FirstMax(MaskOf(m), Scores(y)) == Winner(x, m)
  {
    var act, a, c := MaskOf(m), Scores(y), FirstMax(MaskOf(m), Scores(y));
    assert act[0] == m.Trading() && act[1] == m.Standard() && act[2] == m.Bulk();
    assert a[0] == y.t && a[1] == y.s && a[2] == y.b;
    assert IsFirstMax(act, a, c) && (c == 0 || c == 1 || c == 2);
  }

  // ---------------------------------------------------------------- every reachable score

  function Pos(a: int): int { Max(0, a) }

  /**
   What holds of the scores in every run from zero. The two single points are
   corners of the other bounds that nothing reaches and that would lead outside.
   */
  ghost predicate Inside(x: Triple) {
    && Pos(x.t) + Pos(x.s) + Pos(x.b) <= 20
    && -16 <= x.t <= 15 && -15 <= x.s <= 15 && -15 <= x.b <= 14
    && x.t - x.s <= 15 && x.b - x.s <= 15
    && -23 <= x.t + x.s + x.b && -23 <= x.t + x.b && -23 <= x.s + x.b
    && -23 <= x.t + x.s && (x.t + x.s == -23 ==> x.t % 2 == 0)
    && x != Triple(-8, -14, -1) && x != Triple(-7, -1, -15)
  }

  lemma InsideAlone(x: Triple, m: Mix)
    requires Inside(x) && (m.T? || m.S? || m.B?)
    ensures Inside(Paid(x, m))
  {
    match m
    case T => assert Paid(x, m) == Triple(x.t, 0, 0);
    case S => assert Paid(x, m) == Triple(0, x.s, 0);
    case B => assert Paid(x, m) == Triple(0, 0, x.b);
  }

  lemma InsideWithoutBulk(x: Triple)
    requires Inside(x)
    ensures Inside(Paid(x, TS))
  {
  }

  lemma InsideWithoutStandard(x: Triple)
    requires Inside(x)
    ensures Inside(Paid(x, TB))
  {
  }

  lemma InsideWithoutTrading(x: Triple)
    requires Inside(x)
    ensures Inside(Paid(x, SB))
  {
  }

  lemma InsideTogether(x: Triple)
    requires Inside(x)
    ensures Inside(Paid(x, ALL))
  {
    match Winner(x, ALL)
    case 0 =>
    case 1 =>
    case _ =>
  }

  function At(acts: seq<Mask>, n: nat): (x: Triple)
    requires ValidRun(SHIPPED, acts) && n <= |acts|
    ensures Scores(x) == ScoresAfter(SHIPPED, Zeros(3), acts, n)
  {
    var s := ScoresAfter(SHIPPED, Zeros(3), acts, n);
    Triple(s[0], s[1], s[2])
  }

  function MixAt(acts: seq<Mask>, n: nat): (m: Mix)
    requires ValidRun(SHIPPED, acts) && n < |acts|
    ensures MaskOf(m) == acts[n]
  {
    assert |acts[n]| == |SHIPPED| && SomeActive(acts[n]);
    if acts[n][0] then
      if acts[n][1] then if acts[n][2] then ALL else TS
      else if acts[n][2] then TB else T
    else if acts[n][1] then if acts[n][2] then SB else S
    else B
  }

  lemma AtNext(acts: seq<Mask>, n: nat)
    requires ValidRun(SHIPPED, acts) && n < |acts|
    ensures At(acts, n + 1) == Paid(At(acts, n), MixAt(acts, n))
    ensures Served(SHIPPED, Zeros(3), acts, n) == Winner(At(acts, n), MixAt(acts, n))
  {
    hide Charge, Pick, Paid, Winner, ValidRun;
    PaidIsCharge(At(acts, n), MixAt(acts, n));
    assert Scores(At(acts, n + 1)) == Scores(Paid(At(acts, n), MixAt(acts, n)));
  }

  /** Every score a run reaches, at the shipped weights. */
  lemma {:induction false} AlwaysInside(acts: seq<Mask>, n: nat)
    requires ValidRun(SHIPPED, acts) && n <= |acts|
    ensures Inside(At(acts, n))
  {
    hide Inside, Paid, ValidRun;
    if n == 0 {
      assert At(acts, 0) == ZERO;
      assert Inside(ZERO) by { ZeroInside(); }
    } else {
      AlwaysInside(acts, n - 1);
      AtNext(acts, n - 1);
      var x, m := At(acts, n - 1), MixAt(acts, n - 1);
      match m
      case ALL => InsideTogether(x);
      case TS => InsideWithoutBulk(x);
      case TB => InsideWithoutStandard(x);
      case SB => InsideWithoutTrading(x);
      case _ => InsideAlone(x, m);
    }
  }

  lemma ZeroInside()
    ensures Inside(ZERO)
  {
  }

  // ---------------------------------------------------------------- standard waits at most ten

  /**
   How trading and bulk stand to each other while standard is passed over, both
   counted from standard's score at the start plus fifteen.
   */
  ghost predicate Chasing(t: int, b: int) {
    (t <= -6 && b <= 2) || (t <= -3 && b <= 1) || (t <= 0 && b <= 0) || (t <= 2 && b <= -8)
  }

  /** The same after nine passes: bulk can no longer win. */
  ghost predicate Fading(t: int, b: int) {
    (t <= -6 && b <= 2) || (t <= -3 && b <= 1) || (t <= 0 && b <= 0)
  }

  lemma ChasingStep(x: Triple, m: Mix, base: int)
    requires base >= 0 && m.Standard() && Winner(x, m) != 1 && Chasing(x.t - base, x.b - base)
    ensures Paid(x, m).s == x.s + 2
    ensures Chasing(Paid(x, m).t - base, Paid(x, m).b - base)
  {
  }

  /** At the ninth pass bulk cannot win, at the tenth trading has little left. */
  lemma FadingStep(x: Triple, m: Mix, base: int, k: nat)
    requires base >= 0 && m.Standard() && Winner(x, m) != 1 && x.s == base - 15 + 2 * k && 8 <= k <= 9
    requires Chasing(x.t - base, x.b - base) && (k >= 9 ==> Fading(x.t - base, x.b - base))
    ensures Fading(Paid(x, m).t - base, Paid(x, m).b - base)
    ensures k == 9 ==> Paid(x, m).t - base <= -2
  {
  }

  /** One selection of a wait, on three scores. */
  lemma IsPassed(acts: seq<Mask>, i: nat, m: nat, n: nat, j: nat)
    requires ValidRun(SHIPPED, acts) && m <= j < n <= |acts| && PassedOver(SHIPPED, Zeros(3), acts, i, m, n)
    ensures i < 3 && Winner(At(acts, j), MixAt(acts, j)) != i
    ensures (i == 1 ==> MixAt(acts, j).Standard()) && (i == 2 ==> MixAt(acts, j).Bulk())
  {
    hide ValidRun, Paid, Winner, ScoresAfter;
    AtNext(acts, j);
    assert acts[j][i] && Served(SHIPPED, Zeros(3), acts, j) != i;
    assert MaskOf(MixAt(acts, j)) == acts[j];
  }

  lemma PassedSooner(acts: seq<Mask>, i: nat, m: nat, n: nat)
    requires ValidRun(SHIPPED, acts) && m < n <= |acts| && PassedOver(SHIPPED, Zeros(3), acts, i, m, n)
    ensures PassedOver(SHIPPED, Zeros(3), acts, i, m, n - 1)
  {
    hide ValidRun, Served, ScoresAfter;
  }

  /** Standard, passed over k times in a row, and what is left to the others. */
  ghost predicate Pursued(x: Triple, base: int, k: nat) {
    && k <= 10 && base >= 0 && x.s == base - 15 + 2 * k && Chasing(x.t - base, x.b - base)
    && (k >= 9 ==> Fading(x.t - base, x.b - base)) && (k == 10 ==> x.t - base <= -2)
  }

  lemma PursuedStep(x: Triple, m: Mix, base: int, k: nat)
    requires Pursued(x, base, k) && m.Standard() && Winner(x, m) != 1
    ensures k <= 9 && Pursued(Paid(x, m), base, k + 1)
  {
    hide Paid, Winner, Chasing, Fading;
    if k == 10 {
      NoEleventh(x, m, base);
      assert false;
    }
    ChasingStep(x, m, base);
    if k >= 8 {
      FadingStep(x, m, base, k);
    }
  }

  lemma {:induction false} StandardPassed(acts: seq<Mask>, m: nat, k: nat)
    requires ValidRun(SHIPPED, acts) && m + k <= |acts|
    requires PassedOver(SHIPPED, Zeros(3), acts, 1, m, m + k)
    ensures Pursued(At(acts, m + k), At(acts, m).s + 15, k)
  {
    hide ValidRun, Paid, Winner, Pursued, Inside, PassedOver, ScoresAfter, At, MixAt, MaskOf;
    if k == 0 {
      AlwaysInside(acts, m);
      StartsPursued(At(acts, m));
    } else {
      PassedSooner(acts, 1, m, m + k);
      StandardPassed(acts, m, k - 1);
      AtNext(acts, m + k - 1);
      IsPassed(acts, 1, m, m + k, m + k - 1);
      PursuedStep(At(acts, m + k - 1), MixAt(acts, m + k - 1), At(acts, m).s + 15, k - 1);
    }
  }

  lemma StartsPursued(x: Triple)
    requires Inside(x)
    ensures Pursued(x, x.s + 15, 0)
  {
  }

  lemma NoEleventh(x: Triple, m: Mix, base: int)
    requires m.Standard() && x.s == base + 5 && x.t - base <= -2 && Fading(x.t - base, x.b - base)
    ensures Winner(x, m) == 1
  {
  }

  // ---------------------------------------------------------------- bulk waits at most 28

  /** What trading and standard have to spend. */
  function Means(x: Triple): int { Pos(x.t) + Pos(x.s) }

  /**
   What is left of it after bulk, passed over k times in a row, has come from
   score -15 to -15 + k. While trading pays and standard gains, 2t + 3s stays.
   */
  ghost predicate Draining(x: Triple, k: nat) {
    && x.b == k - 15
    && Means(x) <= (if k <= 10 then 20 - k else if k <= 13 then 10 else if k == 14 then 9 else 8)
    && (k >= 11 ==> x.t <= 9 && (x.t < 0 || x.s <= 9) && (x.t > 0 && x.s > 0 ==> Means(x) <= 9))
    && (k >= 10 && x.t > 0 && x.s > 0 && 2 * x.t + 3 * x.s > 18 ==> x.t <= 41 - 3 * k)
  }

  lemma DrainingStep(x: Triple, m: Mix, k: nat)
    requires Inside(x) && Draining(x, k) && m.Bulk() && Winner(x, m) != 2
    ensures Draining(Paid(x, m), k + 1)
  {
    match m
    case B =>
    case TB => DrainingPair(x, m, k);
    case SB => DrainingPair(x, m, k);
    case ALL => DrainingTogether(x, k);
  }

  lemma DrainingPair(x: Triple, m: Mix, k: nat)
    requires Draining(x, k) && (m.TB? || m.SB?) && Winner(x, m) != 2
    ensures Draining(Paid(x, m), k + 1)
  {
    hide Draining;
    if m.TB? {
      assert Paid(x, m) == Triple(x.t - 1, 0, x.b + 1);
      OneGoes(x, k);
    } else {
      assert Paid(x, m) == Triple(0, x.s - 1, x.b + 1);
      OneGoes(x, k);
    }
  }

  /** Either class alone with bulk only loses. */
  lemma OneGoes(x: Triple, k: nat)
    requires Draining(x, k)
    ensures Draining(Triple(x.t - 1, 0, x.b + 1), k + 1) && Draining(Triple(0, x.s - 1, x.b + 1), k + 1)
  {
  }

  lemma DrainingTogether(x: Triple, k: nat)
    requires Draining(x, k) && Winner(x, ALL) != 2
    ensures Draining(Paid(x, ALL), k + 1)
  {
    if Winner(x, ALL) == 0 {
    } else {
    }
  }

  /** From score 9 on: too little to stay ahead of bulk until 14. */
  ghost predicate Tired(x: Triple) {
    && 9 <= x.b <= 13
    && (x.b == 9 ==> Means(x) <= 8) && (x.b == 10 ==> x.t <= 8 && (x.t < 0 || x.s <= 8))
    && (x.b == 11 ==> x.t <= 7) && (x.b == 12 ==> x.t <= 6) && (x.b == 13 ==> x.t <= 5)
  }

  lemma TiredStep(x: Triple, m: Mix)
    requires Inside(x) && Tired(x) && m.Bulk() && Winner(x, m) != 2
    ensures x.b <= 12 && Paid(x, m).b == x.b + 1 && Tired(Paid(x, m))
  {
    match m
    case B =>
    case TB =>
    case SB =>
    case ALL =>
  }

  /** Bulk, passed over k times in a row since it stood at -15. */
  lemma {:induction false} BulkPassed(acts: seq<Mask>, m: nat, k: nat)
    requires ValidRun(SHIPPED, acts) && m + k <= |acts| && At(acts, m).b == -15
    requires PassedOver(SHIPPED, Zeros(3), acts, 2, m, m + k)
    ensures Waning(At(acts, m + k), k)
  {
    hide ValidRun, Paid, Winner, Waning, Inside, PassedOver, ScoresAfter, At, MixAt, MaskOf;
    if k == 0 {
      AlwaysInside(acts, m);
      StartsDraining(At(acts, m));
    } else {
      PassedSooner(acts, 2, m, m + k);
      BulkPassed(acts, m, k - 1);
      AtNext(acts, m + k - 1);
      AlwaysInside(acts, m + k - 1);
      IsPassed(acts, 2, m, m + k, m + k - 1);
      WaningStep(At(acts, m + k - 1), MixAt(acts, m + k - 1), k - 1);
    }
  }

  ghost predicate Waning(x: Triple, k: nat) {
    k <= 28 && (k <= 24 ==> Draining(x, k)) && (k >= 24 ==> Tired(x) && x.b == k - 15)
  }

  lemma WaningStep(x: Triple, m: Mix, k: nat)
    requires Inside(x) && Waning(x, k) && m.Bulk() && Winner(x, m) != 2
    ensures Waning(Paid(x, m), k + 1)
  {
    hide Paid, Winner, Draining, Tired, Inside;
    if k < 24 {
      DrainingStep(x, m, k);
      if k == 23 {
        DrainedIsTired(Paid(x, m));
      }
    } else {
      TiredStep(x, m);
    }
  }

  lemma StartsDraining(x: Triple)
    requires Inside(x) && x.b == -15
    ensures Waning(x, 0)
  {
  }

  lemma DrainedIsTired(x: Triple)
    requires Draining(x, 24)
    ensures Tired(x)
  {
  }

  /** However the other classes come and go, bulk is passed over at most 28 times in a row. */
  lemma BulkWaitsAtMost(acts: seq<Mask>, m: nat, n: nat)
    requires ValidRun(SHIPPED, acts) && m <= n <= |acts| && PassedOver(SHIPPED, Zeros(3), acts, 2, m, n)
    ensures n - m <= 28
  {
    hide ValidRun, PassedOver;
    PassedOverScore(SHIPPED, Zeros(3), acts, 2, m, n);
    AlwaysInside(acts, m);
    AlwaysInside(acts, n);
    assert At(acts, n).b == At(acts, m).b + (n - m);
    if At(acts, m).b == -15 {
      BulkPassed(acts, m, n - m);
    }
  }

  // ---------------------------------------------------------------- the promise, class by class

  /** Whenever the class waits, in any run from zero scores, it is served within eleven decisions. */
  ghost predicate KeepsPromise(i: nat) {
    forall acts: seq<Mask>, m: nat, n: nat ::
      ValidRun(SHIPPED, acts) && m <= n <= |acts| && PassedOver(SHIPPED, Zeros(3), acts, i, m, n) ==> n - m <= 10
  }

  lemma TradingPassed(acts: seq<Mask>, m: nat, n: nat)
    requires ValidRun(SHIPPED, acts) && m <= n <= |acts| && PassedOver(SHIPPED, Zeros(3), acts, 0, m, n)
    ensures n - m <= 3
  {
    hide ValidRun, PassedOver;
    PassedOverScore(SHIPPED, Zeros(3), acts, 0, m, n);
    AlwaysInside(acts, m);
    AlwaysInside(acts, n);
    assert At(acts, n).t == At(acts, m).t + (n - m) * 8;
  }

  // ---------------------------------------------------------------- runs written out

  /** A run, with the scores each selection leaves. */
  datatype Trail = End | Leg(mix: Mix, after: Triple, rest: Trail)

  predicate Follows(x: Triple, p: Trail)
    decreases p
  {
    match p
    case End => true
    case Leg(m, after, rest) => Paid(x, m) == after && Follows(after, rest)
  }

  /** The same, with bulk waiting at every selection and gaining its weight. */
  predicate Climbs(x: Triple, p: Trail)
    decreases p
  {
    match p
    case End => true
    case Leg(m, after, rest) => Paid(x, m) == after && m.Bulk() && after.b == x.b + 1 && Climbs(after, rest)
  }

  function Masks(p: Trail): seq<Mask>
    decreases p
  {
    match p
    case End => []
    case Leg(m, _, rest) => [MaskOf(m)] + Masks(rest)
  }

  function Last(x: Triple, p: Trail): Triple
    decreases p
  {
    match p
    case End => x
    case Leg(_, after, rest) => Last(after, rest)
  }

  const LOW_1: Trail :=
    Leg(TB, Triple(-1, 0, 1), Leg(TB, Triple(-2, 0, 2), Leg(TS, Triple(-4, 2, 0),
    Leg(ALL, Triple(-7, 4, 1), Leg(TB, Triple(1, 0, -7), Leg(ALL, Triple(-2, 2, -6),
    Leg(ALL, Triple(-5, 4, -5), Leg(TB, Triple(-6, 0, -4), Leg(ALL, Triple(-9, 2, -3),
    Leg(TB, Triple(-10, 0, -2), Leg(TB, Triple(-2, 0, -10), Leg(ALL, Triple(-5, 2, -9),
    Leg(TB, Triple(-6, 0, -8), Leg(ALL, Triple(-9, 2, -7), End))))))))))))))

  const LOW_2: Trail :=
    Leg(TB, Triple(-10, 0, -6), Leg(TB, Triple(-11, 0, -5), Leg(TB, Triple(-12, 0, -4),
    Leg(TB, Triple(-4, 0, -12), Leg(TB, Triple(-5, 0, -11), Leg(TB, Triple(-6, 0, -10),
    Leg(ALL, Triple(-9, 2, -9), Leg(TB, Triple(-10, 0, -8), Leg(TB, Triple(-11, 0, -7),
    Leg(TB, Triple(-12, 0, -6), Leg(TB, Triple(-13, 0, -5), Leg(TB, Triple(-5, 0, -13),
    Leg(TB, Triple(-6, 0, -12), Leg(ALL, Triple(-9, 2, -11), End))))))))))))))

  const LOW_3: Trail :=
    Leg(TB, Triple(-10, 0, -10), Leg(TB, Triple(-11, 0, -9), Leg(TB, Triple(-12, 0, -8),
    Leg(TB, Triple(-13, 0, -7), Leg(TB, Triple(-14, 0, -6), Leg(TB, Triple(-6, 0, -14),
    Leg(ALL, Triple(-9, 2, -13), Leg(TB, Triple(-10, 0, -12), Leg(TB, Triple(-11, 0, -11),
    Leg(TB, Triple(-12, 0, -10), Leg(TB, Triple(-13, 0, -9), Leg(TB, Triple(-14, 0, -8),
    Leg(TB, Triple(-15, 0, -7), Leg(TB, Triple(-7, 0, -15), End))))))))))))))

  const CLIMB_1: Trail :=
    Leg(SB, Triple(0, -1, -14), Leg(SB, Triple(0, -2, -13), Leg(SB, Triple(0, -3, -12),
    Leg(SB, Triple(0, -4, -11), Leg(SB, Triple(0, -5, -10), Leg(SB, Triple(0, -6, -9),
    Leg(SB, Triple(0, -7, -8), Leg(SB, Triple(0, -8, -7), Leg(SB, Triple(0, -9, -6),
    Leg(TB, Triple(-1, 0, -5), End))))))))))

  const CLIMB_2: Trail :=
    Leg(SB, Triple(0, -1, -4), Leg(TB, Triple(-1, 0, -3), Leg(ALL, Triple(-4, 2, -2),
    Leg(SB, Triple(0, 1, -1), Leg(ALL, Triple(-3, 3, 0), Leg(ALL, Triple(-6, 5, 1),
    Leg(SB, Triple(0, 4, 2), Leg(ALL, Triple(-3, 6, 3), Leg(SB, Triple(0, 5, 4),
    Leg(ALL, Triple(-3, 7, 5), End))))))))))

  const CLIMB_3: Trail :=
    Leg(SB, Triple(0, 6, 6), Leg(ALL, Triple(-3, 8, 7), Leg(SB, Triple(0, 7, 8),
    Leg(ALL, Triple(8, -2, 9), Leg(TB, Triple(7, 0, 10), Leg(TB, Triple(6, 0, 11),
    Leg(TB, Triple(5, 0, 12), Leg(TB, Triple(4, 0, 13), End))))))))

  const HIGH_1: Trail :=
    Leg(SB, Triple(0, -1, 1), Leg(SB, Triple(0, 1, -1), Leg(TS, Triple(-2, 3, 0),
    Leg(ALL, Triple(-5, 5, 1), Leg(SB, Triple(0, 4, 2), Leg(ALL, Triple(-3, 6, 3),
    Leg(SB, Triple(0, 5, 4), Leg(ALL, Triple(-3, 7, 5), Leg(SB, Triple(0, 6, 6),
    Leg(ALL, Triple(-3, 8, 7), End))))))))))

  const HIGH_2: Trail :=
    Leg(SB, Triple(0, 7, 8), Leg(ALL, Triple(8, -2, 9), Leg(TB, Triple(7, 0, 10),
    Leg(ALL, Triple(4, 2, 11), Leg(ALL, Triple(1, 4, 12), Leg(ALL, Triple(9, 6, 2),
    Leg(ALL, Triple(6, 8, 3), Leg(ALL, Triple(3, 10, 4), Leg(ALL, Triple(11, 1, 5),
    Leg(ALL, Triple(8, 3, 6), End))))))))))

  const HIGH_3: Trail :=
    Leg(ALL, Triple(5, 5, 7), Leg(ALL, Triple(2, 7, 8), Leg(ALL, Triple(-1, 9, 9),
    Leg(SB, Triple(0, 8, 10), Leg(ALL, Triple(8, 10, 0), Leg(TS, Triple(6, 12, 0),
    Leg(ALL, Triple(3, 14, 1), Leg(ALL, Triple(11, 5, 2), Leg(ALL, Triple(8, 7, 3), End)))))))))

  const TOP_1: Trail :=
    Leg(ALL, Triple(5, 9, 4), Leg(ALL, Triple(2, 11, 5), Leg(ALL, Triple(10, 2, 6),
    Leg(ALL, Triple(7, 4, 7), Leg(ALL, Triple(4, 6, 8), Leg(ALL, Triple(1, 8, 9),
    Leg(ALL, Triple(9, -1, 10), Leg(TB, Triple(8, 0, 11), Leg(TB, Triple(7, 0, 12),
    Leg(TB, Triple(6, 0, 13), Leg(TB, Triple(5, 0, 14), End)))))))))))

  lemma Low1()
    ensures Follows(ZERO, LOW_1) && Last(ZERO, LOW_1) == Triple(-9, 2, -7)
  {
  }

  lemma Low2()
    ensures Follows(Triple(-9, 2, -7), LOW_2) && Last(Triple(-9, 2, -7), LOW_2) == Triple(-9, 2, -11)
  {
  }

  lemma Low3()
    ensures Follows(Triple(-9, 2, -11), LOW_3) && Last(Triple(-9, 2, -11), LOW_3) == Triple(-7, 0, -15)
  {
  }

  lemma High1()
    ensures Follows(ZERO, HIGH_1) && Last(ZERO, HIGH_1) == Triple(-3, 8, 7)
  {
  }

  lemma High2()
    ensures Follows(Triple(-3, 8, 7), HIGH_2) && Last(Triple(-3, 8, 7), HIGH_2) == Triple(8, 3, 6)
  {
  }

  lemma High3()
    ensures Follows(Triple(8, 3, 6), HIGH_3) && Last(Triple(8, 3, 6), HIGH_3) == Triple(8, 7, 3)
  {
  }

  lemma Climb1()
    ensures Climbs(Triple(-7, 0, -15), CLIMB_1) && Last(Triple(-7, 0, -15), CLIMB_1) == Triple(-1, 0, -5)
  {
  }

  lemma Climb2()
    ensures Climbs(Triple(-1, 0, -5), CLIMB_2) && Last(Triple(-1, 0, -5), CLIMB_2) == Triple(-3, 7, 5)
  {
  }

  lemma Climb3()
    ensures Climbs(Triple(-3, 7, 5), CLIMB_3) && Last(Triple(-3, 7, 5), CLIMB_3) == Triple(4, 0, 13)
  {
  }

  lemma Top1()
    ensures Climbs(Triple(8, 7, 3), TOP_1) && Last(Triple(8, 7, 3), TOP_1) == Triple(5, 0, 14)
  {
  }

  // ---------------------------------------------------------------- joining runs

  /** The run leads from zero scores to x. */
  ghost predicate LeadsTo(acts: seq<Mask>, x: Triple) {
    ValidRun(SHIPPED, acts) && ScoresAfter(SHIPPED, Zeros(3), acts, |acts|) == Scores(x)
  }

  lemma LeadsOn(acts: seq<Mask>, x: Triple, m: Mix)
    requires LeadsTo(acts, x)
    ensures LeadsTo(acts + [MaskOf(m)], Paid(x, m))
    ensures ValidRun(SHIPPED, acts + [MaskOf(m)])
    ensures Served(SHIPPED, Zeros(3), acts + [MaskOf(m)], |acts|) == Winner(x, m)
  {
    hide Charge, Pick, Paid, Winner, SomeActive;
    PaidIsCharge(x, m);
    var more := acts + [MaskOf(m)];
    assert more[|acts|] == MaskOf(m);
    FrontAlone(SHIPPED, Zeros(3), acts, [MaskOf(m)], |acts|);
  }

  lemma {:induction false} FollowOn(acts: seq<Mask>, x: Triple, p: Trail)
    requires LeadsTo(acts, x) && Follows(x, p)
    ensures LeadsTo(acts + Masks(p), Last(x, p))
    decreases p
  {
    hide LeadsTo, Paid;
    match p
    case End => assert acts + [] == acts;
    case Leg(m, after, rest) =>
      LeadsOn(acts, x, m);
      FollowOn(acts + [MaskOf(m)], after, rest);
      assert acts + [MaskOf(m)] + Masks(rest) == acts + Masks(p);
  }

  /** Bulk has been passed over since selection m of a run that leads to x. */
  ghost predicate Climbing(acts: seq<Mask>, m: nat, x: Triple) {
    LeadsTo(acts, x) && m <= |acts| && PassedOver(SHIPPED, Zeros(3), acts, 2, m, |acts|)
  }

  lemma ClimbsOn(acts: seq<Mask>, m: nat, x: Triple, mix: Mix)
    requires Climbing(acts, m, x) && mix.Bulk() && Paid(x, mix).b == x.b + 1
    ensures Climbing(acts + [MaskOf(mix)], m, Paid(x, mix))
  {
    hide ScoresAfter, SomeActive;
    LeadsOn(acts, x, mix);
    var more := acts + [MaskOf(mix)];
    forall j | m <= j < |more| ensures more[j][2] && Served(SHIPPED, Zeros(3), more, j) != 2 {
      if j < |acts| {
        assert more[j] == acts[j];
        FrontAlone(SHIPPED, Zeros(3), acts, [MaskOf(mix)], j);
      }
    }
  }

  lemma {:induction false} ClimbOn(acts: seq<Mask>, m: nat, x: Triple, p: Trail)
    requires Climbing(acts, m, x) && Climbs(x, p)
    ensures Climbing(acts + Masks(p), m, Last(x, p))
    decreases p
  {
    hide Climbing, Paid;
    match p
    case End => assert acts + [] == acts;
    case Leg(mix, after, rest) =>
      ClimbsOn(acts, m, x, mix);
      ClimbOn(acts + [MaskOf(mix)], m, after, rest);
      assert acts + [MaskOf(mix)] + Masks(rest) == acts + Masks(p);
  }

  lemma StartClimbing(acts: seq<Mask>, x: Triple)
    requires LeadsTo(acts, x)
    ensures Climbing(acts, |acts|, x)
  {
  }

  lemma LeadsNowhere()
    ensures LeadsTo([], ZERO)
  {
  }

  /** A run in which bulk waits from score -15 up to 13 without a turn. */
  lemma LongClimb() returns (acts: seq<Mask>, m: nat)
    ensures Climbing(acts, m, Triple(4, 0, 13)) && ScoresAfter(SHIPPED, Zeros(3), acts, m)[2] == -15
  {
    hide LeadsTo, Climbing, Follows, Climbs, Last, Masks;
    LeadsNowhere();
    Low1(); Low2(); Low3(); Climb1(); Climb2(); Climb3();
    FollowOn([], ZERO, LOW_1);
    var lead := [] + Masks(LOW_1);
    FollowOn(lead, Triple(-9, 2, -7), LOW_2);
    lead := lead + Masks(LOW_2);
    FollowOn(lead, Triple(-9, 2, -11), LOW_3);
    lead := lead + Masks(LOW_3);
    m := |lead|;
    StartClimbing(lead, Triple(-7, 0, -15));
    ClimbOn(lead, m, Triple(-7, 0, -15), CLIMB_1);
    acts := lead + Masks(CLIMB_1);
    ClimbOn(acts, m, Triple(-1, 0, -5), CLIMB_2);
    acts := acts + Masks(CLIMB_2);
    ClimbOn(acts, m, Triple(-3, 7, 5), CLIMB_3);
    acts := acts + Masks(CLIMB_3);
    var climb := Masks(CLIMB_1) + Masks(CLIMB_2) + Masks(CLIMB_3);
    assert lead + climb == acts;
    ClimbFrom(lead, Triple(-7, 0, -15), climb, m, Triple(4, 0, 13));
  }

  /** A run in which bulk waits from score 3 up to 14 without a turn. */
  lemma TopClimb() returns (acts: seq<Mask>, m: nat)
    ensures Climbing(acts, m, Triple(5, 0, 14)) && ScoresAfter(SHIPPED, Zeros(3), acts, m)[2] == 3
  {
    hide LeadsTo, Climbing, Follows, Climbs, Last, Masks;
    LeadsNowhere();
    High1(); High2(); High3(); Top1();
    FollowOn([], ZERO, HIGH_1);
    var lead := [] + Masks(HIGH_1);
    FollowOn(lead, Triple(-3, 8, 7), HIGH_2);
    lead := lead + Masks(HIGH_2);
    FollowOn(lead, Triple(8, 3, 6), HIGH_3);
    lead := lead + Masks(HIGH_3);
    m := |lead|;
    StartClimbing(lead, Triple(8, 7, 3));
    ClimbOn(lead, m, Triple(8, 7, 3), TOP_1);
    acts := lead + Masks(TOP_1);
    ClimbFrom(lead, Triple(8, 7, 3), Masks(TOP_1), m, Triple(5, 0, 14));
  }

  lemma ClimbFrom(lead: seq<Mask>, x: Triple, back: seq<Mask>, m: nat, z: Triple)
    requires LeadsTo(lead, x) && m == |lead| && Climbing(lead + back, m, z)
    ensures ScoresAfter(SHIPPED, Zeros(3), lead + back, m)[2] == x.b
  {
    hide ScoresAfter, SomeActive;
    forall n | 0 <= n < |back| ensures |back[n]| == 3 && SomeActive(back[n]) {
      assert (lead + back)[m + n] == back[n];
    }
    FrontAlone(SHIPPED, Zeros(3), lead, back, m);
  }

  // ---------------------------------------------------------------- the theorems

  /** Some run reaches bulk score v and then passes bulk over at eleven selections in a row. */
  ghost predicate Breakable(v: int) {
    exists acts: seq<Mask>, m: nat, n: nat ::
      && ValidRun(SHIPPED, acts) && m <= n <= |acts| && n - m == 11
      && ScoresAfter(SHIPPED, Zeros(3), acts, m)[2] == v && PassedOver(SHIPPED, Zeros(3), acts, 2, m, n)
  }

  lemma ClimbBreaks(acts: seq<Mask>, m: nat, z: Triple, v: int)
    requires Climbing(acts, m, z)
    requires ScoresAfter(SHIPPED, Zeros(3), acts, m)[2] <= v <= z.b - 11
    ensures Breakable(v)
  {
    hide ScoresAfter, ValidRun, Served;
    var lo := ScoresAfter(SHIPPED, Zeros(3), acts, m)[2];
    PassedOverScore(SHIPPED, Zeros(3), acts, 2, m, |acts|);
    var from := m + (v - lo);
    assert PassedOver(SHIPPED, Zeros(3), acts, 2, m, from);
    PassedOverScore(SHIPPED, Zeros(3), acts, 2, m, from);
    assert PassedOver(SHIPPED, Zeros(3), acts, 2, from, from + 11);
  }

  /**
   From which scores bulk can be made to wait for more than eleven decisions:
   exactly from -15 to 3. No run leaves it lower, and from 4 on it is served in
   time whatever the other classes do.
   */
  lemma BulkBreaksExactly(v: int)
    ensures Breakable(v) <==> -15 <= v <= 3
  {
    hide ValidRun, PassedOver, ScoresAfter, Climbing;
    if Breakable(v) {
      var acts: seq<Mask>, m: nat, n: nat :|
        && ValidRun(SHIPPED, acts) && m <= n <= |acts| && n - m == 11
        && ScoresAfter(SHIPPED, Zeros(3), acts, m)[2] == v && PassedOver(SHIPPED, Zeros(3), acts, 2, m, n);
      PassedOverScore(SHIPPED, Zeros(3), acts, 2, m, n);
      AlwaysInside(acts, m);
      AlwaysInside(acts, n);
      assert At(acts, m).b == v && At(acts, n).b == v + 11;
    }
    if -15 <= v <= 2 {
      var acts, m := LongClimb();
      ClimbBreaks(acts, m, Triple(4, 0, 13), v);
    } else if v == 3 {
      var acts, m := TopClimb();
      ClimbBreaks(acts, m, Triple(5, 0, 14), v);
    }
  }

  /**
   The documented promise, at the shipped weights: trading and standard get their
   turn within eleven decisions in every run, and bulk does not.
   */
  lemma PromiseUnlessBulk(i: nat)
    requires i < 3
    ensures KeepsPromise(i) <==> i != 2
  {
    hide ValidRun, PassedOver, ScoresAfter;
    if i == 2 {
      BulkBreaksExactly(0);
      var acts: seq<Mask>, m: nat, n: nat :|
        && ValidRun(SHIPPED, acts) && m <= n <= |acts| && n - m == 11
        && ScoresAfter(SHIPPED, Zeros(3), acts, m)[2] == 0 && PassedOver(SHIPPED, Zeros(3), acts, 2, m, n);
    } else {
      forall acts: seq<Mask>, m: nat, n: nat |
          ValidRun(SHIPPED, acts) && m <= n <= |acts| && PassedOver(SHIPPED, Zeros(3), acts, i, m, n)
        ensures n - m <= 10
      {
        if i == 0 {
          TradingPassed(acts, m, n);
        } else {
          StandardPassed(acts, m, n - m);
          PursuedTen(At(acts, n), At(acts, m).s + 15, n - m);
        }
      }
    }
  }

  lemma PursuedTen(x: Triple, base: int, k: nat)
    requires Pursued(x, base, k)
    ensures k <= 10
  {
  }

  /** How far it goes: bulk's longest wait is exactly 28 selections in a row. */
  lemma ElevenIsNotABound()
    ensures forall acts: seq<Mask>, m: nat, n: nat ::
              ValidRun(SHIPPED, acts) && m <= n <= |acts| && PassedOver(SHIPPED, Zeros(3), acts, 2, m, n) ==>
                n - m <= 28
    ensures exists acts: seq<Mask>, m: nat, n: nat ::
              ValidRun(SHIPPED, acts) && m <= n <= |acts| && n - m == 28
                    && PassedOver(SHIPPED, Zeros(3), acts, 2, m, n)
  {
    hide ValidRun, PassedOver, ScoresAfter;
    forall acts: seq<Mask>, m: nat, n: nat |
        ValidRun(SHIPPED, acts) && m <= n <= |acts| && PassedOver(SHIPPED, Zeros(3), acts, 2, m, n)
      ensures n - m <= 28
    {
      BulkWaitsAtMost(acts, m, n);
    }
    var acts, m := LongClimb();
    PassedOverScore(SHIPPED, Zeros(3), acts, 2, m, |acts|);
  }
}
