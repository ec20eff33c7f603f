/**
 Callers that stay queued together, at the shipped weights: all three classes are
 waiting at every selection of a wait, whatever came and went before it. Then
 nothing is left to chance, and the scores the wait starts from decide.
 */
module SteadyBacklog {
  import opened Prelude
  import opened FairScores
  import opened ShippedWeights

  /** All three classes are waiting at selections m to n. */
  ghost predicate Together(acts: seq<Mask>, m: nat, n: nat) {
    m <= n <= |acts| && forall j :: m <= j < n ==> acts[j] == MaskOf(ALL)
  }

  // ---------------------------------------------------------------- when bulk is passed over

  /**
   How far trading's score, about to be raised, is above standard's, k selections
   into a wait of all three: the one that is ahead pays.
   */
  function Gap(d: int, k: nat): int {
    if k == 0 then d
    else
      var g := Gap(d, k - 1);
      if g >= 0 then g - 5 else g + 17
  }

  function Lead(x: Triple): int { x.t - x.s + 6 }

  /** What trading and standard hold between them over bulk. */
  function Surplus(x: Triple): int { x.t + x.s - 2 * x.b }

  function Abs(a: int): int { if a < 0 then -a else a }

  /** At selection k of the wait trading or standard is still ahead of bulk. */
  predicate AheadAt(x: Triple, k: nat) {
    3 * k <= Surplus(x) + 8 + Abs(Gap(Lead(x), k))
  }

  /** They are ahead at each of the first n selections. */
  predicate Outlasts(x: Triple, n: nat) {
    forall k :: 0 <= k < n ==> AheadAt(x, k)
  }

  /** Where a wait of all three stands after k passes, in terms of where it started. */
  ghost predicate Since(x: Triple, y: Triple, k: nat) {
    y.b == x.b + k && y.t + y.s == x.t + x.s - k && Lead(y) == Gap(Lead(x), k)
  }

  /** Who wins depends on the surplus and the gap alone. */
  lemma BulkWinsUnless(x: Triple, y: Triple, k: nat)
    requires Since(x, y, k)
    ensures Winner(y, ALL) != 2 <==> AheadAt(x, k)
    ensures Winner(y, ALL) != 2 ==> Since(x, Paid(y, ALL), k + 1)
  {
  }

  lemma {:induction false} SinceStart(acts: seq<Mask>, m: nat, k: nat)
    requires ValidRun(SHIPPED, acts) && m + k <= |acts| && Together(acts, m, m + k)
    requires PassedOver(SHIPPED, Zeros(3), acts, 2, m, m + k)
    ensures Since(At(acts, m), At(acts, m + k), k) && Outlasts(At(acts, m), k)
  {
    hide ValidRun, PassedOver, ScoresAfter, At, MixAt, MaskOf, Winner, Paid, AheadAt, Since;
    if k == 0 {
      assert Since(At(acts, m), At(acts, m), 0) by { SinceNow(At(acts, m)); }
    } else {
      PassedSooner(acts, 2, m, m + k);
      SinceStart(acts, m, k - 1);
      IsPassed(acts, 2, m, m + k, m + k - 1);
      AllTogether(acts, m, m + k, m + k - 1);
      AtNext(acts, m + k - 1);
      BulkWinsUnless(At(acts, m), At(acts, m + k - 1), k - 1);
    }
  }

  lemma SinceNow(x: Triple)
    ensures Since(x, x, 0)
  {
  }

  lemma AllTogether(acts: seq<Mask>, m: nat, n: nat, j: nat)
    requires ValidRun(SHIPPED, acts) && Together(acts, m, n) && m <= j < n
    ensures MixAt(acts, j) == ALL
  {
    hide ValidRun;
    assert acts[j] == MaskOf(ALL) && MaskOf(MixAt(acts, j)) == acts[j];
    SameMask(MixAt(acts, j), ALL);
  }

  lemma SameMask(a: Mix, b: Mix)
    requires MaskOf(a) == MaskOf(b)
    ensures a == b
  {
    assert MaskOf(a)[0] == a.Trading() && MaskOf(a)[1] == a.Standard() && MaskOf(a)[2] == a.Bulk();
    assert MaskOf(b)[0] == b.Trading() && MaskOf(b)[1] == b.Standard() && MaskOf(b)[2] == b.Bulk();
  }

  /**
   Exactly when bulk is passed over at n selections in a row while all three stay
   queued, from any scores a run has left.
   */
  lemma {:induction false} SteadyExactly(acts: seq<Mask>, m: nat, n: nat)
    requires ValidRun(SHIPPED, acts) && m + n <= |acts| && Together(acts, m, m + n)
    ensures PassedOver(SHIPPED, Zeros(3), acts, 2, m, m + n) <==> Outlasts(At(acts, m), n)
  {
    hide ValidRun, ScoresAfter, At, MixAt, Winner, Paid, AheadAt, Since, Served;
    if PassedOver(SHIPPED, Zeros(3), acts, 2, m, m + n) {
      SinceStart(acts, m, n);
    }
    if n > 0 && Outlasts(At(acts, m), n) {
      SteadyExactly(acts, m, n - 1);
      SinceStart(acts, m, n - 1);
      BulkWinsUnless(At(acts, m), At(acts, m + n - 1), n - 1);
      AllTogether(acts, m, m + n, m + n - 1);
      AtNext(acts, m + n - 1);
      assert acts[m + n - 1] == MaskOf(ALL) && acts[m + n - 1][2];
    }
  }

  // ---------------------------------------------------------------- how scores stand to each other

  /** More of what holds in every run from zero: how far bulk can fall behind the other two. */
  ghost predicate Level(x: Triple) {
    && Means(x) - 2 * x.b <= 30
    && x.s - x.b <= 17 && x.t + 4 * x.s - 5 * x.b <= 78
    && x.t - x.b <= (if x.s >= x.t + 7 then 8 else if x.s >= x.t + 2 then 12 else 15)
  }

  lemma LevelAlone(x: Triple, m: Mix)
    requires Inside(x) && Level(x) && (m.T? || m.S? || m.B?)
    ensures Level(Paid(x, m))
  {
    match m
    case T => assert Paid(x, m) == Triple(x.t, 0, 0);
    case S => assert Paid(x, m) == Triple(0, x.s, 0);
    case B => assert Paid(x, m) == Triple(0, 0, x.b);
  }

  lemma LevelWithoutBulk(x: Triple)
    requires Inside(x) && Level(x)
    ensures Level(Paid(x, TS))
  {
  }

  lemma LevelWithoutStandard(x: Triple)
    requires Inside(x) && Level(x)
    ensures Level(Paid(x, TB))
  {
  }

  lemma LevelWithoutTrading(x: Triple)
    requires Inside(x) && Level(x)
    ensures Level(Paid(x, SB))
  {
    if Winner(x, SB) == 1 {
      StandardLevel(x);
    } else {
      assert Paid(x, SB) == Triple(0, x.s + 2, x.b - 2);
    }
  }

  lemma StandardLevel(x: Triple)
    requires Inside(x) && Level(x) && Winner(x, SB) == 1
    ensures Level(Paid(x, SB))
  {
    assert Paid(x, SB) == Triple(0, x.s - 1, x.b + 1);
  }

  lemma LevelTogether(x: Triple)
    requires Inside(x) && Level(x)
    ensures Level(Paid(x, ALL))
  {
    match Winner(x, ALL)
    case 0 =>
    case 1 =>
    case _ =>
  }

  lemma {:induction false} AlwaysLevel(acts: seq<Mask>, n: nat)
    requires ValidRun(SHIPPED, acts) && n <= |acts|
    ensures Level(At(acts, n))
  {
    hide Inside, Level, Paid, ValidRun;
    if n == 0 {
      assert At(acts, 0) == ZERO;
      assert Level(ZERO) by { ZeroLevel(); }
    } else {
      AlwaysLevel(acts, n - 1);
      AlwaysInside(acts, n - 1);
      AtNext(acts, n - 1);
      var x, m := At(acts, n - 1), MixAt(acts, n - 1);
      match m
      case ALL => LevelTogether(x);
      case TS => LevelWithoutBulk(x);
      case TB => LevelWithoutStandard(x);
      case SB => LevelWithoutTrading(x);
      case _ => LevelAlone(x, m);
    }
  }

  lemma ZeroLevel()
    ensures Level(ZERO)
  {
  }

  // ---------------------------------------------------------------- from which scores, and for how long

  /** After two selections the gap stays between -5 and 16, and turns by 22. */
  lemma {:induction false} GapLater(d: int, k: nat) returns (turns: int)
    requires -25 <= d <= 21 && k >= 2
    ensures -5 <= Gap(d, k) <= 16 && Gap(d, k) == d - 5 * k + 22 * turns
  {
    if k == 2 {
      assert Gap(d, 1) == if d >= 0 then d - 5 else d + 17;
      turns := (if d >= 0 then 0 else 1) + if Gap(d, 1) >= 0 then 0 else 1;
    } else {
      var before := GapLater(d, k - 1);
      turns := before + if Gap(d, k - 1) >= 0 then 0 else 1;
    }
  }

  lemma LeadRange(x: Triple)
    requires Inside(x)
    ensures -25 <= Lead(x) <= 21
  {
  }

  /** With a surplus of at most twelve bulk is served within eleven decisions. */
  lemma SmallSurplus(x: Triple)
    requires Inside(x) && Surplus(x) <= 12
    ensures !Outlasts(x, 11)
  {
    hide Inside, Gap;
    LeadRange(x);
    var turns := GapLater(Lead(x), 8);
    NextGaps(Lead(x), 8);
    if AheadAt(x, 8) && AheadAt(x, 9) {
      assert !AheadAt(x, 10);
    }
  }

  lemma NextGaps(d: int, k: nat)
    ensures Gap(d, k + 1) == if Gap(d, k) >= 0 then Gap(d, k) - 5 else Gap(d, k) + 17
    ensures Gap(d, k + 2) == if Gap(d, k + 1) >= 0 then Gap(d, k + 1) - 5 else Gap(d, k + 1) + 17
  {
  }

  /** With a surplus of at least 21 it is not. */
  lemma LargeSurplus(x: Triple)
    requires Inside(x) && Surplus(x) >= 21
    ensures Outlasts(x, 11)
  {
    hide Inside, Gap;
    LeadRange(x);
    var turns := GapLater(Lead(x), 10);
    if Gap(Lead(x), 10) == 0 {
      assert Surplus(x) == Lead(x) - 6 + 2 * (x.s - x.b);
      assert Lead(x) == 2 * (25 - 11 * turns);
    }
  }

  /** From no scores of any run is it passed over fifteen times. */
  lemma AtMostFourteen(x: Triple)
    requires Inside(x) && Level(x)
    ensures !Outlasts(x, 15)
  {
    hide Gap;
    LeadRange(x);
    var turns := GapLater(Lead(x), 12);
    NextGaps(Lead(x), 12);
    var g := Gap(Lead(x), 12);
    if AheadAt(x, 12) && AheadAt(x, 13) {
      assert !AheadAt(x, 14);
    }
  }

  // ---------------------------------------------------------------- callers that stay queued together

  /**
   Whenever the class waits and all three stay queued, in any run from zero scores,
   it is served within eleven decisions.
   */
  ghost predicate KeepsTogether(i: nat) {
    forall acts: seq<Mask>, m: nat, n: nat ::
      ValidRun(SHIPPED, acts) && Together(acts, m, n) && PassedOver(SHIPPED, Zeros(3), acts, i, m, n) ==> n - m <= 10
  }

  /** After LOW_1, trading and bulk alone, then bulk alone: nobody is owed anything, and bulk owes twelve. */
  const OWING: Trail :=
    Leg(TB, Triple(-10, 0, -6), Leg(TB, Triple(-11, 0, -5),
    Leg(TB, Triple(-12, 0, -4), Leg(TB, Triple(-4, 0, -12), Leg(B, Triple(0, 0, -12), End)))))

  lemma Owing()
    ensures Follows(Triple(-9, 2, -7), OWING) && Last(Triple(-9, 2, -7), OWING) == Triple(0, 0, -12)
  {
  }

  lemma GapsFromSix()
    ensures Gap(6, 0) == 6 && Gap(6, 1) == 1 && Gap(6, 2) == -4 && Gap(6, 3) == 13 && Gap(6, 4) == 8
          && Gap(6, 5) == 3 && Gap(6, 6) == -2
    ensures Gap(6, 7) == 15 && Gap(6, 8) == 10 && Gap(6, 9) == 5 && Gap(6, 10) == 0 && Gap(6, 11) == -5
          && Gap(6, 12) == 12 && Gap(6, 13) == 7
  {
    assert Gap(6, 0) == 6 && Gap(6, 1) == 1 && Gap(6, 2) == -4 && Gap(6, 3) == 13 && Gap(6, 4) == 8
          && Gap(6, 5) == 3 && Gap(6, 6) == -2;
  }

  lemma OwingOutlasts()
    ensures Outlasts(Triple(0, 0, -12), 14)
  {
    hide Gap;
    GapsFromSix();
    assert Lead(Triple(0, 0, -12)) == 6 && Surplus(Triple(0, 0, -12)) == 24;
  }

  /** A run after which all three classes wait at fourteen selections in a row and bulk is served at none. */
  lemma FourteenTogether() returns (acts: seq<Mask>, m: nat)
    ensures ValidRun(SHIPPED, acts) && |acts| == m + 14 && Together(acts, m, m + 14)
    ensures PassedOver(SHIPPED, Zeros(3), acts, 2, m, m + 14)
  {
    hide LeadsTo, Follows, Last, Masks, Outlasts;
    LeadsNowhere();
    Low1();
    Owing();
    FollowOn([], ZERO, LOW_1);
    var lead := [] + Masks(LOW_1);
    FollowOn(lead, Triple(-9, 2, -7), OWING);
    lead := lead + Masks(OWING);
    m := |lead|;
    acts := WaitTogether(lead, Triple(0, 0, -12), 14);
    OwingOutlasts();
    assert Outlasts(At(acts, m), 14);
    SteadyExactly(acts, m, 14);
  }

  /** All three queue up after a run, for n selections. */
  lemma WaitTogether(lead: seq<Mask>, x: Triple, n: nat) returns (acts: seq<Mask>)
    requires LeadsTo(lead, x)
    ensures ValidRun(SHIPPED, acts) && |acts| == |lead| + n && Together(acts, |lead|, |acts|)
    ensures At(acts, |lead|) == x
  {
    hide ScoresAfter, SomeActive;
    var back := seq(n, _ => MaskOf(ALL));
    acts := lead + back;
    PaidIsCharge(x, ALL);
    assert ValidRun(SHIPPED, back);
    FrontAlone(SHIPPED, Zeros(3), lead, back, |lead|);
  }

  /**
   The documented promise, for callers that stay queued together, from whatever
   scores a run has left: trading and standard keep it, bulk does not.
   */
  lemma TogetherUnlessBulk(i: nat)
    requires i < 3
    ensures KeepsTogether(i) <==> i != 2
  {
    hide ValidRun, PassedOver, ScoresAfter;
    if i == 2 {
      var acts, m := FourteenTogether();
      assert Together(acts, m, m + 14) && PassedOver(SHIPPED, Zeros(3), acts, 2, m, m + 14);
    } else {
      PromiseUnlessBulk(i);
    }
  }

  /**
   For bulk the surplus of the other two at the start decides: up to twelve it is
   served within eleven decisions, from 21 on it is not, and in between the gap
   between trading and standard decides, as SteadyExactly says.
   */
  lemma SurplusDecides(acts: seq<Mask>, m: nat)
    requires ValidRun(SHIPPED, acts) && m + 11 <= |acts| && Together(acts, m, m + 11)
    ensures PassedOver(SHIPPED, Zeros(3), acts, 2, m, m + 11) <==> Outlasts(At(acts, m), 11)
    ensures Surplus(At(acts, m)) <= 12 ==> !Outlasts(At(acts, m), 11)
    ensures Surplus(At(acts, m)) >= 21 ==> Outlasts(At(acts, m), 11)
  {
    hide ValidRun, PassedOver, At, Outlasts, Inside;
    SteadyExactly(acts, m, 11);
    AlwaysInside(acts, m);
    if Surplus(At(acts, m)) <= 12 {
      SmallSurplus(At(acts, m));
    }
    if Surplus(At(acts, m)) >= 21 {
      LargeSurplus(At(acts, m));
    }
  }

  /** Bulk's longest wait while all three stay queued is exactly fourteen selections. */
  lemma LongestTogether()
    ensures forall acts: seq<Mask>, m: nat, n: nat ::
              ValidRun(SHIPPED, acts) && Together(acts, m, n) && PassedOver(SHIPPED, Zeros(3), acts, 2, m, n) ==>
                n - m <= 14
    ensures exists acts: seq<Mask>, m: nat, n: nat ::
              && ValidRun(SHIPPED, acts) && Together(acts, m, n) && n - m == 14
              && PassedOver(SHIPPED, Zeros(3), acts, 2, m, n)
  {
    hide ValidRun, PassedOver, ScoresAfter, Inside, Level;
    forall acts: seq<Mask>, m: nat, n: nat |
        ValidRun(SHIPPED, acts) && Together(acts, m, n) && PassedOver(SHIPPED, Zeros(3), acts, 2, m, n)
      ensures n - m <= 14
    {
      AlwaysInside(acts, m);
      AlwaysLevel(acts, m);
      AtMostFourteen(At(acts, m));
      SteadyExactly(acts, m, n - m);
    }
    var acts, m := FourteenTogether();
    assert Together(acts, m, m + 14);
  }
}
