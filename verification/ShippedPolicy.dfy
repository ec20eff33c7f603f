/**
 The caller policy the repository ships, and the fairness promise read for it.
 */
module ShippedPolicy {
  import opened FairAdmission
  import opened FairRuns
  import SW = ShippedWeights

  const TRADING: nat := 0
  const STANDARD: nat := 1
  const BULK: nat := 2

  const POLICY: Policy := Policy(SW.SHIPPED, STANDARD, map[
    "collector" := TRADING, "collector-scanner" := TRADING, "collector-us-trades" := TRADING,
    "execution" := BULK, "execution-lag" := BULK, "execution-whales" := BULK, "execution-x" := BULK,
    "execution-watch-football" := BULK, "execution-reconcile" := BULK, "execution-cockpit" := BULK,
    "execution-doctor" := BULK,
    "research" := STANDARD])

  const ONE_OF_EACH: seq<string> := ["collector", "research", "execution"]

  lemma SmallStays(name: string)
    requires forall i :: 0 <= i < |name| ==> !('A' <= name[i] <= 'Z')
    ensures Lower(name) == name
  {
  }

  lemma IsValid()
    ensures POLICY.Valid()
  {
  }

  lemma SomeStay()
    ensures forall c :: c in {"collector", "collector-scanner", "collector-us-trades", "research"} ==> Lower(c) == c
  {
    hide Lower;
    SmallStays("collector");
    SmallStays("collector-scanner");
    SmallStays("collector-us-trades");
    SmallStays("research");
  }

  lemma BulkStays()
    ensures forall c :: c in {"execution", "execution-lag", "execution-whales", "execution-x"} ==> Lower(c) == c
  {
    hide Lower;
    SmallStays("execution");
    SmallStays("execution-lag");
    SmallStays("execution-whales");
    SmallStays("execution-x");
  }

  lemma MoreBulkStays()
    ensures forall c ::
              c in {"execution-watch-football", "execution-reconcile", "execution-cockpit", "execution-doctor"}
              ==> Lower(c) == c
  {
    hide Lower;
    SmallStays("execution-watch-football");
    SmallStays("execution-reconcile");
    SmallStays("execution-cockpit");
    SmallStays("execution-doctor");
  }

  lemma IsNormalized()
    ensures Normalized(POLICY)
  {
    hide Lower;
    SomeStay();
    BulkStays();
    MoreBulkStays();
  }

  /** The shipped table has a caller in every class, so the promise is about real callers. */
  lemma HasOneOfEach()
    ensures Named(POLICY, ONE_OF_EACH)
  {
    IsNormalized();
    forall i | 0 <= i < 3 ensures POLICY.ClassFor(ONE_OF_EACH[i]) == i {
      LowerExactly(ONE_OF_EACH[i], ONE_OF_EACH[i]);
      assert SameLabel(ONE_OF_EACH[i], ONE_OF_EACH[i]);
      WaitsInClass(POLICY, ONE_OF_EACH[i]);
    }
  }

  /** A new bot that nobody has configured waits with the standard callers. */
  lemma StrangersAreStandard(caller: string)
    requires forall c :: c in POLICY.callers ==> !SameLabel(c, caller)
    ensures POLICY.ClassFor(caller) == STANDARD
  {
    IsNormalized();
    WaitsInClass(POLICY, caller);
  }

  /** With the shipped policy the documented promise is kept for trading and standard callers and not for bulk. */
  lemma ShippedPromise(i: nat)
    requires i < 3
    ensures POLICY.Valid()
    ensures LimiterKeeps(POLICY, i) <==> i != BULK
    ensures LimiterKeepsTogether(POLICY, i) <==> i != BULK
  {
    hide Policy.Valid, Named, LimiterKeeps, LimiterKeepsTogether;
    IsValid();
    HasOneOfEach();
    LimiterPromise(POLICY, ONE_OF_EACH, i);
    LimiterPromiseTogether(POLICY, ONE_OF_EACH, i);
  }
}
