/**
 What an admission costs. The tokens of a bucket are settled by what was spent and
 when, and whether an attempt is admitted by the history of admissions alone.
 */
module TokenLedger {
  import opened Prelude
  import opened TokenBuckets

  /** When the first n attempts last brought the tokens up to date. */
  function LastRefill(b: Bucket, run: seq<Attempt>, n: nat): real
    requires n <= |run|
  {
    if n == 0 then b.updatedAt else run[n - 1].read
  }

  /** A full bucket at s, what has flowed in until t, and what was spent meanwhile. */
  function Balance(b: Bucket, run: seq<Attempt>, n: nat, s: real, t: real): real
    requires n <= |run|
  {
    b.capacity + Refill(b.rate, t - s) - Spent(b, run, n, s, t)
  }

  /** The bucket was made, or refilled by one of the first n attempts, at this instant. */
  ghost predicate IsRefill(b: Bucket, run: seq<Attempt>, n: nat, s: real)
    requires n <= |run|
  {
    s == b.updatedAt || exists k :: 0 <= k < n && s == run[k].read
  }

  lemma {:induction false} RefillsInOrder(b: Bucket, run: seq<Attempt>, n: nat)
    requires Ordered(b, run) && n <= |run|
    ensures b.updatedAt <= LastRefill(b, run, n)
    ensures forall k :: 0 <= k < n ==> run[k].read <= LastRefill(b, run, n)
    ensures n < |run| ==> LastRefill(b, run, n) <= run[n].read
  {
  }

  /** Nothing is spent after the last attempt. */
  lemma {:induction false} SpentByThen(b: Bucket, run: seq<Attempt>, n: nat, s: real, t: real)
    requires Ordered(b, run) && n <= |run| && LastRefill(b, run, n) <= t
    ensures Spent(b, run, n, s, t) == Spent(b, run, n, s, LastRefill(b, run, n))
    ensures LastRefill(b, run, n) < s ==> Spent(b, run, n, s, t) == 0.0
  {
    hide Admitted;
    RefillsInOrder(b, run, n);
    SpentSame(b, run, n, s, LastRefill(b, run, n), t);
  }

  lemma {:induction false} SpentSame(b: Bucket, run: seq<Attempt>, n: nat, s: real, t: real, u: real)
    requires n <= |run| && forall k :: 0 <= k < n ==> run[k].read <= t && run[k].read <= u
    ensures Spent(b, run, n, s, t) == Spent(b, run, n, s, u)
    ensures t < s ==> Spent(b, run, n, s, t) == 0.0
  {
    hide Admitted;
    if n > 0 {
      SpentSame(b, run, n - 1, s, t, u);
    }
  }

  /** One attempt pays exactly its cost when it is admitted, and nothing otherwise. */
  lemma PaysItsCost(b: Bucket, a: Attempt)
    requires b.updatedAt <= a.read
    ensures Try(b, a).tokens == RMin(b.capacity, b.tokens + Refill(b.rate, a.read - b.updatedAt))
                                - if Admits(b, a) then a.cost else 0.0
  {
    hide Pruned;
  }

  /** An attempt is admitted when the level reaches its cost and the window has room. */
  lemma AdmitsMeans(b: Bucket, a: Attempt)
    requires b.updatedAt <= a.read
    ensures Admits(b, a) <==>
              && RMin(b.capacity, b.tokens + Refill(b.rate, a.read - b.updatedAt)) >= a.cost
              && (b.limit.Some? ==> |Pruned(b.admissions, a.now)| < b.limit.value)
  {
    hide Pruned;
  }

  lemma FullAtBirth(b: Bucket, run: seq<Attempt>)
    requires NewBucket(b)
    ensures After(b, run, 0) == b && b.tokens == b.capacity && IsRefill(b, run, 0, b.updatedAt)
    ensures Balance(b, run, 0, b.updatedAt, b.updatedAt) == b.capacity
    ensures forall r: real :: r <= b.updatedAt ==> b.capacity <= Balance(b, run, 0, r, b.updatedAt)
  {
    hide Refill;
    RefillFacts(b.rate, 0.0, 0.0);
    forall r: real | r <= b.updatedAt ensures b.capacity <= Balance(b, run, 0, r, b.updatedAt) {
      RefillFacts(b.rate, b.updatedAt - r, 0.0);
    }
  }

  /**
   The ledger: the tokens after any run are the least, over the instants at which
   the bucket was made or refilled, of a full bucket then plus what has flowed in
   since minus what has been spent since.
   */
  lemma {:induction false} TokensExactly(b: Bucket, run: seq<Attempt>, n: nat) returns (s: real)
    requires NewBucket(b) && Ordered(b, run) && n <= |run|
    ensures IsRefill(b, run, n, s) && s <= LastRefill(b, run, n)
    ensures After(b, run, n).tokens == Balance(b, run, n, s, LastRefill(b, run, n))
    ensures forall r: real :: r <= LastRefill(b, run, n) ==>
              After(b, run, n).tokens <= Balance(b, run, n, r, LastRefill(b, run, n))
    decreases n, 0
  {
    hide After, Spent, Refill, Balance, Level, Ordered, NewBucket, IsRefill;
    if n == 0 {
      s := b.updatedAt;
      FullAtBirth(b, run);
    } else {
      var t := run[n - 1].read;
      s := BeforePaying(b, run, n - 1);
      TokensAfter(b, run, n);
      PaidAt(b, run, n, s);
      forall r: real | r <= t ensures After(b, run, n).tokens <= Balance(b, run, n, r, t) {
        PaidAt(b, run, n, r);
        assert Level(b, run, n - 1, t) <= Balance(b, run, n - 1, r, t);
      }
    }
  }

  /** What the n-th attempt paid. */
  function Paid(b: Bucket, run: seq<Attempt>, n: nat): real
    requires 0 < n <= |run|
  {
    if Admitted(b, run, n - 1) then run[n - 1].cost else 0.0
  }

  lemma TokensAfter(b: Bucket, run: seq<Attempt>, n: nat)
    requires NewBucket(b) && Ordered(b, run) && 0 < n <= |run|
    ensures After(b, run, n).tokens == Level(b, run, n - 1, run[n - 1].read) - Paid(b, run, n)
  {
    hide Try, Admits, Refill;
    RefillsInOrder(b, run, n - 1);
    SpendingRun(b, run, n - 1, b.updatedAt, run[n - 1].read);
    PaysItsCost(After(b, run, n - 1), run[n - 1]);
  }

  lemma PaidAt(b: Bucket, run: seq<Attempt>, n: nat, r: real)
    requires 0 < n <= |run| && r <= run[n - 1].read
    ensures Balance(b, run, n, r, run[n - 1].read)
            == Balance(b, run, n - 1, r, run[n - 1].read) - Paid(b, run, n)
  {
    hide Admitted, Refill;
  }

  /** The level attempt n meets. */
  lemma BeforePaying(b: Bucket, run: seq<Attempt>, n: nat) returns (s: real)
    requires NewBucket(b) && Ordered(b, run) && n < |run|
    ensures IsRefill(b, run, n + 1, s) && s <= run[n].read
    ensures Level(b, run, n, run[n].read) == Balance(b, run, n, s, run[n].read)
    ensures forall r: real :: r <= run[n].read ==>
              Level(b, run, n, run[n].read) <= Balance(b, run, n, r, run[n].read)
    decreases n, 2
  {
    hide Level, Balance, Ordered;
    assert LastRefill(b, run, n) <= run[n].read by { RefillsInOrder(b, run, n); }
    s := LevelExactly(b, run, n, run[n].read);
  }

  /** The same of the level a refill at t would reach. */
  lemma LevelExactly(b: Bucket, run: seq<Attempt>, n: nat, t: real) returns (s: real)
    requires NewBucket(b) && Ordered(b, run) && n <= |run| && LastRefill(b, run, n) <= t
    ensures s <= t && (IsRefill(b, run, n, s) || s == t)
    ensures Level(b, run, n, t) == Balance(b, run, n, s, t)
    ensures forall r: real :: r <= t ==> Level(b, run, n, t) <= Balance(b, run, n, r, t)
    decreases n, 1
  {
    hide After, Spent, Refill, Ordered, IsRefill;
    var u, x := LastRefill(b, run, n), After(b, run, n).tokens;
    s := TokensExactly(b, run, n);
    RefillFacts(b.rate, u - s, t - u);
    SpentByThen(b, run, n, s, t);
    SpendingRun(b, run, n, b.updatedAt, RMax(u, b.updatedAt));
    forall r: real | r <= t ensures Level(b, run, n, t) <= Balance(b, run, n, r, t) {
      SpentByThen(b, run, n, r, t);
      RefillFacts(b.rate, if r <= u then u - r else 0.0, t - u);
      RefillFacts(b.rate, t - r, 0.0);
      assert r <= u ==> x <= Balance(b, run, n, r, u);
    }
    if x + Refill(b.rate, t - u) > b.capacity {
      RefillFacts(b.rate, 0.0, 0.0);
      assert u < t;
      SpentByThen(b, run, n, t, t);
      s := t;
    }
  }

  /** What a refill at t brings the tokens to, before anything is paid. */
  function Level(b: Bucket, run: seq<Attempt>, n: nat, t: real): real
    requires n <= |run|
  {
    RMin(b.capacity, After(b, run, n).tokens + Refill(b.rate, t - LastRefill(b, run, n)))
  }

  // ---------------------------------------------------------------- who is admitted

  /** Since whatever instant one counts, what was spent and this cost are covered by a full bucket and its refill. */
  ghost predicate Affordable(b: Bucket, run: seq<Attempt>, a: Attempt) {
    forall s: real :: s <= a.read ==>
      Spent(b, run, |run|, s, a.read) + a.cost <= b.capacity + Refill(b.rate, a.read - s)
  }

  /** Fewer than the limit were admitted in the second before. */
  predicate HasVacancy(b: Bucket, run: seq<Attempt>, a: Attempt) {
    b.limit.Some? ==> InWindow(History(b, run, |run|), a.now) < b.limit.value
  }

  lemma {:induction false} PrunedCounts(s: seq<real>, now: real)
    requires Sorted(s)
    ensures |Pruned(s, now)| == InWindow(s, now)
  {
    if s != [] {
      if now > s[0] + 1.0 {
        PrunedCounts(s[1..], now);
      } else {
        AllInWindow(s, now);
      }
    }
  }

  lemma {:induction false} AllInWindow(s: seq<real>, now: real)
    requires forall i :: 0 <= i < |s| ==> now <= s[i] + 1.0
    ensures InWindow(s, now) == |s|
  {
    if s != [] {
      AllInWindow(s[1..], now);
    }
  }

  /**
   Admission, exactly: after any run an attempt is admitted if and only if its cost
   is affordable after what has been spent and fewer than the limit were admitted in
   the second before. Nothing else about the past matters.
   */
  lemma AdmittedExactly(b: Bucket, run: seq<Attempt>, a: Attempt)
    requires NewBucket(b) && Ordered(b, run + [a])
    ensures Admits(After(b, run, |run|), a) <==> Affordable(b, run, a) && HasVacancy(b, run, a)
  {
    hide After, Spent, History, Refill, Pruned, InWindow, Admits, Affordable;
    var n, all := |run|, run + [a];
    assert Ordered(b, run) by { assert forall k :: 0 <= k < n ==> all[k] == run[k]; }
    assert all[n] == a && LastRefill(b, all, n) == LastRefill(b, run, n);
    RefillsInOrder(b, all, n);
    SpendingRun(b, run, n, b.updatedAt, RMax(b.updatedAt, a.read));
    var s := LevelExactly(b, run, n, a.read);
    TokensDecide(b, run, a, s);
    AdmitsMeans(After(b, run, n), a);
    if b.limit.Some? {
      RollingInvariant(b, run, n);
      assert LastRead(b, run, n) <= a.now;
      WindowCountExact(b, run, n, a.now);
      PrunedCounts(After(b, run, n).admissions, a.now);
    } else {
      LimitKept(b, run, n);
    }
  }

  /** The tokens suffice exactly when the cost is affordable. */
  lemma TokensDecide(b: Bucket, run: seq<Attempt>, a: Attempt, s: real)
    requires s <= a.read && Level(b, run, |run|, a.read) == Balance(b, run, |run|, s, a.read)
    requires forall r: real :: r <= a.read ==>
               Level(b, run, |run|, a.read) <= Balance(b, run, |run|, r, a.read)
    ensures Level(b, run, |run|, a.read) >= a.cost <==> Affordable(b, run, a)
  {
    hide After, Spent, Refill, Level;
    if Level(b, run, |run|, a.read) >= a.cost {
      forall r: real | r <= a.read
        ensures Spent(b, run, |run|, r, a.read) + a.cost <= b.capacity + Refill(b.rate, a.read - r)
      {
        assert Level(b, run, |run|, a.read) <= Balance(b, run, |run|, r, a.read);
      }
    }
  }

  lemma {:induction false} LimitKept(b: Bucket, run: seq<Attempt>, n: nat)
    requires n <= |run|
    ensures After(b, run, n).limit == b.limit
  {
    hide Admits, Pruned;
    if n > 0 {
      LimitKept(b, run, n - 1);
    }
  }

  /** So it is for an object: its next pass is decided by everything it has admitted. */
  lemma ObjectAdmitsExactly(bucket: TokenBucket, a: Attempt)
    requires bucket.Current() && a.cost > 0.0 && bucket.clock.now <= a.read <= a.now
    ensures Admits(bucket.Abs(), a) <==>
              Affordable(bucket.birth, bucket.log, a) && HasVacancy(bucket.birth, bucket.log, a)
  {
    hide After, Admits, Affordable, HasVacancy;
    OrderedSnoc(bucket.birth, bucket.log, a);
    AdmittedExactly(bucket.birth, bucket.log, a);
  }

  // ---------------------------------------------------------------- no longer than needed

  /** Until the oldest admission of a full window is a second old, the window stays full. */
  lemma StillFull(r: Bucket, a: Attempt)
    requires Full(r) && r.admissions != [] && a.now <= r.admissions[0] + 1.0
    ensures !Admits(r, a)
  {
  }

  /** Until the missing tokens have flowed in, they are missing. */
  lemma StillShort(r: Bucket, a: Attempt)
    requires r.rate > 0.0 && r.updatedAt <= a.read && a.read - r.updatedAt < (a.cost - r.tokens) / r.rate
    ensures !Admits(r, a)
  {
    hide Pruned;
    var gap, lack := a.read - r.updatedAt, (a.cost - r.tokens) / r.rate;
    assert lack * r.rate == a.cost - r.tokens;
    assert gap * r.rate < lack * r.rate;
    AdmitsMeans(r, a);
  }

  /** After a refusal the tokens do not suffice, or the window is full of admissions at most a second old. */
  lemma RefusedBecause(b: Bucket, a: Attempt)
    requires Valid(b) && HasRoom(b) && a.cost > 0.0 && b.updatedAt <= a.read && !Admits(b, a)
    requires forall i :: 0 <= i < |b.admissions| ==> b.admissions[i] <= a.now
    ensures var r := Try(b, a);
      && Valid(r) && r.updatedAt == a.read
      && (r.tokens < a.cost || (Full(r) && r.admissions != [] && a.now <= r.admissions[0] + 1.0))
      && (Full(r) ==> r.admissions != [] && a.now <= r.admissions[0] + 1.0)
  {
    hide Refilled;
    TryKeepsValid(b, a);
    RefilledLimit(b, a.read);
    RefilledAt(b, a.read);
    var d := PrunedSuffix(b.admissions, a.now);
  }

  lemma RefilledAt(b: Bucket, now: real)
    ensures Refilled(b, now).updatedAt == now
  {
  }

  /** The sleep is no longer than needed: until it is over another pass would be refused too. */
  lemma NoSleepTooLong(b: Bucket, first: Attempt, second: Attempt)
    requires Valid(b) && HasRoom(b) && first.cost > 0.0 && second.cost == first.cost
    requires forall i :: 0 <= i < |b.admissions| ==> b.admissions[i] <= first.now
    requires b.updatedAt <= first.read <= first.now && first.read <= second.read <= second.now
    requires !Admits(b, first)
    requires second.read < first.read + Delay(Try(b, first), first)
    requires second.now <= first.now + Delay(Try(b, first), first)
    ensures !Admits(Try(b, first), second)
  {
    hide Try, Admits;
    var r := Try(b, first);
    RefusedBecause(b, first);
    if Full(r) && Delay(r, first) == r.admissions[0] + 1.0 - first.now {
      StillFull(r, second);
    } else {
      StillShort(r, second);
    }
  }
}
