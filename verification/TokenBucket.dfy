/**
 The token bucket with its rolling one-second ceiling: one loop iteration as a
 function of the two clock readings it takes, what every run of iterations keeps,
 and the object that performs them.
 */
module TokenBuckets {
  import opened Prelude

  datatype Bucket = Bucket(
    rate: real,
    capacity: real,
    limit: Option<int>,
    tokens: real,
    updatedAt: real,
    admissions: seq<real>)

  /** One pass of the acquisition loop: the refill's clock reading, the window's, and the cost. */
  datatype Attempt = Attempt(read: real, now: real, cost: real)

  ghost predicate Sorted(s: seq<real>) {
    forall i, j :: 0 <= i <= j < |s| ==> s[i] <= s[j]
  }

  ghost predicate Configured(b: Bucket) { b.rate > 0.0 && b.capacity > 0.0 }

  /** The rolling limit, when there is one, leaves room for somebody. */
  predicate HasRoom(b: Bucket) { b.limit.Some? ==> b.limit.value >= 1 }

  /** How many admissions the deque ever holds. */
  function Ceiling(b: Bucket): nat { if b.limit.Some? then Max(0, b.limit.value) else 0 }

  ghost predicate Valid(b: Bucket) {
    && Configured(b)
    && 0.0 <= b.tokens <= b.capacity
    && Sorted(b.admissions)
    && |b.admissions| <= Ceiling(b)
  }

  function Refilled(b: Bucket, now: real): Bucket {
    b.(tokens := RMin(b.capacity, b.tokens + RMax(0.0, now - b.updatedAt) * b.rate), updatedAt := now)
  }

  /** The admissions left after the front ones, more than a second old, are dropped. */
  function Pruned(admissions: seq<real>, now: real): seq<real> {
    if admissions != [] && now > admissions[0] + 1.0 then Pruned(admissions[1..], now) else admissions
  }

  function Ready(b: Bucket, a: Attempt): Bucket {
    var r := Refilled(b, a.read);
    r.(admissions := Pruned(r.admissions, a.now))
  }

  predicate Full(b: Bucket) { b.limit.Some? && |b.admissions| >= b.limit.value }

  predicate Admits(b: Bucket, a: Attempt) {
    Ready(b, a).tokens >= a.cost && !Full(Ready(b, a))
  }

  function Try(b: Bucket, a: Attempt): Bucket {
    var r := Ready(b, a);
    if Admits(b, a) then
      r.(tokens := r.tokens - a.cost,
         admissions := if r.limit.Some? then r.admissions + [a.now] else r.admissions)
    else r
  }

  /** How long a refused attempt sleeps (strictly more than this). */
  function Delay(b: Bucket, a: Attempt): real
    requires b.rate > 0.0 && (Full(b) ==> b.admissions != [])
  {
    var tokens := RMax(0.0, (a.cost - b.tokens) / b.rate);
    if Full(b) then RMax(tokens, b.admissions[0] + 1.0 - a.now) else tokens
  }

  // ---------------------------------------------------------------- one attempt

  lemma {:induction false} PrunedSuffix(s: seq<real>, now: real) returns (d: nat)
    requires Sorted(s)
    ensures d <= |s| && Pruned(s, now) == s[d..]
    ensures forall i :: 0 <= i < d ==> s[i] + 1.0 < now
    ensures d < |s| ==> now <= s[d] + 1.0
  {
    if s != [] && now > s[0] + 1.0 {
      var d' := PrunedSuffix(s[1..], now);
      d := d' + 1;
      assert s[1..][d'..] == s[d..];
    } else {
      d := 0;
    }
  }

  lemma TryKeepsValid(b: Bucket, a: Attempt)
    requires Valid(b) && a.cost > 0.0 && (forall i :: 0 <= i < |b.admissions| ==> b.admissions[i] <= a.now)
    ensures Valid(Try(b, a))
    ensures Try(b, a).rate == b.rate && Try(b, a).capacity == b.capacity && Try(b, a).limit == b.limit
    ensures forall i :: 0 <= i < |Try(b, a).admissions| ==> Try(b, a).admissions[i] <= a.now
  {
    var d := PrunedSuffix(b.admissions, a.now);
    assert RMax(0.0, a.read - b.updatedAt) * b.rate >= 0.0;
  }

  lemma ScaleMono(x: real, y: real, f: real)
    requires f > 0.0 && x <= y
    ensures x * f <= y * f
  {
  }

  /**
   Progress: with the lock held nothing else moves, so one sleep past the delay
   clears both the token deficit and the rolling window.
   */
  lemma OneSleepSuffices(b: Bucket, first: Attempt, second: Attempt)
    requires Valid(b) && HasRoom(b) && 0.0 < first.cost <= b.capacity && second.cost == first.cost
    requires forall i :: 0 <= i < |b.admissions| ==> b.admissions[i] <= first.now
    requires first.read <= first.now && second.read <= second.now
    requires !Admits(b, first)
    requires second.read > first.now + Delay(Try(b, first), first)
    ensures Admits(Try(b, first), second)
  {
    var r := Try(b, first);
    TryKeepsValid(b, first);
    TokensReturn(r, first.cost, second.read);
    RoomReturns(r, second.now);
  }

  /** Once the deficit divided by the rate has passed, the tokens suffice. */
  lemma TokensReturn(r: Bucket, cost: real, read: real)
    requires Valid(r) && cost <= r.capacity
    requires read >= r.updatedAt && read - r.updatedAt >= (cost - r.tokens) / r.rate
    ensures Refilled(r, read).tokens >= cost
  {
    var gap, lack := read - r.updatedAt, (cost - r.tokens) / r.rate;
    ScaleMono(lack, gap, r.rate);
    assert lack * r.rate == cost - r.tokens;
  }

  /** Once the oldest admission is more than a second old, a full window has room. */
  lemma RoomReturns(r: Bucket, now: real)
    requires Valid(r) && (Full(r) ==> r.admissions != [] && now > r.admissions[0] + 1.0)
    ensures r.limit.Some? ==> |Pruned(r.admissions, now)| < r.limit.value
  {
    var d := PrunedSuffix(r.admissions, now);
  }

  /** The sleep asked for never exceeds the larger of the full price and one second. */
  lemma DelayBound(b: Bucket, a: Attempt)
    requires Valid(b) && HasRoom(b) && a.cost > 0.0
    requires forall i :: 0 <= i < |b.admissions| ==> b.admissions[i] <= a.now
    ensures 0.0 <= Delay(b, a) <= RMax(a.cost / b.rate, 1.0)
  {
    assert (a.cost - b.tokens) / b.rate <= a.cost / b.rate by {
      assert a.cost / b.rate - (a.cost - b.tokens) / b.rate == b.tokens / b.rate;
    }
  }

  // ---------------------------------------------------------------- runs of attempts

  /** The clock never runs backwards, across both readings of every attempt. */
  ghost predicate Ordered(b: Bucket, run: seq<Attempt>) {
    && (forall n :: 0 <= n < |run| ==> b.updatedAt <= run[n].read <= run[n].now && run[n].cost > 0.0)
    && (forall m, n :: 0 <= m < n < |run| ==> run[m].now <= run[n].read)
  }

  function After(b: Bucket, run: seq<Attempt>, n: nat): Bucket
    requires n <= |run|
  {
    if n == 0 then b else Try(After(b, run, n - 1), run[n - 1])
  }

  predicate Admitted(b: Bucket, run: seq<Attempt>, n: nat)
    requires n < |run|
  {
    Admits(After(b, run, n), run[n])
  }

  /** Every admission of the first n attempts, oldest first: the history the deque stands for. */
  function History(b: Bucket, run: seq<Attempt>, n: nat): seq<real>
    requires n <= |run|
  {
    if n == 0 then []
    else if Admitted(b, run, n - 1) then History(b, run, n - 1) + [run[n - 1].now]
    else History(b, run, n - 1)
  }

  /** A new bucket is full and has admitted nobody. */
  ghost predicate NewBucket(b: Bucket) {
    Configured(b) && b.tokens == b.capacity && b.admissions == []
  }

  /** Everything in h happened by `now`; any L+1 admissions in a row span more than a second. */
  ghost predicate Spaced(h: seq<real>, L: nat, now: real) {
    && Sorted(h)
    && (forall i :: 0 <= i < |h| ==> h[i] <= now)
    && (forall i :: 0 <= i && i + L < |h| ==> h[i] + 1.0 < h[i + L])
  }

  /** The deque is the history without a front part that is more than a second old. */
  ghost predicate Tail(admissions: seq<real>, h: seq<real>, now: real) {
    && |admissions| <= |h| && admissions == h[|h| - |admissions|..]
    && (forall i :: 0 <= i < |h| - |admissions| ==> h[i] + 1.0 < now)
  }

  lemma PruneKeepsTail(admissions: seq<real>, h: seq<real>, before: real, now: real)
    requires Sorted(h) && Tail(admissions, h, before) && before <= now
    ensures Tail(Pruned(admissions, now), h, now)
  {
    var k := |h| - |admissions|;
    assert Sorted(admissions);
    var d := PrunedSuffix(admissions, now);
    assert admissions[d..] == h[k + d..];
    forall i | 0 <= i < k + d ensures h[i] + 1.0 < now {
      if i >= k { assert h[i] == admissions[i - k]; }
    }
  }

  lemma AppendKeepsSpacing(admissions: seq<real>, h: seq<real>, L: nat, before: real, now: real)
    requires Spaced(h, L, before) && before <= now && Tail(admissions, h, now)
    requires |admissions| < L
    ensures Spaced(h + [now], L, now) && Tail(admissions + [now], h + [now], now)
  {
    var g := h + [now];
    forall i | 0 <= i && i + L < |g| ensures g[i] + 1.0 < g[i + L] {
      if i + L == |h| {
        assert i < |h| - |admissions|;
      }
    }
  }

  ghost predicate Rolling(b: Bucket, h: seq<real>, now: real) {
    && Valid(b) && b.limit.Some?
    && Spaced(h, Ceiling(b), now) && Tail(b.admissions, h, now)
  }

  lemma RollingStep(b: Bucket, h: seq<real>, before: real, a: Attempt)
    requires Rolling(b, h, before) && before <= a.now && a.cost > 0.0
    ensures Try(b, a).limit == b.limit
    ensures Rolling(Try(b, a), if Admits(b, a) then h + [a.now] else h, a.now)
  {
    hide Refilled;
    assert forall i :: 0 <= i < |b.admissions| ==> b.admissions[i] == h[|h| - |b.admissions| + i];
    TryKeepsValid(b, a);
    PruneKeepsTail(b.admissions, h, before, a.now);
    RefilledLimit(b, a.read);
    if Admits(b, a) {
      AppendKeepsSpacing(Pruned(b.admissions, a.now), h, Ceiling(b), before, a.now);
    }
  }

  lemma RefilledLimit(b: Bucket, now: real)
    ensures Refilled(b, now).limit == b.limit && Refilled(b, now).admissions == b.admissions
  {
  }

  /** When the clock was last read. */
  function LastRead(b: Bucket, run: seq<Attempt>, n: nat): real
    requires n <= |run|
  {
    if n == 0 then b.updatedAt else run[n - 1].now
  }

  /** The invariant of every run of a bucket with a rolling limit. */
  lemma {:induction false} RollingInvariant(b: Bucket, run: seq<Attempt>, n: nat)
    requires NewBucket(b) && b.limit.Some? && Ordered(b, run) && n <= |run|
    ensures After(b, run, n).limit == b.limit
    ensures Rolling(After(b, run, n), History(b, run, n), LastRead(b, run, n))
  {
    hide Rolling, Try, Admits;
    if n == 0 {
      assert Rolling(b, [], b.updatedAt) by { RollingStart(b); }
    } else {
      RollingInvariant(b, run, n - 1);
      RollingStep(After(b, run, n - 1), History(b, run, n - 1), LastRead(b, run, n - 1), run[n - 1]);
    }
  }

  lemma RollingStart(b: Bucket)
    requires NewBucket(b) && b.limit.Some?
    ensures Rolling(b, [], b.updatedAt)
  {
  }

  /** The admissions in the closed one-second window that starts at s. */
  ghost function Window(h: seq<real>, s: real): set<int> {
    set i | 0 <= i < |h| && s <= h[i] <= s + 1.0
  }

  ghost function Span(lo: int, n: nat): (r: set<int>)
    ensures |r| == n
    ensures forall i :: i in r <==> lo <= i < lo + n
  {
    if n == 0 then {} else Span(lo, n - 1) + {lo + n - 1}
  }

  lemma SubsetSize<T>(a: set<T>, b: set<T>)
    requires a <= b
    ensures |a| <= |b|
  {
    assert b == a + (b - a);
  }

  lemma LeastOf(h: seq<real>, s: real, i: int) returns (first: int)
    requires i in Window(h, s)
    ensures first in Window(h, s) && forall j :: j in Window(h, s) ==> first <= j
    decreases i
  {
    if j :| j in Window(h, s) && j < i {
      first := LeastOf(h, s, j);
    } else {
      first := i;
    }
  }

  /** Spacing alone bounds every closed window. */
  lemma SpacedWindow(h: seq<real>, L: nat, now: real, s: real)
    requires Spaced(h, L, now)
    ensures |Window(h, s)| <= L
  {
    var win := Window(h, s);
    if i :| i in win {
      var first := LeastOf(h, s, i);
      assert first + L < |h| ==> h[first] + 1.0 < h[first + L];
      assert forall k :: first + L <= k < |h| ==> h[first + L] <= h[k];
      assert forall k :: k in win ==> k in Span(first, L);
      SubsetSize(win, Span(first, L));
    }
  }

  /**
   Rolling ceiling: in every run, every closed one-second window holds at most
   L admissions, wherever it starts; none when L is below one.
   */
  lemma RollingCeiling(b: Bucket, run: seq<Attempt>, n: nat, s: real)
    requires NewBucket(b) && b.limit.Some? && Ordered(b, run) && n <= |run|
    ensures |Window(History(b, run, n), s)| <= Max(0, b.limit.value)
  {
    hide After, History, Ordered, Window;
    RollingInvariant(b, run, n);
    SpacedWindow(History(b, run, n), Ceiling(b), LastRead(b, run, n), s);
  }

  // ---------------------------------------------------------------- monitoring

  /** How many of the admissions fall inside the second before `now`. */
  function InWindow(s: seq<real>, now: real): nat {
    if s == [] then 0 else (if now <= s[0] + 1.0 then 1 else 0) + InWindow(s[1..], now)
  }

  lemma {:induction false} DropOldFront(h: seq<real>, d: nat, now: real)
    requires d <= |h| && forall i :: 0 <= i < d ==> h[i] + 1.0 < now
    ensures InWindow(h[d..], now) == InWindow(h, now)
  {
    if d == 0 {
      assert h[0..] == h;
    } else {
      DropOldFront(h[1..], d - 1, now);
      assert h[1..][d - 1..] == h[d..];
    }
  }

  /** The pruned deque reports the same count as the complete admission history. */
  lemma WindowCountExact(b: Bucket, run: seq<Attempt>, n: nat, now: real)
    requires NewBucket(b) && b.limit.Some? && Ordered(b, run) && n <= |run|
    requires now >= LastRead(b, run, n)
    ensures InWindow(After(b, run, n).admissions, now) == InWindow(History(b, run, n), now)
  {
    hide After, History, Ordered, InWindow;
    RollingInvariant(b, run, n);
    var h, kept := History(b, run, n), After(b, run, n).admissions;
    DropOldFront(h, |h| - |kept|, now);
  }

  // ---------------------------------------------------------------- token conservation

  /** Tokens spent by the attempts, among the first n, whose refill was read in [s, t]. */
  function Spent(b: Bucket, run: seq<Attempt>, n: nat, s: real, t: real): real
    requires n <= |run|
  {
    if n == 0 then 0.0
    else Spent(b, run, n - 1, s, t)
         + if Admitted(b, run, n - 1) && s <= run[n - 1].read <= t then run[n - 1].cost else 0.0
  }

  /** The potential argument, by where the last refill stands relative to the interval. */
  ghost predicate SpendingOk(b: Bucket, spent: real, s: real, t: real) {
    && 0.0 <= b.tokens <= b.capacity && b.rate > 0.0
    && (b.updatedAt < s ==> spent == 0.0)
    && (s <= b.updatedAt <= t ==> spent + b.tokens <= b.capacity + Refill(b.rate, b.updatedAt - s))
    && (t < b.updatedAt ==> spent <= b.capacity + Refill(b.rate, t - s))
  }

  /** What a refill at rate `rate` adds over `d` seconds. */
  function Refill(rate: real, d: real): real { rate * d }

  lemma RefillFacts(rate: real, d: real, e: real)
    requires rate > 0.0 && 0.0 <= d && 0.0 <= e
    ensures Refill(rate, d + e) == Refill(rate, d) + Refill(rate, e)
    ensures 0.0 <= Refill(rate, d) && 0.0 <= Refill(rate, e)
  {
  }

  /** What one attempt does to the tokens, in terms of the refill since the last one. */
  lemma TokenMove(b: Bucket, a: Attempt)
    requires 0.0 <= b.tokens <= b.capacity && b.rate > 0.0 && b.updatedAt <= a.read && a.cost > 0.0
    ensures Try(b, a).rate == b.rate && Try(b, a).capacity == b.capacity && Try(b, a).updatedAt == a.read
    ensures 0.0 <= Try(b, a).tokens <= b.capacity
    ensures Try(b, a).tokens + (if Admits(b, a) then a.cost else 0.0)
            <= RMin(b.capacity, b.tokens + Refill(b.rate, a.read - b.updatedAt))
  {
    hide Pruned;
    assert 0.0 <= (a.read - b.updatedAt) * b.rate;
  }

  lemma SpendingStep(b: Bucket, a: Attempt, spent: real, s: real, t: real)
    requires s <= t && b.updatedAt <= a.read && a.cost > 0.0
    requires SpendingOk(b, spent, s, t)
    ensures SpendingOk(Try(b, a), spent + if Admits(b, a) && s <= a.read <= t then a.cost else 0.0, s, t)
    ensures Try(b, a).rate == b.rate && Try(b, a).capacity == b.capacity && Try(b, a).updatedAt == a.read
  {
    hide Try, Admits, Refill;
    TokenMove(b, a);
    var u := b.updatedAt;
    if s <= u <= a.read {
      RefillFacts(b.rate, u - s, a.read - u);
    }
    if s <= a.read {
      RefillFacts(b.rate, a.read - s, 0.0);
    }
    RefillFacts(b.rate, t - s, 0.0);
    if s <= u <= t {
      RefillFacts(b.rate, u - s, t - u);
    }
  }

  lemma {:induction false} SpendingRun(b: Bucket, run: seq<Attempt>, n: nat, s: real, t: real)
    requires NewBucket(b) && Ordered(b, run) && n <= |run| && s <= t
    ensures SpendingOk(After(b, run, n), Spent(b, run, n, s, t), s, t)
    ensures After(b, run, n).rate == b.rate && After(b, run, n).capacity == b.capacity
    ensures After(b, run, n).updatedAt == if n == 0 then b.updatedAt else run[n - 1].read
  {
    hide Try, Admits;
    if n == 0 {
      SpendingStart(b, s, t);
    } else {
      SpendingRun(b, run, n - 1, s, t);
      assert n > 1 ==> run[n - 2].read <= run[n - 2].now <= run[n - 1].read;
      SpendingStep(After(b, run, n - 1), run[n - 1], Spent(b, run, n - 1, s, t), s, t);
    }
  }

  lemma SpendingStart(b: Bucket, s: real, t: real)
    requires NewBucket(b) && s <= t
    ensures SpendingOk(b, 0.0, s, t)
  {
    RefillFacts(b.rate, t - s, if s <= b.updatedAt then b.updatedAt - s else 0.0);
  }

  /**
   Token conservation: over any interval [s, t] of refill instants a run spends
   at most the capacity plus what the interval refills.
   */
  lemma TokensConserved(b: Bucket, run: seq<Attempt>, n: nat, s: real, t: real)
    requires NewBucket(b) && Ordered(b, run) && n <= |run| && s <= t
    ensures Spent(b, run, n, s, t) <= b.capacity + Refill(b.rate, t - s)
    ensures 0.0 <= After(b, run, n).tokens <= b.capacity
  {
    hide After, Spent, Ordered, Refill;
    SpendingRun(b, run, n, s, t);
    var u := After(b, run, n).updatedAt;
    RefillFacts(b.rate, t - s, 0.0);
    if s <= u <= t {
      RefillFacts(b.rate, u - s, t - u);
    }
  }

  // ---------------------------------------------------------------- the object

  /**
   The monotonic clock and the sleeper: readings never decrease, and a sleep
   ends strictly after the instant it was asked to pass. `sleeps` and `asked`
   record the sleeps and the total time asked for.
   */
  class Clock {
    var now: real
    var sleeps: nat
    var asked: real

    constructor ()
      ensures sleeps == 0 && asked == 0.0
    {
      now, sleeps, asked := 0.0, 0, 0.0;
    }

    method Read() returns (t: real)
      modifies this`now
      ensures t == now >= old(now)
    {
      t := *;
      if t < now {
        t := now;
      }
      now := t;
    }

    /** Sleep strictly past `delay` seconds after the reading `from`. */
    method SleepPast(from: real, delay: real)
      requires from <= now && delay >= 0.0
      modifies this
      ensures now > from + delay && now >= old(now)
      ensures sleeps == old(sleeps) + 1 && asked == old(asked) + delay
    {
      var overshoot: real := *;
      if overshoot <= 0.0 {
        overshoot := 1.0;
      }
      now := RMax(now, from + delay + overshoot);
      sleeps := sleeps + 1;
      asked := asked + delay;
    }
  }

  datatype BucketError = NotPositive | AboveCapacity | NoRoom

  /** Attempts made after others carry on from where those left the bucket. */
  lemma {:induction false} AfterMore(b: Bucket, run: seq<Attempt>, more: seq<Attempt>, n: nat)
    requires n <= |run|
    ensures After(b, run + more, n) == After(b, run, n)
    ensures History(b, run + more, n) == History(b, run, n)
  {
    hide Try, Admits;
    if n > 0 {
      AfterMore(b, run, more, n - 1);
      assert (run + more)[n - 1] == run[n - 1];
    }
  }

  /** One more attempt, by the state it meets. */
  lemma AfterSnoc(b: Bucket, run: seq<Attempt>, a: Attempt)
    ensures After(b, run + [a], |run| + 1) == Try(After(b, run, |run|), a)
    ensures Admitted(b, run + [a], |run|) == Admits(After(b, run, |run|), a)
  {
    AfterMore(b, run, [a], |run|);
  }

  lemma OrderedSnoc(b: Bucket, run: seq<Attempt>, a: Attempt)
    requires Ordered(b, run) && a.cost > 0.0 && b.updatedAt <= a.read <= a.now
    requires forall n :: 0 <= n < |run| ==> run[n].now <= a.read
    ensures Ordered(b, run + [a])
  {
  }

  class TokenBucket {
    const refillRate: real
    const capacity: real
    const rollingLimit: Option<int>
    const clock: Clock
    var tokens: real
    var updatedAt: real
    var admissions: seq<real>
    // The bucket as it was made, and every attempt since.
    ghost var birth: Bucket
    ghost var log: seq<Attempt>

    ghost function Abs(): Bucket
      reads this
    {
      Bucket(refillRate, capacity, rollingLimit, tokens, updatedAt, admissions)
    }

    /** The fields are what the logged attempts make of a new bucket, and lie in the clock's past. */
    ghost predicate Logged()
      reads this, clock
    {
      && NewBucket(birth) && birth.limit == rollingLimit && Ordered(birth, log)
      && Abs() == After(birth, log, |log|)
      && birth.updatedAt <= clock.now && forall n :: 0 <= n < |log| ==> log[n].now <= clock.now
    }

    /** Everything the bucket has stamped lies in the clock's past. */
    ghost predicate Current()
      reads this, clock
    {
      && Logged() && Valid(Abs()) && updatedAt <= clock.now
      && forall i :: 0 <= i < |admissions| ==> admissions[i] <= clock.now
    }

    constructor (refillRate: real, capacity: real, rollingLimit: Option<int>, clock: Clock)
      requires refillRate > 0.0 && capacity > 0.0
      modifies clock
      ensures this.clock == clock && Current() && NewBucket(Abs()) && log == [] && birth == Abs()
      ensures birth.rate == refillRate && birth.capacity == capacity && birth.limit == rollingLimit
    {
      this.refillRate, this.capacity, this.rollingLimit, this.clock := refillRate, capacity, rollingLimit, clock;
      tokens, admissions := capacity, [];
      var t := clock.Read();
      updatedAt := t;
      birth, log := Bucket(refillRate, capacity, rollingLimit, capacity, t, []), [];
    }

    method Refill() returns (read: real)
      requires Current()
      modifies this`tokens, this`updatedAt, clock`now
      ensures old(clock.now) <= read == clock.now
      ensures Abs() == Refilled(old(Abs()), read)
    {
      read := clock.Read();
      var elapsed := RMax(0.0, read - updatedAt);
      tokens := RMin(capacity, tokens + elapsed * refillRate);
      updatedAt := read;
    }

    /** Drop the admissions at the front that are more than a second old. */
    method PruneWindow(now: real)
      modifies this`admissions
      ensures admissions == Pruned(old(admissions), now)
    {
      while admissions != [] && now > admissions[0] + 1.0
        invariant Pruned(admissions, now) == Pruned(old(admissions), now)
        decreases |admissions|
      {
        admissions := admissions[1..];
      }
    }

    /** One pass of the loop: refill, prune, and take the tokens if both limits allow it. */
    method TryOnce(cost: real) returns (admitted: bool, a: Attempt)
      requires Current() && 0.0 < cost <= capacity
      modifies this, clock`now
      ensures a.cost == cost && old(clock.now) <= a.read <= a.now == clock.now
      ensures admitted == Admits(old(Abs()), a)
      ensures Abs() == Try(old(Abs()), a)
      ensures Current() && birth == old(birth) && log == old(log) + [a]
    {
      hide After, Ordered;
      ghost var b := Abs();
      var read := Refill();
      var now := clock.Read();
      PruneWindow(now);
      a := Attempt(read, now, cost);
      assert Abs() == Ready(b, a);
      TryKeepsValid(b, a);
      var windowFull := rollingLimit.Some? && |admissions| >= rollingLimit.value;
      admitted := tokens >= cost && !windowFull;
      if admitted {
        tokens := tokens - cost;
        if rollingLimit.Some? {
          admissions := admissions + [now];
        }
      }
      assert Abs() == Try(b, a);
      AfterSnoc(birth, log, a);
      OrderedSnoc(birth, log, a);
      log := log + [a];
    }

    /** Long enough for the missing tokens, and for the oldest admission of a full window to leave it. */
    method SleepLength(a: Attempt) returns (delay: real)
      requires refillRate > 0.0 && (Full(Abs()) ==> admissions != [])
      ensures delay == Delay(Abs(), a)
    {
      delay := RMax(0.0, (a.cost - tokens) / refillRate);
      if rollingLimit.Some? && |admissions| >= rollingLimit.value {
        delay := RMax(delay, admissions[0] + 1.0 - a.now);
      }
    }

    /**
     Wait for tokens and for room in the window. The price must be positive and
     at most the capacity; an accepted request sleeps at most once, asks for at
     most max(cost/rate, 1) seconds, and is admitted by the last of its attempts.
     A rolling limit below one fails every such request at its first attempt.
     */
    method Acquire(cost: real) returns (r: Result<bool, BucketError>, ghost run: seq<Attempt>)
      requires Current()
      modifies this, clock
      ensures r == Err(NotPositive) <==> cost <= 0.0
      ensures r == Err(AboveCapacity) <==> 0.0 < cost && capacity < cost
      ensures r == Err(NoRoom) <==> 0.0 < cost <= capacity && !HasRoom(old(Abs()))
      ensures r.Err? ==> clock.sleeps == old(clock.sleeps) && |run| == if r.error == NoRoom then 1 else 0
      ensures r == Err(NoRoom) ==> !Admitted(old(Abs()), run, 0)
      ensures Current() && birth == old(birth) && log == old(log) + run
      ensures r.Ok? ==> 1 <= |run| <= 2 && clock.sleeps == old(clock.sleeps) + |run| - 1
      ensures r.Ok? ==> clock.asked <= old(clock.asked) + RMax(cost / refillRate, 1.0)
      ensures Ordered(old(Abs()), run) && forall n :: 0 <= n < |run| ==> run[n].cost == cost
      ensures Abs() == After(old(Abs()), run, |run|)
      ensures r.Ok? ==> forall n :: 0 <= n < |run| ==> Admitted(old(Abs()), run, n) == (n == |run| - 1)
    {
      hide Try, Admits, Valid, After, Ordered, NewBucket, Delay;
      run := [];
      EmptyRun(Abs());
      if cost <= 0.0 {
        return Err(NotPositive), run;
      }
      if cost > capacity {
        return Err(AboveCapacity), run;
      }
      ghost var start, quiet := Abs(), clock.asked;
      SomeWait(start, cost);
      ghost var wait := RMax(cost / refillRate, 1.0);
      while true
        invariant Current() && log == old(log) + run && birth == old(birth)
        invariant |run| <= 1 && clock.sleeps == old(clock.sleeps) + |run|
        invariant run == [] ==> Abs() == start && clock.asked == quiet
        invariant run != [] ==> HasRoom(start)
        invariant run != [] ==> Waited(start, run[0], cost, Abs(), clock.now) && clock.asked <= quiet + wait
        decreases 1 - |run|
      {
        ghost var b := Abs();
        var admitted, a := TryOnce(cost);
        SameRoom(b, a);
        if run != [] {
          OneSleepSuffices(start, run[0], a);
        }
        if admitted {
          AppendAttempt(start, run, a);
          run := run + [a];
          return Ok(true), run;
        }
        if rollingLimit.Some? && |admissions| >= rollingLimit.value && admissions == [] {
          RefusedAttempt(start, a);
          run := [a];
          return Err(NoRoom), run;
        }
        var delay := SleepLength(a);
        DelayBound(Abs(), a);
        clock.SleepPast(a.now, delay);
        run := [a];
      }
    }

    /**
     How many of all admissions ever made fall inside the trailing second;
     nothing without a rolling limit.
     */
    method AdmissionsInWindow() returns (count: Option<nat>)
      requires Current()
      modifies clock`now
      ensures count == if rollingLimit.None? then None else Some(InWindow(History(birth, log, |log|), clock.now))
      ensures Current()
    {
      hide After, History, Ordered;
      if rollingLimit.None? {
        return None;
      }
      var now := clock.Read();
      LastReadPast(birth, log, now);
      WindowCountExact(birth, log, |log|, now);
      var n := 0;
      for i := 0 to |admissions|
        invariant n + InWindow(admissions[i..], now) == InWindow(admissions, now)
      {
        assert admissions[i..][1..] == admissions[i + 1..];
        if now <= admissions[i] + 1.0 {
          n := n + 1;
        }
      }
      return Some(n);
    }

    /** The tokens a refill at this instant would leave, without changing the bucket. */
    method Available() returns (t: real)
      requires Current()
      modifies clock`now
      ensures t == Refilled(Abs(), clock.now).tokens && 0.0 <= t <= capacity
      ensures Current()
    {
      hide After, Ordered, NewBucket;
      var now := clock.Read();
      var elapsed := RMax(0.0, now - updatedAt);
      ScaleMono(0.0, elapsed, refillRate);
      t := RMin(capacity, tokens + elapsed * refillRate);
    }
  }

  /** The first attempt was refused and the sleep it asked for has passed. */
  ghost predicate Waited(start: Bucket, first: Attempt, cost: real, b: Bucket, now: real) {
    && first.cost == cost && !Admits(start, first) && b == Try(start, first)
    && start.updatedAt <= first.read <= first.now < now
    && (forall i :: 0 <= i < |start.admissions| ==> start.admissions[i] <= first.now)
    && b.rate > 0.0 && (Full(b) ==> b.admissions != []) && now > first.now + Delay(b, first)
  }

  lemma LastReadPast(b: Bucket, run: seq<Attempt>, now: real)
    requires b.updatedAt <= now && forall n :: 0 <= n < |run| ==> run[n].now <= now
    ensures LastRead(b, run, |run|) <= now
  {
  }

  /**
   Both limits hold of everything an object has ever admitted: at most L
   admissions in any closed second, and at most the capacity plus the refill
   spent over any interval.
   */
  lemma ObjectKeepsBothLimits(bucket: TokenBucket, s: real, t: real)
    requires bucket.Current() && s <= t
    ensures bucket.rollingLimit.Some? ==>
              |Window(History(bucket.birth, bucket.log, |bucket.log|), s)| <= Max(0, bucket.rollingLimit.value)
    ensures Spent(bucket.birth, bucket.log, |bucket.log|, s, t)
            <= bucket.birth.capacity + Refill(bucket.birth.rate, t - s)
  {
    hide History, Spent, Window, Refill, After, Ordered;
    var n := |bucket.log|;
    if bucket.rollingLimit.Some? {
      RollingCeiling(bucket.birth, bucket.log, n, s);
    }
    TokensConserved(bucket.birth, bucket.log, n, s, t);
  }

  /** A bucket needs a positive rate and a positive capacity. */
  method MakeBucket(refillRate: real, capacity: real, rollingLimit: Option<int>, clock: Clock)
    returns (r: Result<TokenBucket, BucketError>)
    modifies clock
    ensures r.Err? <==> refillRate <= 0.0 || capacity <= 0.0
    ensures r.Ok? ==> fresh(r.value) && r.value.clock == clock && r.value.Current() && r.value.log == []
  {
    if refillRate <= 0.0 || capacity <= 0.0 {
      return Err(NotPositive);
    }
    var bucket := new TokenBucket(refillRate, capacity, rollingLimit, clock);
    return Ok(bucket);
  }

  /** An attempt neither makes nor loses room, and without room it admits nobody. */
  lemma SameRoom(b: Bucket, a: Attempt)
    requires Valid(b) && Valid(Try(b, a))
    ensures Try(b, a).limit == b.limit && (Admits(b, a) ==> HasRoom(b))
    ensures Try(b, a).rate > 0.0 && (!HasRoom(b) ==> Full(Try(b, a)) && Try(b, a).admissions == [])
  {
  }

  lemma RefusedAttempt(b: Bucket, a: Attempt)
    requires !Admits(b, a) && b.updatedAt <= a.read <= a.now && a.cost > 0.0
    ensures Ordered(b, [a]) && After(b, [a], 1) == Try(b, a) && !Admitted(b, [a], 0)
  {
    assert After(b, [a], 0) == b;
  }

  lemma SomeWait(b: Bucket, cost: real)
    requires Valid(b) && cost > 0.0
    ensures b.rate > 0.0 && RMax(cost / b.rate, 1.0) >= 1.0
  {
  }

  lemma EmptyRun(b: Bucket)
    ensures After(b, [], 0) == b && Ordered(b, [])
  {
  }

  /** After an optional refused first attempt, the second attempt completes the run. */
  lemma AppendAttempt(b: Bucket, run: seq<Attempt>, a: Attempt)
    requires |run| <= 1 && b.updatedAt <= a.read <= a.now && a.cost > 0.0
    requires run != [] ==> b.updatedAt <= run[0].read <= run[0].now <= a.read && run[0].cost > 0.0
    requires run != [] ==> !Admits(b, run[0])
    requires Admits(if run == [] then b else Try(b, run[0]), a)
    ensures Ordered(b, run + [a])
    ensures After(b, run + [a], |run| + 1) == Try(if run == [] then b else Try(b, run[0]), a)
    ensures forall n :: 0 <= n <= |run| ==> Admitted(b, run + [a], n) == (n == |run|)
  {
    hide Try, Admits;
    var all := run + [a];
    assert After(b, all, 0) == b;
    if run != [] {
      assert all[0] == run[0];
      assert After(b, all, 1) == Try(b, run[0]);
    }
  }
}
