/**
 What an upstream read answers and what it counts, said by the replies alone: the
 status the caller gets, every counter the read moves, and every pause it makes.
 */
module ReadAnswers {
  import opened Prelude
  import opened RetryLoop

  // ---------------------------------------------------------------- the answer

  /** The last thing the read saw was this reply. */
  predicate Saw(round: Round, reply: Reply) { round.Answered? && round.reply == reply }

  /** The venue's own response is in, and this is it. */
  predicate SawResponse(round: Round) { round.Answered? && round.reply.Replied? }

  /**
   The answer, exactly: the venue's response with its own status when there is one; 504
   when the venue did not answer in time, 502 when the connection failed under an open
   broker, and 503 in every other case.
   */
  lemma AnswersExactly(settings: Settings, venue: Venue, price: real, rounds: seq<Round>, outcome: Outcome,
        trace: Trace)
    requires Plays(settings, venue, price, rounds, outcome, trace)
    ensures var last := rounds[|rounds| - 1];
      && (outcome.VenueAnswer? <==> SawResponse(last))
      && (outcome.VenueAnswer? ==> outcome.status == last.reply.status)
      && (outcome.VenueAnswer? && outcome.stopgap <==>
            SawResponse(last) && venue == Pmus && last.reply.status == 429 && last.reply.stopgapBody)
      && (outcome == BrokerError(504, "upstream_timeout") <==> Saw(last, TimedOut))
      && (outcome == BrokerError(502, "upstream_connection_failed") <==>
            Saw(last, ConnectionFailed) && !last.closing)
      && (outcome == BrokerError(503, "broker_closing") <==>
            !SawResponse(last) && !Saw(last, TimedOut) && !(Saw(last, ConnectionFailed) && !last.closing))
  {
  }

  // ---------------------------------------------------------------- the counters

  /** How often the trace does this. */
  function Times(trace: Trace, a: Action): nat { multiset(trace)[a] }

  /** Whether a round moves this counter of an upstream read. */
  predicate Calls(venue: Venue, m: Metric, round: Round) {
    match m
    case UpstreamRequests => round.Answered?
    case Upstream429s => IsThrottle(venue, round)
    case HeadroomThrottles => venue == Pmus && IsThrottle(venue, round) && round.headroom
    case LatencyStopgaps =>
      venue == Pmus && SawResponse(round) && round.reply.status == 429 && round.reply.stopgapBody
    case UpstreamTimeouts => Saw(round, TimedOut)
    case ConnectionFailures => Saw(round, ConnectionFailed)
    case BrokerFailures => !SawResponse(round)
    case _ => false
  }

  /** How many of the rounds do. */
  function Calling(venue: Venue, m: Metric, rounds: seq<Round>): nat {
    if rounds == [] then 0
    else Calling(venue, m, rounds[..|rounds| - 1]) + if Calls(venue, m, rounds[|rounds| - 1]) then 1 else 0
  }

  /** A 429 that is the venue's own refusal. */
  predicate IsThrottle(venue: Venue, round: Round) {
    SawResponse(round) && round.reply.status == 429 && !(venue == Pmus && round.reply.stopgapBody)
  }

  lemma NoTimes(x: Action)
    ensures Times([], x) == 0
  {
  }

  lemma TimesConcat(a: Trace, b: Trace, x: Action)
    ensures Times(a + b, x) == Times(a, x) + Times(b, x)
  {
  }

  lemma TimesOne(a: Action, x: Action)
    ensures Times([a], x) == if a == x then 1 else 0
  {
  }

  lemma TimesTwo(a: Action, b: Action, x: Action)
    ensures Times([a, b], x) == (if a == x then 1 else 0) + if b == x then 1 else 0
  {
    assert [a, b] == [a] + [b];
    TimesConcat([a], [b], x);
  }

  lemma ReactionCount(settings: Settings, venue: Venue, n: nat, reply: Reply, closing: bool, headroom: bool, m: Metric)
    ensures Times(Reaction(settings, venue, n, reply, headroom), Count(m))
            == if m != UpstreamRequests && Calls(venue, m, Answered(reply, closing, headroom)) then 1 else 0
  {
    hide Pause, Times;
    match reply
    case TimedOut => TimesTwo(Count(UpstreamTimeouts), Count(BrokerFailures), Count(m));
    case ConnectionFailed => TimesTwo(Count(ConnectionFailures), Count(BrokerFailures), Count(m));
    case Replied(status, _, retryAfter) =>
      NoTimes(Count(m));
      TimesOne(Count(LatencyStopgaps), Count(m));
      if status == 429 && !Stopgap(venue, reply) {
        var remark := if venue == Pmus && headroom then [Count(HeadroomThrottles)] else [];
        var nap := if n < settings.maxRetries then [Sleep(Pause(settings, n, retryAfter))] else [];
        TimesOne(Count(Upstream429s), Count(m));
        TimesOne(Count(HeadroomThrottles), Count(m));
        TimesOne(Sleep(Pause(settings, n, retryAfter)), Count(m));
        TimesConcat([Count(Upstream429s)], remark, Count(m));
        TimesConcat([Count(Upstream429s)] + remark, nap, Count(m));
      }
  }

  lemma MovesCount(settings: Settings, venue: Venue, price: real, n: nat, round: Round, m: Metric)
    ensures Times(Moves(settings, venue, price, n, round), Count(m)) == if Calls(venue, m, round) then 1 else 0
  {
    hide Reaction, Times;
    match round
    case Shut => TimesOne(Count(BrokerFailures), Count(m));
    case Stopped => TimesTwo(Admit(price), Count(BrokerFailures), Count(m));
    case Answered(reply, closing, headroom) =>
      ReactionCount(settings, venue, n, reply, closing, headroom, m);
      TimesTwo(Admit(price), Count(UpstreamRequests), Count(m));
      TimesOne(Call(false), Count(m));
      TimesConcat([Admit(price), Count(UpstreamRequests)], [Call(false)], Count(m));
      assert [Admit(price), Count(UpstreamRequests)] + [Call(false)]
          == [Admit(price), Count(UpstreamRequests), Call(false)];
      TimesConcat([Admit(price), Count(UpstreamRequests), Call(false)],
                  Reaction(settings, venue, n, reply, headroom), Count(m));
  }

  /**
   Every counter, exactly: a read moves each of its metrics once for every round that
   calls for it, and no other.
   */
  lemma {:induction false} CountsExactly(settings: Settings, venue: Venue, price: real, rounds: seq<Round>, m: Metric)
    ensures Times(Script(settings, venue, price, rounds), Count(m)) == Calling(venue, m, rounds)
    decreases |rounds|
  {
    hide Moves, Calls, Times;
    if rounds != [] {
      var n := |rounds| - 1;
      CountsExactly(settings, venue, price, rounds[..n], m);
      MovesCount(settings, venue, price, n, rounds[n], m);
      TimesConcat(Script(settings, venue, price, rounds[..n]), Moves(settings, venue, price, n, rounds[n]), Count(m));
    } else {
      assert Times([], Count(m)) == 0 by { NoTimes(Count(m)); }
    }
  }

  /** The caller is told of a failure exactly when one was counted, and then one was. */
  lemma FailuresAreTold(settings: Settings, venue: Venue, price: real, rounds: seq<Round>, outcome: Outcome,
        trace: Trace)
    requires Plays(settings, venue, price, rounds, outcome, trace)
    ensures Times(trace, Count(BrokerFailures)) == if outcome.BrokerError? then 1 else 0
    ensures Times(trace, Count(UpstreamTimeouts)) == if outcome == BrokerError(504, "upstream_timeout") then 1 else 0
    ensures Times(trace, Count(LatencyStopgaps)) == if outcome.VenueAnswer? && outcome.stopgap then 1 else 0
  {
    hide Script;
    var n := |rounds| - 1;
    AnswersExactly(settings, venue, price, rounds, outcome, trace);
    RetriedMoveNone(venue, rounds[..n]);
    CountsExactly(settings, venue, price, rounds, BrokerFailures);
    CountsExactly(settings, venue, price, rounds, UpstreamTimeouts);
    CountsExactly(settings, venue, price, rounds, LatencyStopgaps);
  }

  lemma {:induction false} RetriedMoveNone(venue: Venue, rounds: seq<Round>)
    requires forall n :: 0 <= n < |rounds| ==> Retryable(venue, rounds[n])
    ensures Calling(venue, BrokerFailures, rounds) == 0
    ensures Calling(venue, UpstreamTimeouts, rounds) == 0
    ensures Calling(venue, LatencyStopgaps, rounds) == 0
    decreases |rounds|
  {
    if rounds != [] {
      RetriedMoveNone(venue, rounds[..|rounds| - 1]);
    }
  }

  // ---------------------------------------------------------------- the pauses

  /** The pauses of a trace, in order. */
  function Pauses(trace: Trace): seq<real> {
    if trace == [] then []
    else
      Pauses(trace[..|trace| - 1])
      + if trace[|trace| - 1].Sleep? then [trace[|trace| - 1].seconds] else []
  }

  lemma {:induction false} PausesConcat(a: Trace, b: Trace)
    ensures Pauses(a + b) == Pauses(a) + Pauses(b)
    decreases |b|
  {
    if b == [] {
      assert a + b == a;
    } else {
      assert (a + b)[..|a + b| - 1] == a + b[..|b| - 1];
      PausesConcat(a, b[..|b| - 1]);
    }
  }

  /** The venue said nothing: the base, then twice the pause before, never below zero or over ten seconds. */
  function Doubled(base: real, n: nat): real {
    RMin(RMax(if n == 0 then base else 2.0 * Doubled(base, n - 1), 0.0), 10.0)
  }

  lemma {:induction false} PauseDoubles(settings: Settings, n: nat)
    ensures Pause(settings, n, None) == Doubled(settings.retryBase, n)
  {
    if n > 0 {
      PauseDoubles(settings, n - 1);
      PowFacts(settings.retryBase, n - 1);
    }
  }

  lemma {:induction false} PowFacts(base: real, n: nat)
    ensures Pow2(n) >= 1.0 && base * Pow2(n + 1) == 2.0 * (base * Pow2(n))
    ensures base >= 0.0 ==> base * Pow2(n) >= 0.0
    ensures base < 0.0 ==> base * Pow2(n) < 0.0
  {
    if n > 0 {
      PowFacts(base, n - 1);
    }
    var x := Pow2(n);
    assert Pow2(n + 1) == 2.0 * x;
    assert base * (2.0 * x) == 2.0 * (base * x);
  }

  /** This is the pause after round n: as long as the venue asks for, else the doubled one. */
  predicate IsPause(settings: Settings, n: nat, round: Round, seconds: real) {
    && SawResponse(round)
    && seconds == match round.reply.retryAfter
                  case Some(d) => if d < 0.0 then 0.0 else if d > 10.0 then 10.0 else d
                  case None => Doubled(settings.retryBase, n)
  }

  /** A retried round pauses once, and the last one not at all. */
  lemma MovesPause(settings: Settings, venue: Venue, price: real, n: nat, round: Round)
    ensures var p := Pauses(Moves(settings, venue, price, n, round));
      if Retryable(venue, round) && n < settings.maxRetries then |p| == 1 && IsPause(settings, n, round, p[0])
      else p == []
  {
    hide Doubled, Pow2;
    var none: Trace := [];
    assert Pauses(none) == [];
    match round
    case Shut => PausesOne(Count(BrokerFailures));
    case Stopped => PausesTwo(Admit(price), Count(BrokerFailures));
    case Answered(reply, _, headroom) =>
      var called := [Admit(price), Count(UpstreamRequests)] + [Call(false)];
      PausesTwo(Admit(price), Count(UpstreamRequests));
      PausesOne(Call(false));
      PausesConcat([Admit(price), Count(UpstreamRequests)], [Call(false)]);
      assert called == [Admit(price), Count(UpstreamRequests), Call(false)];
      ReactionPause(settings, venue, n, round);
      PausesConcat(called, Reaction(settings, venue, n, reply, headroom));
  }

  lemma ReactionPause(settings: Settings, venue: Venue, n: nat, round: Round)
    requires round.Answered?
    ensures var p := Pauses(Reaction(settings, venue, n, round.reply, round.headroom));
      if Retryable(venue, round) && n < settings.maxRetries then |p| == 1 && IsPause(settings, n, round, p[0])
      else p == []
  {
    hide Pauses, Doubled, Pow2;
    NoPauses();
    match round.reply
    case TimedOut => PausesTwo(Count(UpstreamTimeouts), Count(BrokerFailures));
    case ConnectionFailed => PausesTwo(Count(ConnectionFailures), Count(BrokerFailures));
    case Replied(status, _, retryAfter) =>
      PausesOne(Count(LatencyStopgaps));
      if Retryable(venue, round) {
        var remark := if venue == Pmus && round.headroom then [Count(HeadroomThrottles)] else [];
        var nap := if n < settings.maxRetries then [Sleep(Pause(settings, n, retryAfter))] else [];
        PausesOne(Count(Upstream429s));
        PausesOne(Count(HeadroomThrottles));
        PausesOne(Sleep(Pause(settings, n, retryAfter)));
        PausesConcat([Count(Upstream429s)], remark);
        PausesConcat([Count(Upstream429s)] + remark, nap);
        PauseDoubles(settings, n);
      }
  }

  lemma NoPauses()
    ensures Pauses([]) == []
  {
  }

  lemma PausesOne(a: Action)
    ensures Pauses([a]) == if a.Sleep? then [a.seconds] else []
  {
    assert [a][..0] == [];
  }

  lemma PausesTwo(a: Action, b: Action)
    ensures Pauses([a, b]) == (if a.Sleep? then [a.seconds] else []) + if b.Sleep? then [b.seconds] else []
  {
    assert [a, b] == [a] + [b];
    PausesOne(a);
    PausesOne(b);
    PausesConcat([a], [b]);
  }

  /** Before the last round, the pauses are one for each round, each as long as it should be. */
  lemma {:induction false} RetriedPauses(settings: Settings, venue: Venue, price: real, rounds: seq<Round>)
    requires |rounds| <= settings.maxRetries && forall n :: 0 <= n < |rounds| ==> Retryable(venue, rounds[n])
    ensures |Pauses(Script(settings, venue, price, rounds))| == |rounds|
    ensures forall n :: 0 <= n < |rounds| ==>
              IsPause(settings, n, rounds[n], Pauses(Script(settings, venue, price, rounds))[n])
    decreases |rounds|
  {
    hide Moves, IsPause, Retryable;
    if rounds == [] {
      NoPauses();
    } else {
      var n := |rounds| - 1;
      RetriedPauses(settings, venue, price, rounds[..n]);
      MovesPause(settings, venue, price, n, rounds[n]);
      PausesConcat(Script(settings, venue, price, rounds[..n]), Moves(settings, venue, price, n, rounds[n]));
    }
  }

  /**
   The pauses, exactly: a read pauses once between every two rounds, as long as the
   venue asked for within ten seconds, or, if it did not say, for a doubling time.
   */
  lemma PausesExactly(settings: Settings, venue: Venue, price: real, rounds: seq<Round>, outcome: Outcome,
        trace: Trace)
    requires Plays(settings, venue, price, rounds, outcome, trace)
    ensures |Pauses(trace)| == |rounds| - 1
    ensures forall n :: 0 <= n < |rounds| - 1 ==> IsPause(settings, n, rounds[n], Pauses(trace)[n])
  {
    hide Moves, IsPause, Retryable, Pauses;
    var n := |rounds| - 1;
    RetriedPauses(settings, venue, price, rounds[..n]);
    MovesPause(settings, venue, price, n, rounds[n]);
    PausesConcat(Script(settings, venue, price, rounds[..n]), Moves(settings, venue, price, n, rounds[n]));
  }

  // ---------------------------------------------------------------- prices and refusals

  /** Tickers a batch may hold. */
  predicate Ticker(item: string) { 1 <= |item| <= 200 }

  /**
   A batch read costs ten tokens a ticker, wherever it is split: the parts cost
   together what the whole does. It is refused exactly when it is empty, too long or
   holds something that is no ticker.
   */
  lemma SplitBatch(a: seq<string>, b: seq<string>)
    ensures TokenCost(Batch(a)).Ok? <==> 1 <= |a| <= 100 && forall x :: x in a ==> Ticker(x)
    ensures TokenCost(Batch(a)).Ok? && TokenCost(Batch(b)).Ok? && |a| + |b| <= 100 ==>
              && TokenCost(Batch(a + b)).Ok?
              && TokenCost(Batch(a + b)).value == TokenCost(Batch(a)).value + TokenCost(Batch(b)).value
    ensures forall x :: Ticker(x) ==> TokenCost(Batch([x])) == Ok(10.0)
  {
    if TokenCost(Batch(a)).Err? && 1 <= |a| <= 100 {
      var i :| 0 <= i < |a| && !(1 <= |a[i]| <= 200);
      assert a[i] in a;
    }
  }

  /**
   Who is refused without any admission, and as what: perps reads without a budget of
   their own, malformed batches, and reads that cost more than the lane's bucket holds.
   */
  lemma RefusedExactly(venue: Venue, perps: bool, capacity: real, perpsCapacity: Option<real>, route: Route)
    ensures var quote := Quoted(venue, perps, capacity, perpsCapacity, route);
      var unfunded, malformed := perps && perpsCapacity.None?, Price(venue, route).Err?;
      && (quote == Err(BrokerError(503, "perps_budget_unconfigured")) <==> unfunded)
      && (quote == Err(BrokerError(400, "invalid_request_cost")) <==> !unfunded && malformed)
      && (quote == Err(BrokerError(400, "request_cost_exceeds_capacity")) <==>
            !unfunded && !malformed
            && Price(venue, route).value > if perps then perpsCapacity.value else capacity)
      && (quote.Ok? ==> quote.value == Price(venue, route).value)
      && (quote.Err? ==> quote.error.BrokerError? && quote.error.status in {400, 503})
  {
    hide TokenCost;
  }
}
