/**
 One upstream read with its retries: prices, admissions, calls, back-off sleeps
 and the counters it moves, recorded as a trace of what it does.
 */
module RetryLoop {
  import opened Prelude

  datatype Metric =
    | RequestsServed | SuspendedRefusals | CacheHits | CoalescedRequests
    | UpstreamRequests | Upstream429s | LatencyStopgaps | HeadroomThrottles
    | UpstreamTimeouts | ConnectionFailures | BrokerFailures | CallerDisconnects

  datatype Venue = Pmus | Kalshi

  // ---------------------------------------------------------------- prices

  /** A Kalshi path, after classification by its pattern. */
  datatype Route =
    | Batch(items: seq<string>)
    | MarginBalance(computeAvailable: bool)
    | Benchmarks
    | QueuePositions
    | SingleOrder
    | Quote
    | OtherRead

  function TokenCost(route: Route): Result<real, ()> {
    match route
    case Batch(items) =>
      if 1 <= |items| <= 100 && forall i :: 0 <= i < |items| ==> 1 <= |items[i]| <= 200
      then Ok(|items| as real * 10.0) else Err(())
    case MarginBalance(compute) => Ok(if compute then 50.0 else 5.0)
    case Benchmarks => Ok(50.0)
    case QueuePositions => Ok(10.0)
    case SingleOrder => Ok(2.0)
    case Quote => Ok(2.0)
    case OtherRead => Ok(10.0)
  }

  function Price(venue: Venue, route: Route): Result<real, ()> {
    if venue == Kalshi then TokenCost(route) else Ok(1.0)
  }

  lemma PricePositive(venue: Venue, route: Route)
    ensures Price(venue, route).Ok? ==> Price(venue, route).value > 0.0
    ensures venue == Pmus ==> Price(venue, route) == Ok(1.0)
    ensures venue == Kalshi && Price(venue, route).Ok? ==> 2.0 <= Price(venue, route).value <= 1000.0
    ensures TokenCost(MarginBalance(true)).value == 10.0 * TokenCost(MarginBalance(false)).value
  {
  }

  // ---------------------------------------------------------------- traces

  /** What a read does: `Call` records whether the broker was already closing. */
  datatype Action = Admit(cost: real) | Call(closing: bool) | Sleep(seconds: real) | Count(metric: Metric)

  type Trace = seq<Action>

  const MAX_RETRY_DELAY: real := 10.0

  /** The four ways an upstream call can fail that the counters tell apart. */
  predicate IsSetback(m: Metric) {
    m == Upstream429s || m == LatencyStopgaps || m == UpstreamTimeouts || m == ConnectionFailures
  }

  /** What a trace adds up to. */
  datatype Totals = Totals(admits: nat, requests: nat, calls: nat, setbacks: nat, throttles: nat, sleeps: nat)

  function Add(s: Totals, a: Action): Totals {
    match a
    case Admit(_) => s.(admits := s.admits + 1)
    case Call(_) => s.(calls := s.calls + 1)
    case Sleep(_) => s.(sleeps := s.sleeps + 1)
    case Count(m) =>
      s.(requests := s.requests + (if m == UpstreamRequests then 1 else 0),
         setbacks := s.setbacks + (if IsSetback(m) then 1 else 0),
         throttles := s.throttles + (if m == Upstream429s then 1 else 0))
  }

  function Total(trace: Trace): Totals {
    if trace == [] then Totals(0, 0, 0, 0, 0, 0) else Add(Total(trace[..|trace| - 1]), trace[|trace| - 1])
  }

  /** Setbacks never outnumber counted requests, which never outnumber admissions. */
  predicate Balanced(s: Totals) {
    s.setbacks <= s.requests <= s.admits && s.calls <= s.requests
  }

  /** The action may follow this trace: a call needs its own full-price admission right before it. */
  ghost predicate MayFollow(trace: Trace, price: real, a: Action) {
    match a
    case Admit(cost) => cost == price
    case Call(closing) =>
      && !closing && |trace| >= 2
      && trace[|trace| - 1] == Count(UpstreamRequests) && trace[|trace| - 2] == Admit(price)
    case Sleep(seconds) => 0.0 <= seconds <= MAX_RETRY_DELAY
    case Count(_) => true
  }

  /** Disciplined at every moment, not only at the end. */
  ghost predicate Disciplined(trace: Trace, price: real) {
    && (forall n :: 0 <= n <= |trace| ==> Balanced(Total(trace[..n])))
    && (forall n :: 0 <= n < |trace| ==> MayFollow(trace[..n], price, trace[n]))
  }

  /** One more action that may follow keeps a trace disciplined. */
  lemma NotedOk(trace: Trace, a: Action, price: real)
    requires Disciplined(trace, price) && MayFollow(trace, price, a) && Balanced(Add(Total(trace), a))
    ensures Disciplined(trace + [a], price) && Total(trace + [a]) == Add(Total(trace), a)
  {
    hide MayFollow, Balanced, Add;
    var r := trace + [a];
    assert r[..|trace|] == trace && r[..|r|] == r;
    assert Total(r) == Add(Total(trace), a);
    forall n | 0 <= n <= |r| ensures Balanced(Total(r[..n])) {
      if n <= |trace| { assert r[..n] == trace[..n]; }
    }
    forall n | 0 <= n < |r| ensures MayFollow(r[..n], price, r[n]) {
      if n < |trace| { assert r[..n] == trace[..n]; }
    }
  }

  lemma EmptyDisciplined(price: real)
    ensures Disciplined([], price) && Total([]) == Totals(0, 0, 0, 0, 0, 0)
  {
  }

  // ---------------------------------------------------------------- the loop

  function CappedDelay(d: real): real { RMin(RMax(d, 0.0), MAX_RETRY_DELAY) }

  function Pow2(n: nat): real { if n == 0 then 1.0 else 2.0 * Pow2(n - 1) }

  datatype Reply =
    | Replied(status: int, stopgapBody: bool, retryAfter: Option<real>)
    | TimedOut
    | ConnectionFailed

  datatype Settings = Settings(maxRetries: nat, retryBase: real)

  datatype Outcome = BrokerError(status: int, code: string) | VenueAnswer(status: int, stopgap: bool)

  /** Everything outside this read; during any wait the broker may start closing. */
  class World {
    var closing: bool

    /** A turn and the tokens, or a refusal because admission has closed. */
    method Acquire(cost: real) returns (admitted: bool)
      modifies this
      ensures old(closing) ==> closing
    {
      admitted := *;
      var close := *;
      closing := closing || close;
    }

    method Fetch() returns (reply: Reply)
      modifies this
      ensures old(closing) ==> closing
    {
      reply := *;
      var close := *;
      closing := closing || close;
    }

    method Rest(seconds: real)
      modifies this
      ensures old(closing) ==> closing
    {
      var close := *;
      closing := closing || close;
    }

    /** Whether the trailing-second count was below the ceiling when the answer came. */
    method HasHeadroom() returns (headroom: bool)
    {
      headroom := *;
    }
  }

  // ---------------------------------------------------------------- what a read must do

  /**
   What the world answered to one pass of the loop: admission had closed, the
   broker was closing when the turn came, or the call was made. `closing` and
   `headroom` are as they stood when the reply came.
   */
  datatype Round = Shut | Stopped | Answered(reply: Reply, closing: bool, headroom: bool)

  /** The broker's own refusal to wait for this answer, which is not a venue throttle. */
  predicate Stopgap(venue: Venue, reply: Reply) { venue == Pmus && reply.Replied? && reply.stopgapBody }

  predicate Retryable(venue: Venue, round: Round) {
    round.Answered? && round.reply.Replied? && round.reply.status == 429 && !Stopgap(venue, round.reply)
  }

  /** What follows a reply to attempt number n, counting from zero. */
  function Reaction(settings: Settings, venue: Venue, n: nat, reply: Reply, headroom: bool): Trace {
    match reply
    case TimedOut => [Count(UpstreamTimeouts), Count(BrokerFailures)]
    case ConnectionFailed => [Count(ConnectionFailures), Count(BrokerFailures)]
    case Replied(status, _, retryAfter) =>
      if status != 429 then []
      else if Stopgap(venue, reply) then [Count(LatencyStopgaps)]
      else
        [Count(Upstream429s)]
        + (if venue == Pmus && headroom then [Count(HeadroomThrottles)] else [])
        + (if n < settings.maxRetries then [Sleep(Pause(settings, n, retryAfter))] else [])
  }

  /** The venue's own delay when it names one, else a doubling one; never over ten seconds. */
  function Pause(settings: Settings, n: nat, retryAfter: Option<real>): real {
    CappedDelay(if retryAfter.Some? then retryAfter.value else settings.retryBase * Pow2(n))
  }

  function Moves(settings: Settings, venue: Venue, price: real, n: nat, round: Round): Trace {
    match round
    case Shut => [Count(BrokerFailures)]
    case Stopped => [Admit(price), Count(BrokerFailures)]
    case Answered(reply, _, headroom) =>
      [Admit(price), Count(UpstreamRequests), Call(false)] + Reaction(settings, venue, n, reply, headroom)
  }

  /** Everything the read does over its rounds. */
  function Script(settings: Settings, venue: Venue, price: real, rounds: seq<Round>): Trace {
    if rounds == [] then []
    else
      var n := |rounds| - 1;
      Script(settings, venue, price, rounds[..n]) + Moves(settings, venue, price, n, rounds[n])
  }

  /** What the caller is handed. */
  function Verdict(venue: Venue, round: Round): Outcome {
    match round
    case Answered(TimedOut, _, _) => BrokerError(504, "upstream_timeout")
    case Answered(ConnectionFailed, closing, _) =>
      if closing then BrokerError(503, "broker_closing") else BrokerError(502, "upstream_connection_failed")
    case Answered(Replied(status, _, _), _, _) => VenueAnswer(status, status == 429 && Stopgap(venue, round.reply))
    case _ => BrokerError(503, "broker_closing")
  }

  /** Every round but the last was retried, and the last one was not because it could not or need not be. */
  ghost predicate Plays(settings: Settings, venue: Venue, price: real, rounds: seq<Round>, outcome: Outcome,
        trace: Trace) {
    && rounds != [] && |rounds| <= settings.maxRetries + 1
    && (forall n :: 0 <= n < |rounds| - 1 ==> Retryable(venue, rounds[n]))
    && (Retryable(venue, rounds[|rounds| - 1]) ==> |rounds| == settings.maxRetries + 1)
    && trace == Script(settings, venue, price, rounds)
    && outcome == Verdict(venue, rounds[|rounds| - 1])
  }

  // ---------------------------------------------------------------- what every such read keeps

  /** Where a read stands between attempts: everything has happened `n` times. */
  predicate Even(s: Totals, n: nat) {
    s.admits == s.requests == s.calls == s.setbacks == s.throttles == s.sleeps == n
  }

  // ---------------------------------------------------------------- single moves

  /** A counter outside the balance moves. */
  lemma Remarked(trace: Trace, m: Metric, price: real)
    requires Disciplined(trace, price) && !IsSetback(m) && m != UpstreamRequests
    ensures Disciplined(trace + [Count(m)], price) && Total(trace + [Count(m)]) == Total(trace)
  {
    assert Balanced(Total(trace[..|trace|])) && trace[..|trace|] == trace;
    NotedOk(trace, Count(m), price);
  }

  lemma Entered(trace: Trace, price: real, n: nat)
    requires Disciplined(trace, price) && Even(Total(trace), n)
    ensures Disciplined(trace + [Admit(price)], price)
    ensures Total(trace + [Admit(price)]) == Totals(n + 1, n, n, n, n, n)
  {
    NotedOk(trace, Admit(price), price);
  }

  lemma Counted(trace: Trace, price: real, n: nat)
    requires Disciplined(trace, price) && Total(trace) == Totals(n + 1, n, n, n, n, n)
    ensures Disciplined(trace + [Count(UpstreamRequests)], price)
    ensures Total(trace + [Count(UpstreamRequests)]) == Totals(n + 1, n + 1, n, n, n, n)
  {
    NotedOk(trace, Count(UpstreamRequests), price);
  }

  lemma Rung(trace: Trace, price: real, n: nat)
    requires Disciplined(trace, price) && Total(trace) == Totals(n + 1, n + 1, n, n, n, n)
    requires |trace| >= 2
    requires trace[|trace| - 1] == Count(UpstreamRequests) && trace[|trace| - 2] == Admit(price)
    ensures Disciplined(trace + [Call(false)], price)
    ensures Total(trace + [Call(false)]) == Totals(n + 1, n + 1, n + 1, n, n, n)
  {
    NotedOk(trace, Call(false), price);
  }

  /** The turn is taken, the request counted, and the call made at once: nothing can happen in between. */
  lemma Called(trace: Trace, price: real, n: nat)
    requires Disciplined(trace, price) && Even(Total(trace), n)
    ensures var called := trace + [Admit(price), Count(UpstreamRequests), Call(false)];
      Disciplined(called, price) && Total(called) == Totals(n + 1, n + 1, n + 1, n, n, n)
  {
    hide Disciplined, Total, Even;
    var entered := trace + [Admit(price)];
    var counted := entered + [Count(UpstreamRequests)];
    Entered(trace, price, n);
    Counted(entered, price, n);
    Rung(counted, price, n);
    assert counted + [Call(false)] == trace + [Admit(price), Count(UpstreamRequests), Call(false)];
  }

  lemma SetBack(trace: Trace, m: Metric, price: real, n: nat)
    requires Disciplined(trace, price) && Total(trace) == Totals(n + 1, n + 1, n + 1, n, n, n) && IsSetback(m)
    ensures Disciplined(trace + [Count(m)], price)
    ensures Total(trace + [Count(m)]) == Totals(n + 1, n + 1, n + 1, n + 1, if m == Upstream429s then n + 1 else n, n)
  {
    NotedOk(trace, Count(m), price);
  }

  lemma Rested(trace: Trace, seconds: real, price: real)
    requires Disciplined(trace, price) && 0.0 <= seconds <= MAX_RETRY_DELAY
    ensures Disciplined(trace + [Sleep(seconds)], price)
    ensures Total(trace + [Sleep(seconds)]) == Total(trace).(sleeps := Total(trace).sleeps + 1)
  {
    assert Balanced(Total(trace[..|trace|])) && trace[..|trace|] == trace;
    NotedOk(trace, Sleep(seconds), price);
  }

  /** A throttle is counted, with a remark when the broker had room to spare. */
  lemma Throttled(trace: Trace, venue: Venue, headroom: bool, price: real, n: nat)
    requires Disciplined(trace, price) && Total(trace) == Totals(n + 1, n + 1, n + 1, n, n, n)
    ensures var after := trace + [Count(Upstream429s)]
                         + if venue == Pmus && headroom then [Count(HeadroomThrottles)] else [];
      Disciplined(after, price) && Total(after) == Totals(n + 1, n + 1, n + 1, n + 1, n + 1, n)
  {
    hide Disciplined, Total;
    var t := trace + [Count(Upstream429s)];
    SetBack(trace, Upstream429s, price, n);
    Remarked(t, HeadroomThrottles, price);
    assert t + [] == t;
  }

  /** A failed call: its setback, and the failure handed to the caller. */
  lemma GivenUp(trace: Trace, m: Metric, price: real, n: nat)
    requires Disciplined(trace, price) && Total(trace) == Totals(n + 1, n + 1, n + 1, n, n, n)
    requires IsSetback(m) && m != Upstream429s
    ensures var after := trace + [Count(m), Count(BrokerFailures)];
      Disciplined(after, price) && Total(after) == Totals(n + 1, n + 1, n + 1, n + 1, n, n)
  {
    hide Disciplined, Total;
    SetBack(trace, m, price, n);
    Remarked(trace + [Count(m)], BrokerFailures, price);
    assert trace + [Count(m)] + [Count(BrokerFailures)] == trace + [Count(m), Count(BrokerFailures)];
  }

  // ---------------------------------------------------------------- whole rounds

  lemma RetriedRound(settings: Settings, venue: Venue, price: real, n: nat, round: Round, before: Trace)
    requires Disciplined(before, price) && Even(Total(before), n)
    requires Retryable(venue, round) && n < settings.maxRetries
    ensures Disciplined(before + Moves(settings, venue, price, n, round), price)
    ensures Even(Total(before + Moves(settings, venue, price, n, round)), n + 1)
  {
    hide Disciplined, Total, Pause;
    var called := before + [Admit(price), Count(UpstreamRequests), Call(false)];
    var throttled := called + [Count(Upstream429s)]
                     + if venue == Pmus && round.headroom then [Count(HeadroomThrottles)] else [];
    var seconds := Pause(settings, n, round.reply.retryAfter);
    Called(before, price, n);
    Throttled(called, venue, round.headroom, price, n);
    PauseCapped(settings, n, round.reply.retryAfter);
    Rested(throttled, seconds, price);
    assert throttled + [Sleep(seconds)] == before + Moves(settings, venue, price, n, round);
  }

  lemma PauseCapped(settings: Settings, n: nat, retryAfter: Option<real>)
    ensures 0.0 <= Pause(settings, n, retryAfter) <= MAX_RETRY_DELAY
  {
  }

  lemma LastRound(settings: Settings, venue: Venue, price: real, n: nat, round: Round, before: Trace)
    requires Disciplined(before, price) && Even(Total(before), n)
    requires n <= settings.maxRetries && (Retryable(venue, round) ==> n == settings.maxRetries)
    ensures var after := before + Moves(settings, venue, price, n, round);
      && Disciplined(after, price) && Total(after).sleeps == n
      && Total(after).calls == (if round.Answered? then n + 1 else n) <= Total(after).admits <= n + 1
      && Total(after).throttles == if Retryable(venue, round) then n + 1 else n
  {
    hide Disciplined, Total;
    match round
    case Shut => Remarked(before, BrokerFailures, price);
    case Stopped =>
      Entered(before, price, n);
      Remarked(before + [Admit(price)], BrokerFailures, price);
      assert before + [Admit(price)] + [Count(BrokerFailures)] == before + [Admit(price), Count(BrokerFailures)];
    case Answered(reply, _, headroom) =>
      var called := before + [Admit(price), Count(UpstreamRequests), Call(false)];
      Called(before, price, n);
      LastReaction(settings, venue, price, n, round, called);
      assert called + Reaction(settings, venue, n, reply, headroom)
            == before + Moves(settings, venue, price, n, round);
  }

  lemma LastReaction(settings: Settings, venue: Venue, price: real, n: nat, round: Round, called: Trace)
    requires Disciplined(called, price) && Total(called) == Totals(n + 1, n + 1, n + 1, n, n, n)
    requires round.Answered? && (Retryable(venue, round) ==> n >= settings.maxRetries)
    ensures var after := called + Reaction(settings, venue, n, round.reply, round.headroom);
      && Disciplined(after, price) && Total(after).sleeps == n && Total(after).calls == Total(after).admits == n + 1
      && Total(after).throttles == if Retryable(venue, round) then n + 1 else n
  {
    hide Disciplined, Total;
    match round.reply
    case TimedOut => GivenUp(called, UpstreamTimeouts, price, n);
    case ConnectionFailed => GivenUp(called, ConnectionFailures, price, n);
    case Replied(status, _, _) =>
      if status != 429 {
        assert called + [] == called;
      } else if Stopgap(venue, round.reply) {
        SetBack(called, LatencyStopgaps, price, n);
      } else {
        Throttled(called, venue, round.headroom, price, n);
        assert called + Reaction(settings, venue, n, round.reply, round.headroom)
            == called + [Count(Upstream429s)] + if venue == Pmus && round.headroom then [Count(HeadroomThrottles)]
                  else [];
      }
  }

  lemma {:induction false} RetriedSoFar(settings: Settings, venue: Venue, price: real, rounds: seq<Round>)
    requires |rounds| <= settings.maxRetries && forall n :: 0 <= n < |rounds| ==> Retryable(venue, rounds[n])
    ensures Disciplined(Script(settings, venue, price, rounds), price)
    ensures Even(Total(Script(settings, venue, price, rounds)), |rounds|)
  {
    hide Disciplined, Moves, Total, Retryable;
    if rounds == [] {
      EmptyDisciplined(price);
    } else {
      var n := |rounds| - 1;
      RetriedSoFar(settings, venue, price, rounds[..n]);
      RetriedRound(settings, venue, price, n, rounds[n], Script(settings, venue, price, rounds[..n]));
    }
  }

  /**
   Whatever the world answers, a read's calls each come right after their own
   full-price admission and before closing was seen, the counters stay balanced
   at every moment, and a throttle reaches the caller only after the last retry.
   */
  lemma ReadsAreDisciplined(settings: Settings, venue: Venue, price: real, rounds: seq<Round>, outcome: Outcome,
        trace: Trace)
    requires Plays(settings, venue, price, rounds, outcome, trace)
    ensures Disciplined(trace, price)
    ensures Total(trace).calls <= Total(trace).admits <= settings.maxRetries + 1
    ensures Total(trace).sleeps <= settings.maxRetries
    ensures outcome.VenueAnswer? ==> Total(trace).calls == Total(trace).sleeps + 1
    ensures outcome.VenueAnswer? && outcome.status == 429 && !outcome.stopgap ==>
              Total(trace).calls == Total(trace).throttles == settings.maxRetries + 1
    ensures outcome.VenueAnswer? && outcome.status != 429 ==> Total(trace).throttles == Total(trace).calls - 1
  {
    hide Disciplined, Moves, Total;
    var n := |rounds| - 1;
    RetriedSoFar(settings, venue, price, rounds[..n]);
    LastRound(settings, venue, price, n, rounds[n], Script(settings, venue, price, rounds[..n]));
  }

  lemma ScriptEmpty(settings: Settings, venue: Venue, price: real)
    ensures Script(settings, venue, price, []) == []
  {
  }

  lemma ScriptSnoc(settings: Settings, venue: Venue, price: real, rounds: seq<Round>, round: Round)
    ensures Script(settings, venue, price, rounds + [round])
            == Script(settings, venue, price, rounds) + Moves(settings, venue, price, |rounds|, round)
  {
    assert (rounds + [round])[..|rounds|] == rounds;
  }

  // ---------------------------------------------------------------- the loop itself

  /** One pass of the loop: an answer for the caller, or none when the read goes round again. */
  method Attempt(world: World, settings: Settings, venue: Venue, price: real, n: nat)
    returns (outcome: Option<Outcome>, moves: Trace, ghost round: Round)
    modifies world
    ensures moves == Moves(settings, venue, price, n, round)
    ensures outcome.None? <==> Retryable(venue, round) && n < settings.maxRetries
    ensures outcome.Some? ==> outcome.value == Verdict(venue, round)
  {
    hide Pow2;
    var admitted := world.Acquire(price);
    if !admitted {
      return Some(BrokerError(503, "broker_closing")), [Count(BrokerFailures)], Shut;
    }
    moves := [Admit(price)];
    if world.closing {
      return Some(BrokerError(503, "broker_closing")), moves + [Count(BrokerFailures)], Stopped;
    }
    moves := moves + [Count(UpstreamRequests), Call(world.closing)];
    var reply := world.Fetch();
    var closing := world.closing;
    var headroom := world.HasHeadroom();
    round := Answered(reply, closing, headroom);
    match reply {
      case TimedOut =>
        return Some(BrokerError(504, "upstream_timeout")),
              moves + [Count(UpstreamTimeouts), Count(BrokerFailures)], round;
      case ConnectionFailed =>
        var failure := if closing then BrokerError(503, "broker_closing")
              else BrokerError(502, "upstream_connection_failed");
        return Some(failure), moves + [Count(ConnectionFailures), Count(BrokerFailures)], round;
      case Replied(status, stopgapBody, retryAfter) =>
        if status != 429 {
          return Some(VenueAnswer(status, false)), moves, round;
        }
        if venue == Pmus && stopgapBody {
          return Some(VenueAnswer(status, true)), moves + [Count(LatencyStopgaps)], round;
        }
        moves := moves + [Count(Upstream429s)];
        if venue == Pmus && headroom {
          moves := moves + [Count(HeadroomThrottles)];
        }
        if n >= settings.maxRetries {
          return Some(VenueAnswer(status, false)), moves, round;
        }
        var delay := CappedDelay(if retryAfter.Some? then retryAfter.value else settings.retryBase * Pow2(n));
        world.Rest(delay);
        assert delay == Pause(settings, n, retryAfter)
              && moves + [Sleep(delay)] == Moves(settings, venue, price, n, round);
        return None, moves + [Sleep(delay)], round;
    }
  }

  /**
   The retry loop: it always returns, and what it did and answers is what the
   rounds it went through call for.
   */
  method FetchAttempts(world: World, settings: Settings, venue: Venue, price: real)
    returns (outcome: Outcome, trace: Trace, ghost rounds: seq<Round>)
    modifies world
    ensures Plays(settings, venue, price, rounds, outcome, trace)
  {
    hide Script, Moves, Retryable, Verdict;
    ScriptEmpty(settings, venue, price);
    trace, rounds := [], [];
    for attempt := 0 to settings.maxRetries + 1
      invariant attempt == |rounds| <= settings.maxRetries
      invariant forall n :: 0 <= n < |rounds| ==> Retryable(venue, rounds[n])
      invariant trace == Script(settings, venue, price, rounds)
    {
      var answer, moves, round := Attempt(world, settings, venue, price, attempt);
      ScriptSnoc(settings, venue, price, rounds, round);
      trace, rounds := trace + moves, rounds + [round];
      if answer.Some? {
        return answer.value, trace, rounds;
      }
    }
    assert false;
  }

  /** The lane's budget, its price list, and the price a read is admitted at; or why it is refused. */
  function Quoted(venue: Venue, perps: bool, capacity: real, perpsCapacity: Option<real>,
        route: Route): Result<real, Outcome> {
    if perps && perpsCapacity.None? then Err(BrokerError(503, "perps_budget_unconfigured"))
    else
      match Price(venue, route)
      case Err(_) => Err(BrokerError(400, "invalid_request_cost"))
      case Ok(price) =>
        if price > (if perps then perpsCapacity.value else capacity)
        then Err(BrokerError(400, "request_cost_exceeds_capacity"))
        else Ok(price)
  }

  /**
   What a whole upstream read does and answers: quoted, then fetched with retries,
   or refused without any admission.
   */
  ghost predicate Fetches(settings: Settings, venue: Venue, quote: Result<real, Outcome>,
                          rounds: seq<Round>, outcome: Outcome, trace: Trace) {
    match quote
    case Err(refusal) => outcome == refusal && trace == [Count(BrokerFailures)] && rounds == []
    case Ok(price) => Plays(settings, venue, price, rounds, outcome, trace)
  }

  /** A read that is still under way has kept the discipline so far. */
  lemma DisciplinedSoFar(trace: Trace, price: real, n: nat)
    requires Disciplined(trace, price) && n <= |trace|
    ensures Disciplined(trace[..n], price)
  {
    hide Balanced, MayFollow, Total;
    forall k | 0 <= k <= n ensures Balanced(Total(trace[..n][..k])) {
      assert trace[..n][..k] == trace[..k];
    }
    forall k | 0 <= k < n ensures MayFollow(trace[..n][..k], price, trace[..n][k]) {
      assert trace[..n][..k] == trace[..k];
    }
  }

  /** Finished, under way or cancelled, an upstream read's counters are balanced. */
  lemma FetchBalancedSoFar(settings: Settings, venue: Venue, quote: Result<real, Outcome>,
                           rounds: seq<Round>, outcome: Outcome, trace: Trace, n: nat)
    requires Fetches(settings, venue, quote, rounds, outcome, trace) && n <= |trace|
    ensures Balanced(Total(trace[..n]))
  {
    hide Plays, Disciplined, Balanced, Total;
    match quote
    case Err(_) =>
      EmptyDisciplined(0.0);
      Remarked([], BrokerFailures, 0.0);
      assert [] + [Count(BrokerFailures)] == trace;
      DisciplinedSoFar(trace, 0.0, n);
      BalancedNow(trace[..n], 0.0);
    case Ok(price) =>
      ReadsAreDisciplined(settings, venue, price, rounds, outcome, trace);
      DisciplinedSoFar(trace, price, n);
      BalancedNow(trace[..n], price);
  }

  lemma BalancedNow(trace: Trace, price: real)
    requires Disciplined(trace, price)
    ensures Balanced(Total(trace))
  {
    assert trace[..|trace|] == trace;
  }

  method FetchWithRetry(world: World, settings: Settings, venue: Venue, perps: bool,
                        capacity: real, perpsCapacity: Option<real>, route: Route)
    returns (outcome: Outcome, trace: Trace, ghost rounds: seq<Round>)
    modifies world
    ensures var quote := Quoted(venue, perps, capacity, perpsCapacity, route);
      && Fetches(settings, venue, quote, rounds, outcome, trace)
      && (quote.Ok? ==>
            && 0.0 < quote.value <= (if perps then perpsCapacity.value else capacity)
            && Disciplined(trace, quote.value) && Total(trace).calls <= settings.maxRetries + 1)
  {
    hide Plays, Disciplined, Total, TokenCost;
    var quote := Quoted(venue, perps, capacity, perpsCapacity, route);
    match quote {
      case Err(refusal) => return refusal, [Count(BrokerFailures)], [];
      case Ok(price) =>
        PricePositive(venue, route);
        outcome, trace, rounds := FetchAttempts(world, settings, venue, price);
        ReadsAreDisciplined(settings, venue, price, rounds, outcome, trace);
    }
  }
}
