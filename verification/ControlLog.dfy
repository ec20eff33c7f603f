/**
 The durable stop/resume log: one database shared by any number of stores, each
 transaction atomic, guarded by the revision the caller expects.
 */
module ControlLog {
  import opened Prelude

  datatype ControlState = Allowed | Stopped

  datatype Action = Stop | Resume {
    function Wanted(): ControlState { if Stop? then Stopped else Allowed }
  }

  datatype Record = Record(state: ControlState, revision: int, changedAt: int, reason: string)

  datatype ControlEvent = ControlEvent(scope: string, action: Action, state: ControlState, revision: int, at: int,
        reason: string)

  /** The tables: the current revision, one row per scope, and the event log. */
  datatype Database = Database(revision: int, rows: map<string, Record>, events: seq<ControlEvent>)

  /** The scopes a process is configured for. */
  datatype Registry = Registry(apps: set<string>) {
    predicate Has(scope: string) {
      scope == GLOBAL || scope == TRADE || (APP_PREFIX <= scope && scope[|APP_PREFIX|..] in apps)
    }

    function Scopes(): set<string> {
      {GLOBAL, TRADE} + set a | a in apps :: APP_PREFIX + a
    }
  }

  const GLOBAL: string := "broker:global"
  const TRADE: string := "trade:new-orders:execution"
  const APP_PREFIX: string := "broker:app:"

  function AppScope(app: string): string { APP_PREFIX + app }

  datatype Error = UnknownScope | UnknownAction | BadReason | InvalidSchema | Conflict | NotPublished

  // ---------------------------------------------------------------- the transactions

  function Initial(g: Registry, now: int): Database {
    Database(0, map s | s in g.Scopes() :: Record(Allowed, 0, now, "install default"), [])
  }

  /** A process configured for more apps adds their scopes; existing rows stay as they are. */
  function AddScopes(g: Registry, d: Database, now: int): Database {
    d.(rows := (map s | s in g.Scopes() :: Record(Allowed, d.revision, now, "app config default")) + d.rows)
  }

  /** The checks every process makes before it trusts the tables. */
  predicate Validates(g: Registry, d: Database) {
    && d.revision >= 0
    && g.Scopes() <= d.rows.Keys
    && (forall s :: s in d.rows ==> s in g.Scopes() || APP_PREFIX <= s)
    && (forall s :: s in d.rows ==> 0 <= d.rows[s].revision <= d.revision)
  }

  /** The reason arrives stripped; it must say something and fit. */
  predicate GoodReason(reason: string) { 1 <= |reason| <= 500 }

  datatype Change = Change(scope: string, action: string, expected: int, reason: string, now: int)

  function ParseAction(action: string): Option<Action> {
    if action == "stop" then Some(Stop) else if action == "resume" then Some(Resume) else None
  }

  function Refusal(g: Registry, d: Database, c: Change): Option<Error> {
    if c.scope !in g.Scopes() then Some(UnknownScope)
    else if ParseAction(c.action).None? then Some(UnknownAction)
    else if !GoodReason(c.reason) then Some(BadReason)
    else if !Validates(g, d) then Some(InvalidSchema)
    else if c.expected != d.revision then Some(Conflict)
    else None
  }

  /** Whether the call commits a new revision. */
  predicate Commits(g: Registry, d: Database, c: Change) {
    Refusal(g, d, c).None? && d.rows[c.scope].state != ParseAction(c.action).value.Wanted()
  }

  function Apply(g: Registry, d: Database, c: Change): Database {
    if !Commits(g, d, c) then d
    else
      var a := ParseAction(c.action).value;
      Database(d.revision + 1,
               d.rows[c.scope := Record(a.Wanted(), d.revision + 1, c.now, c.reason)],
               d.events + [ControlEvent(c.scope, a, a.Wanted(), d.revision + 1, c.now, c.reason)])
  }

  /** What the caller gets back. */
  function Answer(g: Registry, d: Database, c: Change): Result<Record, Error> {
    match Refusal(g, d, c)
    case Some(e) => Err(e)
    case None => Ok(Apply(g, d, c).rows[c.scope])
  }

  // ---------------------------------------------------------------- runs

  /** A store starts up with its own configuration, or applies a change. */
  datatype Step = Opened(registry: Registry, now: int) | Applied(registry: Registry, change: Change)

  function Next(d: Database, s: Step): Database {
    match s
    case Opened(g, now) => AddScopes(g, d, now)
    case Applied(g, c) => Apply(g, d, c)
  }

  function Run(g: Registry, now: int, steps: seq<Step>, n: nat): Database
    requires n <= |steps|
  {
    if n == 0 then Initial(g, now) else Next(Run(g, now, steps, n - 1), steps[n - 1])
  }

  predicate ChangedAt(g: Registry, now: int, steps: seq<Step>, n: nat)
    requires n < |steps|
  {
    steps[n].Applied? && Commits(steps[n].registry, Run(g, now, steps, n), steps[n].change)
  }

  // ---------------------------------------------------------------- replay

  /** Folding the events of one scope over "allowed". */
  function Replay(events: seq<ControlEvent>, scope: string): ControlState {
    if events == [] then Allowed
    else
      var last := events[|events| - 1];
      if last.scope == scope then last.action.Wanted() else Replay(events[..|events| - 1], scope)
  }

  /** The events of one scope, in order. */
  function Of(events: seq<ControlEvent>, scope: string): seq<ControlEvent> {
    if events == [] then []
    else
      var last := events[|events| - 1];
      Of(events[..|events| - 1], scope) + if last.scope == scope then [last] else []
  }

  /** Stop, resume, stop, resume, ... starting with a stop. */
  ghost predicate Alternates(events: seq<ControlEvent>) {
    forall i :: 0 <= i < |events| ==> events[i].action == if i % 2 == 0 then Stop else Resume
  }

  /** The log and the tables tell the same story. */
  ghost predicate Faithful(d: Database) {
    && d.revision == |d.events|
    && (forall i :: 0 <= i < |d.events| ==> d.events[i].revision == i + 1)
    && (forall i :: 0 <= i < |d.events| ==> d.events[i].state == d.events[i].action.Wanted())
    && (forall s :: s in d.rows ==> d.rows[s].state == Replay(d.events, s) && 0 <= d.rows[s].revision <= d.revision)
    && (forall i :: 0 <= i < |d.events| ==> d.events[i].scope in d.rows)
    && (forall s :: s in d.rows ==> s == GLOBAL || s == TRADE || APP_PREFIX <= s)
    && GLOBAL in d.rows && TRADE in d.rows
  }

  /** Each scope's own events alternate, and their number says where the scope stands. */
  ghost predicate Alternating(d: Database) {
    forall s :: Alternates(Of(d.events, s))
                && (Replay(d.events, s) == Stopped <==> |Of(d.events, s)| % 2 == 1)
  }

  lemma ScopesAre(g: Registry)
    ensures forall s :: s in g.Scopes() <==> g.Has(s)
  {
    forall s ensures s in g.Scopes() <==> g.Has(s) {
      if APP_PREFIX <= s && s[|APP_PREFIX|..] in g.apps {
        assert s == APP_PREFIX + s[|APP_PREFIX|..];
      }
      if a :| a in g.apps && s == APP_PREFIX + a {
        assert s[|APP_PREFIX|..] == a;
      }
    }
  }

  lemma {:induction false} NoEventsAllowed(events: seq<ControlEvent>, s: string)
    requires forall i :: 0 <= i < |events| ==> events[i].scope != s
    ensures Replay(events, s) == Allowed && Of(events, s) == []
  {
    if events != [] {
      NoEventsAllowed(events[..|events| - 1], s);
    }
  }

  lemma ReplaySnoc(events: seq<ControlEvent>, e: ControlEvent, s: string)
    ensures Replay(events + [e], s) == if e.scope == s then e.action.Wanted() else Replay(events, s)
    ensures Of(events + [e], s) == Of(events, s) + if e.scope == s then [e] else []
  {
    assert (events + [e])[..|events|] == events;
  }

  lemma InitialOk(g: Registry, now: int)
    ensures Faithful(Initial(g, now)) && Alternating(Initial(g, now))
  {
    ScopesAre(g);
    forall s ensures Replay([], s) == Allowed && Of([], s) == [] {
    }
  }

  lemma AddScopesOk(g: Registry, d: Database, now: int)
    requires Faithful(d) && Alternating(d)
    ensures Faithful(AddScopes(g, d, now)) && Alternating(AddScopes(g, d, now))
    ensures g.Scopes() <= AddScopes(g, d, now).rows.Keys && d.rows.Keys <= AddScopes(g, d, now).rows.Keys
    ensures forall s :: s in d.rows ==> AddScopes(g, d, now).rows[s] == d.rows[s]
  {
    ScopesAre(g);
    var r := AddScopes(g, d, now);
    forall s | s in r.rows && s !in d.rows ensures r.rows[s].state == Replay(d.events, s) {
      NoEventsAllowed(d.events, s);
    }
  }

  lemma ApplyOk(g: Registry, d: Database, c: Change)
    requires Faithful(d) && Alternating(d)
    ensures Faithful(Apply(g, d, c)) && Alternating(Apply(g, d, c))
  {
    hide Replay, Of, Registry.Scopes;
    if Commits(g, d, c) {
      var r := Apply(g, d, c);
      var e := r.events[|d.events|];
      forall s ensures Replay(r.events, s) == (if c.scope == s then e.action.Wanted() else Replay(d.events, s)) {
        ReplaySnoc(d.events, e, s);
      }
      forall s
        ensures Alternates(Of(r.events, s)) && (Replay(r.events, s) == Stopped <==> |Of(r.events, s)| % 2 == 1)
      {
        ReplaySnoc(d.events, e, s);
        assert Alternates(Of(d.events, s));
      }
    }
  }

  /** Every reachable database is faithful to its log, and the log alternates scope by scope. */
  lemma {:induction false} RunOk(g: Registry, now: int, steps: seq<Step>, n: nat)
    requires n <= |steps|
    ensures Faithful(Run(g, now, steps, n)) && Alternating(Run(g, now, steps, n))
  {
    hide Faithful, Alternating, Apply, AddScopes;
    if n == 0 {
      InitialOk(g, now);
    } else {
      RunOk(g, now, steps, n - 1);
      var d := Run(g, now, steps, n - 1);
      match steps[n - 1]
      case Opened(h, at) => AddScopesOk(h, d, at);
      case Applied(h, c) => ApplyOk(h, d, c);
    }
  }

  /**
   Replay: in every run by any number of stores the event revisions are exactly
   1..revision, each scope's events alternate stop and resume starting with a
   stop, and folding the events over "allowed" gives every stored state.
   */
  lemma LogReplays(g: Registry, now: int, steps: seq<Step>, n: nat)
    requires n <= |steps|
    ensures var d := Run(g, now, steps, n);
      && |d.events| == d.revision
      && (forall i :: 0 <= i < |d.events| ==> d.events[i].revision == i + 1)
      && (forall s :: Alternates(Of(d.events, s)))
      && (forall s :: s in d.rows ==> d.rows[s].state == Replay(d.events, s))
  {
    hide Run, Replay, Of;
    RunOk(g, now, steps, n);
  }

  /** A process trusts a reachable database exactly when it holds every scope the process is configured for. */
  lemma ReachableValidates(g: Registry, now: int, steps: seq<Step>, n: nat, h: Registry)
    requires n <= |steps|
    ensures Validates(h, Run(g, now, steps, n)) <==> h.Scopes() <= Run(g, now, steps, n).rows.Keys
  {
    hide Run, Replay, Of;
    RunOk(g, now, steps, n);
    ScopesAre(h);
  }

  lemma {:induction false} RevisionsGrow(g: Registry, now: int, steps: seq<Step>, m: nat, n: nat)
    requires m <= n <= |steps|
    ensures Run(g, now, steps, m).revision <= Run(g, now, steps, n).revision
  {
    if m < n {
      RevisionsGrow(g, now, steps, m, n - 1);
    }
  }

  lemma ChangeMovesRevision(g: Registry, now: int, steps: seq<Step>, n: nat)
    requires n < |steps| && ChangedAt(g, now, steps, n)
    ensures Run(g, now, steps, n).revision == steps[n].change.expected
    ensures Run(g, now, steps, n + 1).revision == steps[n].change.expected + 1
  {
    hide Registry.Scopes, Validates, ParseAction, GoodReason;
  }

  /** Of all the calls that share an expected revision, at most one changes anything. */
  lemma OneWriterPerRevision(g: Registry, now: int, steps: seq<Step>, i: nat, j: nat)
    requires i < |steps| && j < |steps|
    requires ChangedAt(g, now, steps, i) && ChangedAt(g, now, steps, j)
    requires steps[i].change.expected == steps[j].change.expected
    ensures i == j
  {
    hide Run, ChangedAt;
    ChangeMovesRevision(g, now, steps, i);
    ChangeMovesRevision(g, now, steps, j);
    if i < j {
      RevisionsGrow(g, now, steps, i + 1, j);
    } else if j < i {
      RevisionsGrow(g, now, steps, j + 1, i);
    }
  }

  /** How many of the first n steps committed a change. */
  function Committed(g: Registry, now: int, steps: seq<Step>, n: nat): nat
    requires n <= |steps|
  {
    if n == 0 then 0 else Committed(g, now, steps, n - 1) + if ChangedAt(g, now, steps, n - 1) then 1 else 0
  }

  /** The revision counts the changes that were committed, and nothing else. */
  lemma {:induction false} RevisionCountsChanges(g: Registry, now: int, steps: seq<Step>, n: nat)
    requires n <= |steps|
    ensures Run(g, now, steps, n).revision == Committed(g, now, steps, n)
  {
    hide Validates, Refusal;
    if n > 0 {
      RevisionCountsChanges(g, now, steps, n - 1);
    }
  }

  /** The record that an event leaves behind. */
  function RecordOf(e: ControlEvent): Record { Record(e.state, e.revision, e.at, e.reason) }

  /** Every scope that was ever changed stands as its last event says. */
  ghost predicate StandsAsLogged(d: Database) {
    forall s :: s in d.rows && Of(d.events, s) != [] ==>
      d.rows[s] == RecordOf(Of(d.events, s)[|Of(d.events, s)| - 1])
  }

  lemma {:induction false} RowsAreLastEvents(g: Registry, now: int, steps: seq<Step>, n: nat)
    requires n <= |steps|
    ensures StandsAsLogged(Run(g, now, steps, n))
  {
    hide StandsAsLogged, Apply, AddScopes, Faithful, Alternating;
    if n == 0 {
      InitialStands(g, now);
    } else {
      RowsAreLastEvents(g, now, steps, n - 1);
      var d := Run(g, now, steps, n - 1);
      RunOk(g, now, steps, n - 1);
      match steps[n - 1]
      case Opened(h, at) => AddScopesStands(h, d, at);
      case Applied(h, c) => ApplyStands(h, d, c);
    }
  }

  lemma InitialStands(g: Registry, now: int)
    ensures StandsAsLogged(Initial(g, now))
  {
    assert forall s :: Of([], s) == [];
  }

  lemma AddScopesStands(g: Registry, d: Database, now: int)
    requires StandsAsLogged(d) && Faithful(d)
    ensures StandsAsLogged(AddScopes(g, d, now))
  {
    hide Of, Replay, Registry.Scopes;
    var r := AddScopes(g, d, now);
    forall s | s in r.rows && s !in d.rows ensures Of(r.events, s) == [] {
      NoEventsAllowed(d.events, s);
    }
  }

  lemma ApplyStands(g: Registry, d: Database, c: Change)
    requires StandsAsLogged(d)
    ensures StandsAsLogged(Apply(g, d, c))
  {
    hide Of, Refusal, Validates;
    if Commits(g, d, c) {
      var r := Apply(g, d, c);
      forall s ensures Of(r.events, s) == Of(d.events, s) + if c.scope == s then [r.events[|d.events|]] else [] {
        ReplaySnoc(d.events, r.events[|d.events|], s);
      }
    }
  }

  // ---------------------------------------------------------------- what a call does, exactly

  /** What a process asks of a call: its own scope, one of two actions, a reason that fits, good tables, no conflict. */
  predicate Proper(g: Registry, d: Database, c: Change) {
    && g.Has(c.scope) && (c.action == "stop" || c.action == "resume") && 1 <= |c.reason| <= 500
    && Validates(g, d) && c.expected == d.revision
  }

  /** The state a call asks for. */
  function Desired(c: Change): ControlState { if c.action == "stop" then Stopped else Allowed }

  /** The record and the event of a call that moves its scope, at this revision. */
  function RecordFor(c: Change, revision: int): Record { Record(Desired(c), revision, c.now, c.reason) }

  function EventFor(c: Change, revision: int): ControlEvent {
    ControlEvent(c.scope, if c.action == "stop" then Stop else Resume, Desired(c), revision, c.now, c.reason)
  }

  /** The call is proper and its scope does not stand as asked. */
  predicate Changes(g: Registry, d: Database, c: Change) {
    Proper(g, d, c) && c.scope in d.rows && d.rows[c.scope].state != Desired(c)
  }

  /**
   A stop or a resume is accepted exactly when it is proper, and leaves its scope as
   asked for. One that changes something adds one revision, one record and one event;
   any other leaves the tables alone.
   */
  lemma AppliesExactly(g: Registry, d: Database, c: Change)
    ensures Answer(g, d, c).Ok? <==> Proper(g, d, c)
    ensures Changes(g, d, c) ==>
              Apply(g, d, c) == Database(d.revision + 1, d.rows[c.scope := RecordFor(c, d.revision + 1)],
                                         d.events + [EventFor(c, d.revision + 1)])
    ensures !Changes(g, d, c) ==> Apply(g, d, c) == d
    ensures Proper(g, d, c) ==>
              && c.scope in Apply(g, d, c).rows && Apply(g, d, c).rows[c.scope].state == Desired(c)
              && Answer(g, d, c) == Ok(Apply(g, d, c).rows[c.scope])
  {
    ScopesAre(g);
    hide Registry.Scopes, Registry.Has;
  }

  /** Why a call is refused: the first of the demands it does not meet. */
  lemma RefusedExactly(g: Registry, d: Database, c: Change)
    ensures var known, meant, said :=
              g.Has(c.scope), c.action == "stop" || c.action == "resume", 1 <= |c.reason| <= 500;
      && (Answer(g, d, c) == Err(UnknownScope) <==> !known)
      && (Answer(g, d, c) == Err(UnknownAction) <==> known && !meant)
      && (Answer(g, d, c) == Err(BadReason) <==> known && meant && !said)
      && (Answer(g, d, c) == Err(InvalidSchema) <==> known && meant && said && !Validates(g, d))
      && (Answer(g, d, c) == Err(Conflict) <==>
            known && meant && said && Validates(g, d) && c.expected != d.revision)
  {
    ScopesAre(g);
    hide Registry.Scopes, Registry.Has, Validates;
  }

  /** The calls, among the first n steps, that changed something, in order. */
  function Changed(g: Registry, now: int, steps: seq<Step>, n: nat): seq<Change>
    requires n <= |steps|
  {
    if n == 0 then []
    else
      var s := steps[n - 1];
      Changed(g, now, steps, n - 1)
      + if s.Applied? && Changes(s.registry, Run(g, now, steps, n - 1), s.change) then [s.change] else []
  }

  /** In every run the log is the list of the calls that changed something, each at its place in the order. */
  lemma {:induction false} EventsAreChanges(g: Registry, now: int, steps: seq<Step>, n: nat)
    requires n <= |steps|
    ensures var d, cs := Run(g, now, steps, n), Changed(g, now, steps, n);
      && |d.events| == |cs| == d.revision
      && forall i :: 0 <= i < |cs| ==> d.events[i] == EventFor(cs[i], i + 1)
  {
    hide Changes, Apply, EventFor, Registry.Scopes;
    if n > 0 {
      EventsAreChanges(g, now, steps, n - 1);
      var s := steps[n - 1];
      if s.Applied? {
        AppliesExactly(s.registry, Run(g, now, steps, n - 1), s.change);
      }
    }
  }

  // ---------------------------------------------------------------- scopes nobody has touched

  /** The record a scope starts with: at installation, or when a process that knows it first starts up. */
  function Born(g: Registry, now: int, steps: seq<Step>, n: nat, scope: string): Option<Record>
    requires n <= |steps|
  {
    if n == 0 then if g.Has(scope) then Some(Record(Allowed, 0, now, "install default")) else None
    else
      var earlier, s := Born(g, now, steps, n - 1, scope), steps[n - 1];
      if earlier.None? && s.Opened? && s.registry.Has(scope)
      then Some(Record(Allowed, |Changed(g, now, steps, n - 1)|, s.now, "app config default"))
      else earlier
  }

  /** In every run the scopes are those some process was configured for, and an untouched one is as it was born. */
  lemma {:induction false} UntouchedAreAsBorn(g: Registry, now: int, steps: seq<Step>, n: nat, scope: string)
    requires n <= |steps|
    ensures var d, b := Run(g, now, steps, n), Born(g, now, steps, n, scope);
      && (scope in d.rows <==> b.Some?)
      && (scope in d.rows && Of(d.events, scope) == [] ==> d.rows[scope] == b.value)
  {
    hide Changes, Apply, Of, Registry.Scopes, Registry.Has;
    if n == 0 {
      ScopesAre(g);
    } else {
      UntouchedAreAsBorn(g, now, steps, n - 1, scope);
      var d := Run(g, now, steps, n - 1);
      match steps[n - 1]
      case Opened(h, at) =>
        ScopesAre(h);
        EventsAreChanges(g, now, steps, n - 1);
      case Applied(h, c) => TouchesOne(h, d, c, scope);
    }
  }

  lemma TouchesOne(g: Registry, d: Database, c: Change, scope: string)
    ensures scope in Apply(g, d, c).rows <==> scope in d.rows
    ensures Of(Apply(g, d, c).events, scope) == [] ==>
              Of(d.events, scope) == [] && (scope in d.rows ==> Apply(g, d, c).rows[scope] == d.rows[scope])
  {
    hide Of, Registry.Has, Registry.Scopes, Apply;
    AppliesExactly(g, d, c);
    if Changes(g, d, c) {
      ReplaySnoc(d.events, EventFor(c, d.revision + 1), scope);
    }
  }
}
