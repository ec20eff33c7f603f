/**
 From a committed stop to a refused request: the published policy file, the
 broker's metadata-cached reader, and the gate in front of every read.
 */
module Publication {
  import opened Prelude
  import opened ControlLog
  import FairAdmission

  /** Which app each lower-cased caller belongs to; a caller belongs to at most one. */
  datatype Apps = Apps(registry: Registry, appOf: map<string, string>) {
    predicate Valid() { forall c :: c in appOf ==> appOf[c] in registry.apps }

    function AppFor(caller: string): Option<string> {
      var name := FairAdmission.Lower(caller);
      if name in appOf then Some(appOf[name]) else None
    }
  }

  // ---------------------------------------------------------------- the file

  const POLICY_SCHEMA: int := 1

  /** What the file can hold: a parsed policy, or something that is not one. */
  datatype Content =
    | Policy(schema: int, revision: int, globalState: ControlState, apps: map<string, ControlState>)
    | Garbage(text: string)

  /** A file with the metadata the operating system reports for it. */
  datatype File = File(meta: int, content: Content)

  function Payload(g: Registry, d: Database): Content
    requires Validates(g, d)
  {
    ScopesAre(g);
    Policy(POLICY_SCHEMA, d.revision, d.rows[GLOBAL].state,
           map a | a in g.apps :: AppState(g, d, a))
  }

  function AppState(g: Registry, d: Database, app: string): ControlState
    requires Validates(g, d) && app in g.apps
  {
    ScopesAre(g);
    assert AppScope(app)[|APP_PREFIX|..] == app && g.Has(AppScope(app));
    d.rows[AppScope(app)].state
  }

  /** How the atomic replacement went; when it failed, whether the old file could be removed. */
  datatype Publish = Written(meta: int) | WriteFailed(removed: bool)

  /** The database and the file beside it. */
  datatype Shared = Shared(db: Database, file: Option<File>)

  function Published(g: Registry, d: Database, previous: Option<File>, p: Publish): Option<File>
    requires Validates(g, d)
  {
    match p
    case Written(meta) => Some(File(meta, Payload(g, d)))
    case WriteFailed(removed) => if removed then None else previous
  }

  /** A change by one process leaves the tables good for every other. */
  lemma AppliedValidates(h: Registry, g: Registry, d: Database, c: Change)
    requires Validates(h, d)
    ensures Validates(h, Apply(g, d, c))
  {
  }

  /** So does a process that starts up with more apps, and what others published stays current. */
  lemma OpenedValidates(h: Registry, g: Registry, d: Database, now: int)
    requires Validates(h, d)
    ensures Validates(h, AddScopes(g, d, now)) && Payload(h, AddScopes(g, d, now)) == Payload(h, d)
  {
    hide Registry.Scopes;
    ScopesAre(g);
    ScopesAre(h);
  }

  /** Commit, then publish; a call that commits nothing publishes nothing. */
  function ApplyAndPublish(g: Registry, s: Shared, c: Change, p: Publish): Shared {
    if !Commits(g, s.db, c) then s
    else
      AppliedValidates(g, g, s.db, c);
      Shared(Apply(g, s.db, c), Published(g, Apply(g, s.db, c), s.file, p))
  }

  /**
   Start up on an existing database: add missing scopes, check the tables, publish;
   a failure leaves the file alone.
   */
  function OpenAndPublish(g: Registry, s: Shared, now: int, p: Publish): Shared {
    var d := AddScopes(g, s.db, now);
    Shared(d, if Validates(g, d) && p.Written? then Some(File(p.meta, Payload(g, d))) else s.file)
  }

  /** What the caller gets back: a change that could not be published is reported, though it stands. */
  function Reply(g: Registry, d: Database, c: Change, p: Publish): Result<Record, Error> {
    if Commits(g, d, c) && p.WriteFailed? then Err(NotPublished) else Answer(g, d, c)
  }

  /** What a process with this configuration would publish of the database now. */
  ghost predicate IsPayload(g: Registry, d: Database, content: Content) {
    Validates(g, d) && content == Payload(g, d)
  }

  /** The file is absent, or says what the database says now, for the apps of the process that wrote it. */
  ghost predicate Coherent(s: Shared) {
    s.file.Some? ==> exists g :: IsPayload(g, s.db, s.file.value.content)
  }

  /**
   Fail-closed publication, exactly: after a change by any process the file is
   absent or current if and only if nothing was committed, the replacement was
   written, the stale file was removed, or there was none.
   */
  lemma CoherentExactly(g: Registry, s: Shared, c: Change, p: Publish)
    requires Coherent(s)
    ensures Coherent(ApplyAndPublish(g, s, c, p)) <==>
              !Commits(g, s.db, c) || p.Written? || p.removed || s.file.None?
  {
    hide Registry.Scopes, Validates;
    if Commits(g, s.db, c) {
      assert Validates(g, s.db) by { CommitsValidates(g, s.db, c); }
      AppliedValidates(g, g, s.db, c);
      if p.Written? {
        assert IsPayload(g, Apply(g, s.db, c), Payload(g, Apply(g, s.db, c)));
      } else if !p.removed && s.file.Some? {
        var h :| IsPayload(h, s.db, s.file.value.content);
        PayloadRevision(h, s.db);
        if k :| IsPayload(k, Apply(g, s.db, c), s.file.value.content) {
          PayloadRevision(k, Apply(g, s.db, c));
          assert false;
        }
      }
    }
  }

  lemma CommitsValidates(g: Registry, d: Database, c: Change)
    requires Commits(g, d, c)
    ensures Validates(g, d)
  {
  }

  lemma PayloadRevision(g: Registry, d: Database)
    requires Validates(g, d)
    ensures Payload(g, d).Policy? && Payload(g, d).revision == d.revision
  {
  }

  lemma OpenKeepsCoherent(g: Registry, s: Shared, now: int, p: Publish)
    requires Coherent(s)
    ensures Coherent(OpenAndPublish(g, s, now, p))
  {
    hide Registry.Scopes, Validates, AddScopes;
    var after := OpenAndPublish(g, s, now, p);
    if Validates(g, after.db) && p.Written? {
      assert IsPayload(g, after.db, after.file.value.content);
    } else if s.file.Some? {
      var h :| IsPayload(h, s.db, s.file.value.content);
      OpenedValidates(h, g, s.db, now);
      assert IsPayload(h, after.db, after.file.value.content);
    }
  }

  // ---------------------------------------------------------------- the reader

  /** What the reader remembers: the metadata and policy of the last file it accepted. */
  datatype Reader = Reader(meta: Option<int>, policy: Option<Content>)

  predicate Acceptable(g: Registry, c: Content) {
    c.Policy? && c.schema == POLICY_SCHEMA && c.revision >= 0 && c.apps.Keys == g.apps
  }

  function ReadFile(g: Registry, r: Reader, file: Option<File>): (Reader, Option<Content>) {
    match file
    case None => (r, None)
    case Some(f) =>
      if r.meta == Some(f.meta) && r.policy.Some? then (r, r.policy)
      else if Acceptable(g, f.content) then (Reader(Some(f.meta), Some(f.content)), Some(f.content))
      else (r, None)
  }

  datatype Decision = Let(revision: int) | Refuse(scope: string, revision: int) | Unavailable

  function Decide(apps: Apps, policy: Option<Content>, caller: string): Decision
    requires apps.Valid() && (policy.Some? ==> Acceptable(apps.registry, policy.value))
  {
    match policy
    case None => Unavailable
    case Some(p) =>
      if p.globalState == Stopped then Refuse(GLOBAL, p.revision)
      else
        match apps.AppFor(caller)
        case Some(app) => if p.apps[app] == Stopped then Refuse(AppScope(app), p.revision) else Let(p.revision)
        case None => Let(p.revision)
  }

  /** A reader without a cache. */
  function Uncached(apps: Apps, file: Option<File>, caller: string): Decision
    requires apps.Valid()
  {
    var readable := file.Some? && Acceptable(apps.registry, file.value.content);
    Decide(apps, if readable then Some(file.value.content) else None, caller)
  }

  /** Metadata identifies content: everything ever written, by its metadata. */
  type Versions = map<int, Content>

  ghost predicate Known(versions: Versions, file: Option<File>) {
    file.Some? ==> file.value.meta in versions && versions[file.value.meta] == file.value.content
  }

  /** What the reader remembers is an acceptable version that was really written. */
  ghost predicate ReaderOk(g: Registry, versions: Versions, r: Reader) {
    r.policy.Some? ==>
      && Acceptable(g, r.policy.value)
      && r.meta.Some? && r.meta.value in versions && versions[r.meta.value] == r.policy.value
  }

  /** The cached reader decides as an uncached one would. */
  lemma CacheIsTransparent(apps: Apps, versions: Versions, r: Reader, file: Option<File>, caller: string)
    requires apps.Valid() && Known(versions, file) && ReaderOk(apps.registry, versions, r)
    ensures ReaderOk(apps.registry, versions, ReadFile(apps.registry, r, file).0)
    ensures var policy := ReadFile(apps.registry, r, file).1;
      (policy.Some? ==> Acceptable(apps.registry, policy.value))
            && Decide(apps, policy, caller) == Uncached(apps, file, caller)
  {
  }

  // ---------------------------------------------------------------- end to end

  /**
   The whole path: database and file, every version written so far, the reader,
   the callers let through to cache, fetch and admission, and the refusals.
   */
  datatype Whole = Whole(shared: Shared, versions: Versions, reader: Reader, passed: seq<string>, refused: seq<string>)

  /** A change or a start-up by a process with its own configuration, or a request at the broker. */
  datatype Step =
    | Change(process: Registry, change: ControlLog.Change, publish: Publish)
    | Open(process: Registry, now: int, publish: Publish)
    | Get(caller: string)

  /** Metadata of its own: if it was ever used before, then for the same content. */
  ghost predicate FreshMeta(versions: Versions, g: Registry, d: Database, p: Publish) {
    p.Written? && p.meta in versions && Validates(g, d) ==> versions[p.meta] == Payload(g, d)
  }

  /** What is written gets metadata of its own; a change that cannot be written takes the old file away. */
  ghost predicate FailsClosed(w: Whole, s: Step) {
    match s
    case Change(g, c, p) =>
      Commits(g, w.shared.db, c) ==>
        FreshMeta(w.versions, g, Apply(g, w.shared.db, c), p) && (p.WriteFailed? ==> p.removed)
    case Open(g, now, p) => FreshMeta(w.versions, g, AddScopes(g, w.shared.db, now), p)
    case Get(_) => true
  }

  /** Remember every version of the file. */
  function Noted(versions: Versions, file: Option<File>): Versions {
    if file.Some? then versions[file.value.meta := file.value.content] else versions
  }

  function Next(apps: Apps, w: Whole, s: Step): Whole
    requires apps.Valid() && (w.reader.policy.Some? ==> Acceptable(apps.registry, w.reader.policy.value))
  {
    match s
    case Change(g, c, p) =>
      var after := ApplyAndPublish(g, w.shared, c, p);
      w.(shared := after, versions := Noted(w.versions, after.file))
    case Open(g, now, p) =>
      var after := OpenAndPublish(g, w.shared, now, p);
      w.(shared := after, versions := Noted(w.versions, after.file))
    case Get(caller) =>
      var (r, policy) := ReadFile(apps.registry, w.reader, w.shared.file);
      match Decide(apps, policy, caller)
      case Let(_) => w.(reader := r, passed := w.passed + [caller])
      case _ => w.(reader := r, refused := w.refused + [caller])
  }

  ghost predicate WholeOk(apps: Apps, w: Whole) {
    && apps.Valid() && Validates(apps.registry, w.shared.db) && Coherent(w.shared)
    && Known(w.versions, w.shared.file) && ReaderOk(apps.registry, w.versions, w.reader)
  }

  /** The operator has stopped this caller: everything, or its app. */
  predicate StoppedFor(apps: Apps, d: Database, caller: string)
    requires apps.Valid() && Validates(apps.registry, d)
  {
    ScopesAre(apps.registry);
    d.rows[GLOBAL].state == Stopped
    || (apps.AppFor(caller).Some? && AppState(apps.registry, d, apps.AppFor(caller).value) == Stopped)
  }

  lemma NextOk(apps: Apps, w: Whole, s: Step)
    requires WholeOk(apps, w) && FailsClosed(w, s)
    ensures WholeOk(apps, Next(apps, w, s))
  {
    hide Registry.Scopes, Registry.Has, Validates, Coherent, Acceptable, Payload, Commits;
    match s
    case Change(g, c, p) =>
      AppliedValidates(apps.registry, g, w.shared.db, c);
      CoherentExactly(g, w.shared, c, p);
      if Commits(g, w.shared.db, c) {
        CommitsValidates(g, w.shared.db, c);
        AppliedValidates(g, g, w.shared.db, c);
      }
      NotedKeeps(apps, w, Next(apps, w, s));
    case Open(g, now, p) =>
      OpenedValidates(apps.registry, g, w.shared.db, now);
      OpenKeepsCoherent(g, w.shared, now, p);
      NotedKeeps(apps, w, Next(apps, w, s));
    case Get(caller) =>
      CacheIsTransparent(apps, w.versions, w.reader, w.shared.file, caller);
  }

  /** A new version under metadata of its own takes nothing back. */
  lemma NotedKeeps(apps: Apps, w: Whole, r: Whole)
    requires Known(w.versions, w.shared.file) && ReaderOk(apps.registry, w.versions, w.reader)
    requires r.versions == Noted(w.versions, r.shared.file) && r.reader == w.reader
    requires r.shared.file.Some? && r.shared.file.value.meta in w.versions ==>
               w.versions[r.shared.file.value.meta] == r.shared.file.value.content
    ensures Known(r.versions, r.shared.file) && ReaderOk(apps.registry, r.versions, r.reader)
  {
  }

  /** The states a run goes through, when every publication it makes fails closed. */
  ghost predicate ClosedRun(apps: Apps, w: Whole, steps: seq<Step>)
    requires WholeOk(apps, w)
    decreases |steps|
  {
    if steps == [] then true
    else if !FailsClosed(w, steps[0]) then false
    else
      NextOk(apps, w, steps[0]);
      ClosedRun(apps, Next(apps, w, steps[0]), steps[1..])
  }

  ghost function RunFrom(apps: Apps, w: Whole, steps: seq<Step>): (r: Whole)
    requires WholeOk(apps, w) && ClosedRun(apps, w, steps)
    ensures WholeOk(apps, r)
    decreases |steps|
  {
    if steps == [] then w
    else
      NextOk(apps, w, steps[0]);
      RunFrom(apps, Next(apps, w, steps[0]), steps[1..])
  }

  /**
   A read is let through only when a current policy says so: the file is there, was
   written for the broker's own apps, and everything and the caller's app are
   allowed in the database at that moment.
   */
  lemma LetThroughMeansAllowed(apps: Apps, w: Whole, caller: string)
    requires WholeOk(apps, w)
    ensures Next(apps, w, Get(caller)).passed != w.passed <==>
              && w.shared.file.Some? && Acceptable(apps.registry, w.shared.file.value.content)
              && !StoppedFor(apps, w.shared.db, caller)
    ensures Next(apps, w, Get(caller)).passed == w.passed
            <==> Next(apps, w, Get(caller)).refused == w.refused + [caller]
    ensures Next(apps, w, Get(caller)).shared == w.shared
  {
    hide Registry.Scopes, Registry.Has;
    CacheIsTransparent(apps, w.versions, w.reader, w.shared.file, caller);
    if w.shared.file.Some? {
      var g :| IsPayload(g, w.shared.db, w.shared.file.value.content);
      PayloadAcceptable(apps.registry, g, w.shared.db);
    }
  }

  /** A published policy is acceptable exactly to brokers of the same apps, and then it is their own. */
  lemma PayloadAcceptable(h: Registry, g: Registry, d: Database)
    requires Validates(g, d) && Validates(h, d)
    ensures Acceptable(h, Payload(g, d)) <==> g.apps == h.apps
    ensures g.apps == h.apps ==> Payload(g, d) == Payload(h, d)
  {
    assert Payload(g, d).apps.Keys == g.apps;
  }

  /**
   End to end: after any run in which every publication was written or failed
   closed, a caller the operator has stopped is refused, with nothing passed on
   to the cache, a fetch or admission.
   */
  lemma StopIsEnforced(apps: Apps, w: Whole, steps: seq<Step>, caller: string)
    requires WholeOk(apps, w) && ClosedRun(apps, w, steps)
    requires StoppedFor(apps, RunFrom(apps, w, steps).shared.db, caller)
    ensures var r := RunFrom(apps, w, steps);
      && Next(apps, r, Get(caller)).passed == r.passed
      && Next(apps, r, Get(caller)).refused == r.refused + [caller]
  {
    hide RunFrom, ClosedRun, Next, StoppedFor, WholeOk;
    LetThroughMeansAllowed(apps, RunFrom(apps, w, steps), caller);
  }

  /** The scope decides about this caller. */
  ghost predicate Covers(apps: Apps, scope: string, caller: string) {
    scope == GLOBAL || (apps.AppFor(caller).Some? && scope == AppScope(apps.AppFor(caller).value))
  }

  /** An accepted stop of the caller's app, or of everything, by any process, is a stop for that caller. */
  lemma CommittedStopStops(apps: Apps, g: Registry, s: Shared, c: ControlLog.Change, p: Publish, caller: string)
    requires apps.Valid() && Validates(apps.registry, s.db) && Refusal(g, s.db, c).None?
    requires c.action == "stop" && Covers(apps, c.scope, caller)
    ensures Validates(apps.registry, ApplyAndPublish(g, s, c, p).db)
    ensures StoppedFor(apps, ApplyAndPublish(g, s, c, p).db, caller)
  {
    hide Registry.Scopes;
    AppliedValidates(apps.registry, g, s.db, c);
    ScopesAre(apps.registry);
    ScopesAre(g);
  }

  ghost predicate InForce(w: Whole, scope: string) {
    scope in w.shared.db.rows && w.shared.db.rows[scope].state == Stopped
  }

  predicate Resumes(s: Step, scope: string) {
    s.Change? && s.change.scope == scope && s.change.action == "resume"
  }

  lemma InForceStops(apps: Apps, w: Whole, scope: string, caller: string)
    requires WholeOk(apps, w) && InForce(w, scope) && Covers(apps, scope, caller)
    ensures StoppedFor(apps, w.shared.db, caller)
  {
    ScopesAre(apps.registry);
  }

  /** Only a resume of the scope itself ends its stop. */
  lemma AppliedRow(g: Registry, d: Database, c: ControlLog.Change, scope: string)
    requires scope in d.rows && d.rows[scope].state == Stopped
    requires !(c.scope == scope && c.action == "resume")
    ensures scope in Apply(g, d, c).rows && Apply(g, d, c).rows[scope].state == Stopped
  {
    hide Registry.Scopes, Validates;
  }

  /** One step that does not resume the scope keeps its stop, and lets the caller nowhere. */
  lemma StopStep(apps: Apps, w: Whole, s: Step, scope: string, caller: string)
    requires WholeOk(apps, w) && InForce(w, scope) && Covers(apps, scope, caller) && !Resumes(s, scope)
    ensures InForce(Next(apps, w, s), scope)
    ensures multiset(Next(apps, w, s).passed)[caller] == multiset(w.passed)[caller]
  {
    hide Registry.Scopes, Validates, Coherent;
    match s
    case Change(g, c, p) => AppliedRow(g, w.shared.db, c, scope);
    case Open(g, now, p) =>
    case Get(other) =>
      InForceStops(apps, w, scope, caller);
      LetThroughMeansAllowed(apps, w, caller);
      assert other != caller ==> multiset([other])[caller] == 0;
  }

  /**
   A stop holds until it is lifted: over any run that fails closed and never
   resumes the scope, none of the requests of a caller it covers, however many
   and however interleaved, is passed on.
   */
  lemma {:induction false} StopLasts(apps: Apps, w: Whole, steps: seq<Step>, scope: string, caller: string)
    requires WholeOk(apps, w) && ClosedRun(apps, w, steps)
    requires InForce(w, scope) && Covers(apps, scope, caller)
    requires forall n :: 0 <= n < |steps| ==> !Resumes(steps[n], scope)
    ensures InForce(RunFrom(apps, w, steps), scope)
    ensures multiset(RunFrom(apps, w, steps).passed)[caller] == multiset(w.passed)[caller]
    decreases |steps|
  {
    hide Coherent, Known, Validates, Acceptable, Next, InForce, Covers, Resumes, FailsClosed;
    if steps != [] {
      NextOk(apps, w, steps[0]);
      StopStep(apps, w, steps[0], scope, caller);
      StopLasts(apps, Next(apps, w, steps[0]), steps[1..], scope, caller);
    }
  }

  /**
   From a stop accepted by any process on, nothing of the callers it covers is
   passed until somebody resumes the scope, whatever processes with whatever
   configurations start up, change other scopes or publish meanwhile.
   */
  lemma StopThenRefuse(apps: Apps, w: Whole, g: Registry, c: ControlLog.Change, p: Publish, steps: seq<Step>,
        caller: string)
    requires WholeOk(apps, w) && FailsClosed(w, Step.Change(g, c, p))
    requires Refusal(g, w.shared.db, c).None? && c.action == "stop" && Covers(apps, c.scope, caller)
    requires forall n :: 0 <= n < |steps| ==> !Resumes(steps[n], c.scope)
    ensures var after := Next(apps, w, Step.Change(g, c, p));
      && WholeOk(apps, after)
      && (ClosedRun(apps, after, steps) ==>
            multiset(RunFrom(apps, after, steps).passed)[caller] == multiset(w.passed)[caller])
  {
    hide Coherent, Known, Validates, Acceptable, InForce, Covers, Resumes, Refusal, FailsClosed, RunFrom, ClosedRun;
    var after := Next(apps, w, Step.Change(g, c, p));
    NextOk(apps, w, Step.Change(g, c, p));
    CommitInForce(apps, w, g, c, p);
    if ClosedRun(apps, after, steps) {
      StopLasts(apps, after, steps, c.scope, caller);
    }
  }

  lemma CommitInForce(apps: Apps, w: Whole, g: Registry, c: ControlLog.Change, p: Publish)
    requires WholeOk(apps, w) && Refusal(g, w.shared.db, c).None? && c.action == "stop"
    ensures InForce(Next(apps, w, Step.Change(g, c, p)), c.scope)
    ensures Next(apps, w, Step.Change(g, c, p)).passed == w.passed
  {
    hide Registry.Scopes, Coherent, Known, ReaderOk, Acceptable;
  }

  // ---------------------------------------------------------------- lifting a stop

  /** Something else than this scope stops the caller: everything, or its app. */
  ghost predicate StoppedOtherwise(apps: Apps, d: Database, scope: string, caller: string) {
    exists s :: s in d.rows && s != scope && Covers(apps, s, caller) && d.rows[s].state == Stopped
  }

  /** An improper call changes nothing, and a proper resume leaves its scope allowed. */
  lemma ResumedRow(apps: Apps, w: Whole, g: Registry, c: ControlLog.Change, p: Publish)
    requires WholeOk(apps, w) && Proper(g, w.shared.db, c) && c.action == "resume"
    ensures var d := Next(apps, w, Step.Change(g, c, p)).shared.db;
      && c.scope in d.rows && d.rows[c.scope].state == Allowed
      && forall s :: s != c.scope ==>
           (s in d.rows <==> s in w.shared.db.rows) && (s in d.rows ==> d.rows[s] == w.shared.db.rows[s])
  {
    hide Registry.Scopes, Registry.Has, Validates, Coherent, Known, ReaderOk, Apply, Commits, RecordFor;
    AppliesExactly(g, w.shared.db, c);
    CommitsAre(g, w.shared.db, c);
  }

  lemma CommitsAre(g: Registry, d: Database, c: ControlLog.Change)
    ensures Commits(g, d, c) <==> Changes(g, d, c)
  {
    ScopesAre(g);
    hide Registry.Scopes, Registry.Has;
  }

  lemma StoppedMeans(apps: Apps, d: Database, scope: string, caller: string)
    requires apps.Valid() && Validates(apps.registry, d) && scope in d.rows && d.rows[scope].state == Allowed
    ensures StoppedFor(apps, d, caller) <==> StoppedOtherwise(apps, d, scope, caller)
  {
    ScopesAre(apps.registry);
    hide Registry.Scopes;
    if StoppedFor(apps, d, caller) {
      var s := if d.rows[GLOBAL].state == Stopped then GLOBAL else AppScope(apps.AppFor(caller).value);
      assert s in d.rows && s != scope && Covers(apps, s, caller) && d.rows[s].state == Stopped;
    }
  }

  /**
   A stop can be lifted: a proper resume of a stopped scope leaves the scope allowed,
   and once the broker's own process has published it, the next request of a caller
   is passed on exactly when nothing else stops that caller.
   */
  lemma ResumeLetsThrough(apps: Apps, w: Whole, g: Registry, c: ControlLog.Change, p: Publish, caller: string)
    requires WholeOk(apps, w) && FailsClosed(w, Step.Change(g, c, p))
    requires Proper(g, w.shared.db, c) && c.action == "resume" && InForce(w, c.scope)
    requires p.Written? && g.apps == apps.registry.apps
    ensures var after := Next(apps, w, Step.Change(g, c, p));
      && c.scope in after.shared.db.rows && after.shared.db.rows[c.scope].state == Allowed
      && (Next(apps, after, Get(caller)).passed == after.passed + [caller] <==>
            !StoppedOtherwise(apps, w.shared.db, c.scope, caller))
  {
    hide Registry.Scopes, Registry.Has, Validates, Coherent, Known, StoppedFor, Covers, Acceptable, Payload, Decide,
         ReadFile, Proper, Apply;
    var s := Step.Change(g, c, p);
    var after := Next(apps, w, s);
    NextOk(apps, w, s);
    ResumedRow(apps, w, g, c, p);
    StoppedMeans(apps, after.shared.db, c.scope, caller);
    assert StoppedOtherwise(apps, after.shared.db, c.scope, caller)
        <==> StoppedOtherwise(apps, w.shared.db, c.scope, caller);
    ResumePublished(apps, w, g, c, p);
    PassedMeans(apps, after, caller);
    LetThroughMeansAllowed(apps, after, caller);
  }

  /** The file after it: there, and good for the broker. */
  lemma ResumePublished(apps: Apps, w: Whole, g: Registry, c: ControlLog.Change, p: Publish)
    requires WholeOk(apps, w) && Proper(g, w.shared.db, c) && c.action == "resume" && InForce(w, c.scope)
    requires p.Written? && g.apps == apps.registry.apps
    ensures var file := Next(apps, w, Step.Change(g, c, p)).shared.file;
      file.Some? && Acceptable(apps.registry, file.value.content)
  {
    hide Registry.Scopes, Registry.Has, Coherent, Known, ReaderOk, Apply, Commits;
    CommitsAre(g, w.shared.db, c);
    AppliedValidates(g, g, w.shared.db, c);
    PayloadAcceptable(g, g, Apply(g, w.shared.db, c));
  }

  lemma PassedMeans(apps: Apps, w: Whole, caller: string)
    requires WholeOk(apps, w)
    ensures Next(apps, w, Get(caller)).passed != w.passed <==>
              Next(apps, w, Get(caller)).passed == w.passed + [caller]
  {
    hide Decide, ReadFile, Validates, Coherent, Known;
    CacheIsTransparent(apps, w.versions, w.reader, w.shared.file, caller);
  }

  /** A process that starts up with good tables and can write publishes what a broker of its apps accepts. */
  lemma OpenPublishes(apps: Apps, w: Whole, g: Registry, now: int, p: Publish)
    requires WholeOk(apps, w) && p.Written?
    ensures var s := Next(apps, w, Open(g, now, p)).shared;
      && Validates(g, s.db) && s.file == Some(File(p.meta, Payload(g, s.db)))
      && Acceptable(g, s.file.value.content)
      && forall r :: r in w.shared.db.rows ==> r in s.db.rows && s.db.rows[r] == w.shared.db.rows[r]
  {
    ScopesAre(g);
    hide Registry.Scopes, Coherent, Known, ReaderOk;
    var d := AddScopes(g, w.shared.db, now);
    assert Validates(g, d) by { OpenedValidatesOwn(apps.registry, g, w.shared.db, now); }
    PayloadAcceptable(g, g, d);
  }

  lemma OpenedValidatesOwn(h: Registry, g: Registry, d: Database, now: int)
    requires Validates(h, d)
    ensures Validates(g, AddScopes(g, d, now))
  {
    ScopesAre(g);
    ScopesAre(h);
  }

  // ---------------------------------------------------------------- what is answered

  /** The scope a refusal names: everything, before the caller's own app. */
  lemma DecisionExactly(apps: Apps, w: Whole, caller: string)
    requires WholeOk(apps, w)
    ensures var d, usable := w.shared.db,
              w.shared.file.Some? && Acceptable(apps.registry, w.shared.file.value.content);
      && GLOBAL in d.rows
      && (Uncached(apps, w.shared.file, caller) == Unavailable <==> !usable)
      && (usable ==>
            match Uncached(apps, w.shared.file, caller)
            case Unavailable => false
            case Let(revision) => revision == d.revision && !StoppedFor(apps, d, caller)
            case Refuse(scope, revision) =>
              && revision == d.revision && scope in d.rows && d.rows[scope].state == Stopped
              && Covers(apps, scope, caller) && (d.rows[GLOBAL].state == Stopped ==> scope == GLOBAL))
  {
    ScopesAre(apps.registry);
    hide Registry.Scopes, Known, ReaderOk;
    if w.shared.file.Some? {
      var g :| IsPayload(g, w.shared.db, w.shared.file.value.content);
      PayloadAcceptable(apps.registry, g, w.shared.db);
    }
  }

  /**
   What a call is answered: the record it left, unless it changed something that could
   not be published, which is reported although the change stands.
   */
  lemma ReplyExactly(g: Registry, s: Shared, c: ControlLog.Change, p: Publish)
    ensures Reply(g, s.db, c, p) == Err(NotPublished) <==> Changes(g, s.db, c) && p.WriteFailed?
    ensures Reply(g, s.db, c, p).Ok? ==>
              && Proper(g, s.db, c) && c.scope in ApplyAndPublish(g, s, c, p).db.rows
              && Reply(g, s.db, c, p).value == ApplyAndPublish(g, s, c, p).db.rows[c.scope]
              && Reply(g, s.db, c, p).value.state == Desired(c)
    ensures Proper(g, s.db, c) && Reply(g, s.db, c, p).Err? ==> Changes(g, s.db, c) && p.WriteFailed?
  {
    hide Registry.Scopes, Registry.Has, Validates, Refusal;
    CommitsAre(g, s.db, c);
    AppliesExactly(g, s.db, c);
    ControlLog.RefusedExactly(g, s.db, c);
  }

  // ---------------------------------------------------------------- when a stop leaks

  /**
   What the gap in publication costs: after a committed stop the next request of a
   caller it covers is passed on exactly when the policy could neither be replaced
   nor removed, and the old one let the caller through.
   */
  lemma StopLeaksExactly(apps: Apps, w: Whole, g: Registry, c: ControlLog.Change, p: Publish, caller: string)
    requires WholeOk(apps, w) && Commits(g, w.shared.db, c) && c.action == "stop"
    requires Covers(apps, c.scope, caller) && FreshMeta(w.versions, g, Apply(g, w.shared.db, c), p)
    ensures var after := Next(apps, w, Step.Change(g, c, p));
      && Validates(apps.registry, after.shared.db) && StoppedFor(apps, after.shared.db, caller)
      && (Next(apps, after, Get(caller)).passed != after.passed <==>
            && p == WriteFailed(false) && w.shared.file.Some?
            && Acceptable(apps.registry, w.shared.file.value.content)
            && !StoppedFor(apps, w.shared.db, caller))
  {
    hide Registry.Scopes, Registry.Has, Decide, StoppedFor, Payload, Validates, Covers, Acceptable, Coherent;
    CommittedStopStops(apps, g, w.shared, c, p, caller);
    var after := Next(apps, w, Step.Change(g, c, p));
    if p == WriteFailed(false) {
      CacheIsTransparent(apps, w.versions, w.reader, w.shared.file, caller);
      LetThroughMeansAllowed(apps, w, caller);
    } else {
      NextOk(apps, w, Step.Change(g, c, p));
      LetThroughMeansAllowed(apps, after, caller);
    }
  }

  /** A new installation: everything allowed, the policy published, nothing read yet. */
  function Installed(apps: Apps, now: int, meta: int): Whole
    requires apps.Valid()
  {
    InitialValidates(apps.registry, now);
    var file := File(meta, Payload(apps.registry, Initial(apps.registry, now)));
    Whole(Shared(Initial(apps.registry, now), Some(file)), map[meta := file.content], Reader(None, None), [], [])
  }

  /**
   The failing case, from the very start: stop everything, fail to replace the
   policy, fail to remove it, and any caller's next request is passed on.
   */
  lemma StopLeaks(apps: Apps, now: int, meta: int, caller: string)
    requires apps.Valid()
    ensures var w := Installed(apps, now, meta);
      var stop := ControlLog.Change(GLOBAL, "stop", 0, "halt", now);
      var after := Next(apps, w, Step.Change(apps.registry, stop, WriteFailed(false)));
      && WholeOk(apps, w) && Validates(apps.registry, after.shared.db) && StoppedFor(apps, after.shared.db, caller)
      && !Coherent(after.shared)
      && Next(apps, after, Get(caller)).passed == after.passed + [caller]
  {
    hide Registry.Has;
    var w, c := Installed(apps, now, meta), ControlLog.Change(GLOBAL, "stop", 0, "halt", now);
    InitialValidates(apps.registry, now);
    ScopesAre(apps.registry);
    assert IsPayload(apps.registry, w.shared.db, w.shared.file.value.content);
    PayloadAcceptable(apps.registry, apps.registry, w.shared.db);
    StopLeaksExactly(apps, w, apps.registry, c, WriteFailed(false), caller);
    CoherentExactly(apps.registry, w.shared, c, WriteFailed(false));
  }

  // ---------------------------------------------------------------- the objects

  /** One process's view of the database and the policy file, changed in place. */
  class ControlStore {
    const registry: Registry
    var db: Database
    var file: Option<File>

    constructor (registry: Registry, now: int, meta: int)
      ensures this.registry == registry && db == Initial(registry, now)
      ensures Validates(registry, db) && file == Some(File(meta, Payload(registry, db)))
    {
      InitialValidates(registry, now);
      this.registry := registry;
      db := Initial(registry, now);
      file := Some(File(meta, Payload(registry, Initial(registry, now))));
    }

    /** Commit one change and publish it, or say why not. */
    method Apply(scope: string, action: string, expected: int, reason: string, now: int, publish: Publish)
      returns (r: Result<Record, Error>)
      modifies this
      ensures var c := ControlLog.Change(scope, action, expected, reason, now);
        && Shared(db, file) == ApplyAndPublish(registry, old(Shared(db, file)), c, publish)
        && r == Reply(registry, old(db), c, publish)
      ensures old(Validates(registry, db)) ==> Validates(registry, db)
    {
      hide Registry.Scopes;
      if scope !in registry.Scopes() {
        return Err(UnknownScope);
      }
      var parsed := ParseAction(action);
      if parsed.None? {
        return Err(UnknownAction);
      }
      if !GoodReason(reason) {
        return Err(BadReason);
      }
      if !Validates(registry, db) {
        return Err(InvalidSchema);
      }
      AppliedValidates(registry, registry, db, ControlLog.Change(scope, action, expected, reason, now));
      if expected != db.revision {
        return Err(Conflict);
      }
      var desired := parsed.value.Wanted();
      if db.rows[scope].state == desired {
        return Ok(db.rows[scope]);
      }
      var revision := db.revision + 1;
      var record := Record(desired, revision, now, reason);
      db := Database(revision, db.rows[scope := record],
                     db.events + [ControlEvent(scope, parsed.value, desired, revision, now, reason)]);
      match publish {
        case Written(meta) => file := Some(File(meta, Payload(registry, db)));
        case WriteFailed(removed) =>
          if removed {
            file := None;
          }
          return Err(NotPublished);
      }
      return Ok(record);
    }
  }

  lemma InitialValidates(g: Registry, now: int)
    ensures Validates(g, Initial(g, now))
  {
  }

  /** The broker's reader: it parses the file again only when its metadata changes. */
  class PolicyReader {
    const apps: Apps
    var metadata: Option<int>
    var policy: Option<Content>

    ghost function Abs(): Reader
      reads this
    {
      Reader(metadata, policy)
    }

    constructor (apps: Apps)
      ensures this.apps == apps && Abs() == Reader(None, None)
    {
      this.apps := apps;
      metadata, policy := None, None;
    }

    method Read(file: Option<File>) returns (current: Option<Content>)
      modifies this
      ensures (Abs(), current) == ReadFile(apps.registry, old(Abs()), file)
    {
      if file.None? {
        return None;
      }
      if metadata == Some(file.value.meta) && policy.Some? {
        return policy;
      }
      if !Acceptable(apps.registry, file.value.content) {
        return None;
      }
      metadata, policy := Some(file.value.meta), Some(file.value.content);
      return policy;
    }

    /** Decide one request: exactly as a reader without a cache would. */
    method Decision(file: Option<File>, caller: string, ghost versions: Versions) returns (d: Decision)
      requires apps.Valid() && Known(versions, file) && ReaderOk(apps.registry, versions, Abs())
      modifies this
      ensures d == Uncached(apps, file, caller)
      ensures ReaderOk(apps.registry, versions, Abs())
    {
      CacheIsTransparent(apps, versions, Abs(), file, caller);
      var current := Read(file);
      d := Decide(apps, current, caller);
    }
  }
}
