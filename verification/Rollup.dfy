/**
 Bounded metric history: raw samples are rolled up into minutes as they age, and
 the rollups say what grouping all of them at once would say.
 */
module Rollup {
  import opened Prelude

  /** A recorded sample; times are seconds. */
  datatype Row = Row(sampledAt: int, instance: string, status: string, payload: string)

  datatype Slot = Slot(minute: int, instance: string)

  datatype Minute = Minute(count: int, first: string, last: string, status: string)

  type Table = map<Slot, Minute>

  const RAW_RETENTION: int := 6 * 3600
  const ROLLUP_RETENTION: int := 90 * 86400

  function SlotOf(r: Row): Slot { Slot(r.sampledAt - r.sampledAt % 60, r.instance) }

  /** The insert-or-update of one row. */
  function Upsert(t: Table, r: Row): Table {
    var s := SlotOf(r);
    if s in t then t[s := Minute(t[s].count + 1, t[s].first, r.payload, r.status)]
    else t[s := Minute(1, r.payload, r.payload, r.status)]
  }

  function UpsertAll(t: Table, rows: seq<Row>): Table {
    if rows == [] then t else Upsert(UpsertAll(t, rows[..|rows| - 1]), rows[|rows| - 1])
  }

  /** A slot is the whole minute the sample was taken in, of the instance it was taken from. */
  lemma SlotIsMinute(r: Row)
    ensures SlotOf(r).minute % 60 == 0 && SlotOf(r).minute <= r.sampledAt < SlotOf(r).minute + 60
    ensures SlotOf(r).instance == r.instance
  {
  }

  // ---------------------------------------------------------------- one-shot grouping

  /** The rows of one minute of one instance, in order. */
  function Group(rows: seq<Row>, s: Slot): seq<Row> {
    if rows == [] then []
    else
      var rest, last := Group(rows[..|rows| - 1], s), rows[|rows| - 1];
      if SlotOf(last) == s then rest + [last] else rest
  }

  function Summary(rows: seq<Row>): Minute
    requires rows != []
  {
    Minute(|rows|, rows[0].payload, rows[|rows| - 1].payload, rows[|rows| - 1].status)
  }

  function SlotsOf(rows: seq<Row>): set<Slot> { set i | 0 <= i < |rows| :: SlotOf(rows[i]) }

  /** Grouping everything at once, without the minutes before the cutoff. */
  function OneShot(rows: seq<Row>, cutoff: int): Table {
    map s | s in SlotsOf(rows) && s.minute >= cutoff && Group(rows, s) != [] :: Summary(Group(rows, s))
  }

  lemma GroupSnoc(rows: seq<Row>, r: Row, s: Slot)
    ensures Group(rows + [r], s) == Group(rows, s) + if SlotOf(r) == s then [r] else []
  {
    assert (rows + [r])[..|rows|] == rows;
  }

  lemma SlotsSnoc(rows: seq<Row>, r: Row)
    ensures SlotsOf(rows + [r]) == SlotsOf(rows) + {SlotOf(r)}
  {
    var all := rows + [r];
    forall s ensures s in SlotsOf(all) <==> s in SlotsOf(rows) || s == SlotOf(r) {
      if s in SlotsOf(rows) {
        var i :| 0 <= i < |rows| && SlotOf(rows[i]) == s;
        assert SlotOf(all[i]) == s;
      }
      assert SlotOf(all[|rows|]) == SlotOf(r);
    }
  }

  lemma {:induction false} GroupEmpty(rows: seq<Row>, s: Slot)
    ensures Group(rows, s) == [] <==> s !in SlotsOf(rows)
  {
    if rows != [] {
      var rest, last := rows[..|rows| - 1], rows[|rows| - 1];
      GroupEmpty(rest, s);
      assert rest + [last] == rows;
      SlotsSnoc(rest, last);
    }
  }

  /** From the cutoff on, the table is the grouping of the rows. */
  ghost predicate Agrees(t: Table, rows: seq<Row>, cutoff: int) {
    forall s: Slot :: s.minute >= cutoff ==>
      (s in t <==> Group(rows, s) != []) && (s in t && Group(rows, s) != [] ==> t[s] == Summary(Group(rows, s)))
  }

  lemma UpsertAgrees(t: Table, rows: seq<Row>, r: Row, cutoff: int)
    requires Agrees(t, rows, cutoff)
    ensures Agrees(Upsert(t, r), rows + [r], cutoff)
  {
    forall s: Slot | s.minute >= cutoff
      ensures (s in Upsert(t, r) <==> Group(rows + [r], s) != [])
      ensures s in Upsert(t, r) && Group(rows + [r], s) != [] ==> Upsert(t, r)[s] == Summary(Group(rows + [r], s))
    {
      GroupSnoc(rows, r, s);
    }
  }

  lemma {:induction false} UpsertAllAgrees(t: Table, rows: seq<Row>, more: seq<Row>, cutoff: int)
    requires Agrees(t, rows, cutoff)
    ensures Agrees(UpsertAll(t, more), rows + more, cutoff)
  {
    if more == [] {
      assert rows + more == rows;
    } else {
      var some, last := more[..|more| - 1], more[|more| - 1];
      UpsertAllAgrees(t, rows, some, cutoff);
      UpsertAgrees(UpsertAll(t, some), rows + some, last, cutoff);
      assert rows + some + [last] == rows + more;
    }
  }

  function Kept(t: Table, cutoff: int): Table { map s | s in t && s.minute >= cutoff :: t[s] }

  lemma KeptIsOneShot(t: Table, rows: seq<Row>, cutoff: int)
    requires Agrees(t, rows, cutoff)
    ensures Kept(t, cutoff) == OneShot(rows, cutoff)
  {
    forall s ensures s in Kept(t, cutoff) <==> s in OneShot(rows, cutoff) {
      GroupEmpty(rows, s);
    }
  }

  lemma OneShotAgrees(rows: seq<Row>, earlier: int, cutoff: int)
    requires earlier <= cutoff
    ensures Agrees(OneShot(rows, earlier), rows, cutoff)
  {
    forall s: Slot | s.minute >= cutoff ensures s in OneShot(rows, earlier) <==> Group(rows, s) != [] {
      GroupEmpty(rows, s);
    }
  }

  // ---------------------------------------------------------------- order of rolling up

  /** Sorted by time, equal times in the order they were recorded. */
  function ByTime(rows: seq<Row>): seq<Row> {
    if rows == [] then [] else Insert(ByTime(rows[..|rows| - 1]), rows[|rows| - 1])
  }

  function Insert(rows: seq<Row>, r: Row): seq<Row> {
    if rows == [] || rows[|rows| - 1].sampledAt <= r.sampledAt then rows + [r]
    else Insert(rows[..|rows| - 1], r) + [rows[|rows| - 1]]
  }

  ghost predicate InTime(rows: seq<Row>) {
    forall i, j :: 0 <= i <= j < |rows| ==> rows[i].sampledAt <= rows[j].sampledAt
  }

  lemma {:induction false} ByTimeOfSorted(rows: seq<Row>)
    requires InTime(rows)
    ensures ByTime(rows) == rows
  {
    if rows != [] {
      var rest, last := rows[..|rows| - 1], rows[|rows| - 1];
      ByTimeOfSorted(rest);
      assert Insert(rest, last) == rest + [last] by { InsertLast(rows); }
      assert rest + [last] == rows;
    }
  }

  lemma InsertLast(rows: seq<Row>)
    requires rows != [] && (|rows| >= 2 ==> rows[|rows| - 2].sampledAt <= rows[|rows| - 1].sampledAt)
    ensures Insert(rows[..|rows| - 1], rows[|rows| - 1]) == rows[..|rows| - 1] + [rows[|rows| - 1]]
  {
    var rest := rows[..|rows| - 1];
    if rest != [] {
      assert rest[|rest| - 1] == rows[|rows| - 2];
    }
  }

  /** The samples of one instant, in order. */
  function AtTime(rows: seq<Row>, t: int): seq<Row> {
    if rows == [] then []
    else AtTime(rows[..|rows| - 1], t) + if rows[|rows| - 1].sampledAt == t then [rows[|rows| - 1]] else []
  }

  lemma AtTimeSnoc(rows: seq<Row>, r: Row, t: int)
    ensures AtTime(rows + [r], t) == AtTime(rows, t) + if r.sampledAt == t then [r] else []
  {
    assert (rows + [r])[..|rows|] == rows;
  }

  lemma {:induction false} InsertSorts(rows: seq<Row>, r: Row)
    requires InTime(rows)
    ensures InTime(Insert(rows, r)) && |Insert(rows, r)| == |rows| + 1
    ensures rows != [] ==> Insert(rows, r)[|rows|].sampledAt == Max(r.sampledAt, rows[|rows| - 1].sampledAt)
  {
    if rows != [] && rows[|rows| - 1].sampledAt > r.sampledAt {
      InsertSorts(rows[..|rows| - 1], r);
    }
  }

  lemma {:induction false} InsertKeeps(rows: seq<Row>, r: Row)
    ensures multiset(Insert(rows, r)) == multiset(rows) + multiset{r}
  {
    if rows != [] && rows[|rows| - 1].sampledAt > r.sampledAt {
      InsertKeeps(rows[..|rows| - 1], r);
      assert rows[..|rows| - 1] + [rows[|rows| - 1]] == rows;
    }
  }

  lemma {:induction false} InsertStable(rows: seq<Row>, r: Row, t: int)
    ensures AtTime(Insert(rows, r), t) == AtTime(rows, t) + if r.sampledAt == t then [r] else []
  {
    hide AtTime;
    if rows == [] || rows[|rows| - 1].sampledAt <= r.sampledAt {
      AtTimeSnoc(rows, r, t);
    } else {
      var rest, last := rows[..|rows| - 1], rows[|rows| - 1];
      InsertStable(rest, r, t);
      assert rest + [last] == rows;
      AtTimeSnoc(Insert(rest, r), last, t);
      AtTimeSnoc(rest, last, t);
    }
  }

  /** The order of rolling up: sorted by time, nothing lost, equal times as they were recorded. */
  lemma {:induction false} ByTimeSorts(rows: seq<Row>)
    ensures InTime(ByTime(rows)) && |ByTime(rows)| == |rows| && multiset(ByTime(rows)) == multiset(rows)
    ensures forall t :: AtTime(ByTime(rows), t) == AtTime(rows, t)
  {
    hide InTime, Insert;
    if rows == [] {
      EmptyInTime();
    } else {
      var rest, last := rows[..|rows| - 1], rows[|rows| - 1];
      ByTimeSorts(rest);
      InsertSorts(ByTime(rest), last);
      InsertKeeps(ByTime(rest), last);
      assert rest + [last] == rows;
      forall t ensures AtTime(ByTime(rows), t) == AtTime(rows, t) {
        InsertStable(ByTime(rest), last, t);
        AtTimeSnoc(rest, last, t);
      }
    }
  }

  lemma EmptyInTime()
    ensures InTime([])
  {
  }

  function Older(rows: seq<Row>, cutoff: int): seq<Row> {
    if rows == [] then []
    else
      var rest, last := Older(rows[..|rows| - 1], cutoff), rows[|rows| - 1];
      if last.sampledAt < cutoff then rest + [last] else rest
  }

  function Newer(rows: seq<Row>, cutoff: int): seq<Row> {
    if rows == [] then []
    else
      var rest, last := Newer(rows[..|rows| - 1], cutoff), rows[|rows| - 1];
      if last.sampledAt < cutoff then rest else rest + [last]
  }

  /** Among samples in time order the old ones come first. */
  lemma {:induction false} OlderFirst(rows: seq<Row>, cutoff: int)
    requires InTime(rows)
    ensures rows == Older(rows, cutoff) + Newer(rows, cutoff)
    ensures rows != [] && rows[|rows| - 1].sampledAt < cutoff ==> Newer(rows, cutoff) == []
  {
    if rows != [] {
      var rest, last := rows[..|rows| - 1], rows[|rows| - 1];
      OlderFirst(rest, cutoff);
      assert rows == rest + [last];
      if last.sampledAt < cutoff {
        assert rest != [] ==> rest[|rest| - 1].sampledAt <= last.sampledAt;
        assert Newer(rest, cutoff) == [];
      }
    }
  }

  lemma {:induction false} OldAndNew(rows: seq<Row>, cutoff: int)
    ensures |rows| == |Older(rows, cutoff)| + |Newer(rows, cutoff)|
  {
    if rows != [] {
      OldAndNew(rows[..|rows| - 1], cutoff);
    }
  }

  /** The cutoff parts the samples, each part in its order. */
  lemma {:induction false} PartsExactly(rows: seq<Row>, cutoff: int)
    ensures forall r :: r in Older(rows, cutoff) ==> r.sampledAt < cutoff
    ensures forall r :: r in Newer(rows, cutoff) ==> cutoff <= r.sampledAt
    ensures multiset(rows) == multiset(Older(rows, cutoff)) + multiset(Newer(rows, cutoff))
  {
    if rows != [] {
      PartsExactly(rows[..|rows| - 1], cutoff);
      assert rows[..|rows| - 1] + [rows[|rows| - 1]] == rows;
    }
  }

  lemma {:induction false} PartsInOrder(rows: seq<Row>, cutoff: int, t: int)
    ensures AtTime(rows, t) == AtTime(Older(rows, cutoff), t) + AtTime(Newer(rows, cutoff), t)
  {
    hide AtTime, Older, Newer;
    if rows == [] {
      NoParts(cutoff, t);
    } else {
      var rest, last := rows[..|rows| - 1], rows[|rows| - 1];
      PartsInOrder(rest, cutoff, t);
      PartsExactly(rest, cutoff);
      assert rest + [last] == rows;
      PartsStep(rest, last, cutoff, t);
    }
  }

  lemma NoParts(cutoff: int, t: int)
    ensures AtTime([], t) == AtTime(Older([], cutoff), t) + AtTime(Newer([], cutoff), t)
  {
  }

  lemma PartsStep(rest: seq<Row>, last: Row, cutoff: int, t: int)
    requires AtTime(rest, t) == AtTime(Older(rest, cutoff), t) + AtTime(Newer(rest, cutoff), t)
    requires forall r :: r in Newer(rest, cutoff) ==> cutoff <= r.sampledAt
    ensures AtTime(rest + [last], t)
            == AtTime(Older(rest + [last], cutoff), t) + AtTime(Newer(rest + [last], cutoff), t)
  {
    hide AtTime, Older, Newer;
    PartsSnoc(rest, last, cutoff);
    AtTimeSnoc(rest, last, t);
    var older, newer := AtTime(Older(rest, cutoff), t), AtTime(Newer(rest, cutoff), t);
    var more := if last.sampledAt == t then [last] else [];
    assert older + newer + more == older + (newer + more);
    if last.sampledAt < cutoff {
      AtTimeSnoc(Older(rest, cutoff), last, t);
      if last.sampledAt == t {
        NoneAtTime(Newer(rest, cutoff), t);
      }
      assert older + more + newer == older + newer + more;
    } else {
      AtTimeSnoc(Newer(rest, cutoff), last, t);
    }
  }

  lemma PartsSnoc(rest: seq<Row>, last: Row, cutoff: int)
    ensures Older(rest + [last], cutoff) ==
              if last.sampledAt < cutoff then Older(rest, cutoff) + [last] else Older(rest, cutoff)
    ensures Newer(rest + [last], cutoff) ==
              if last.sampledAt < cutoff then Newer(rest, cutoff) else Newer(rest, cutoff) + [last]
  {
    assert (rest + [last])[..|rest|] == rest;
  }

  lemma {:induction false} NoneAtTime(rows: seq<Row>, t: int)
    requires forall r :: r in rows ==> r.sampledAt != t
    ensures AtTime(rows, t) == []
  {
    if rows != [] {
      NoneAtTime(rows[..|rows| - 1], t);
    }
  }

  // ---------------------------------------------------------------- counting

  function Counts(t: Table): map<Slot, int> { map s | s in t :: t[s].count }

  /** How many samples a table stands for. */
  ghost function Samples(t: Table): int { MapTotal(Counts(t)) }

  function Gone(t: Table, cutoff: int): Table { map s | s in t && s.minute < cutoff :: t[s] }

  lemma UpsertCounts(t: Table, r: Row)
    ensures Samples(Upsert(t, r)) == Samples(t) + 1
  {
    var s := SlotOf(r);
    var n := if s in t then t[s].count + 1 else 1;
    assert Counts(Upsert(t, r)) == Counts(t)[s := n];
    MapTotalUpdate(Counts(t), s, n);
  }

  lemma {:induction false} UpsertAllCounts(t: Table, rows: seq<Row>)
    ensures Samples(UpsertAll(t, rows)) == Samples(t) + |rows|
  {
    if rows != [] {
      UpsertAllCounts(t, rows[..|rows| - 1]);
      UpsertCounts(UpsertAll(t, rows[..|rows| - 1]), rows[|rows| - 1]);
    }
  }

  /** Deleting old minutes splits the samples into kept and expired. */
  lemma DeletionCounts(t: Table, cutoff: int)
    ensures Samples(t) == Samples(Kept(t, cutoff)) + Samples(Gone(t, cutoff))
  {
    hide MapTotal;
    var m := Counts(t);
    var gone := set s | s in m && s.minute < cutoff;
    MapTotalSplit(m, gone);
    assert m - gone == Counts(Kept(t, cutoff));
    assert m - (m.Keys - gone) == Counts(Gone(t, cutoff));
  }

  // ---------------------------------------------------------------- runs

  /**
   raw, rollups, paused: the tables. recorded, rolled, expired and cutoff are
   history: every accepted sample, the samples rolled up so far in that order,
   how many have been deleted, and the last 90-day cutoff applied.
   */
  datatype Store = Store(raw: seq<Row>, rollups: Table, paused: bool,
                         recorded: seq<Row>, rolled: seq<Row>, expired: int, cutoff: Option<int>)

  const NEW_STORE: Store := Store([], map[], false, [], [], 0, None)

  datatype Event = Record(row: Row) | Maintain(now: int, full: bool)

  function Recorded(s: Store, row: Row): Store {
    if s.paused then s else s.(raw := s.raw + [row], recorded := s.recorded + [row])
  }

  ghost function Maintained(s: Store, now: int, full: bool): Store {
    var aged := ByTime(Older(s.raw, now - RAW_RETENTION));
    var t := UpsertAll(s.rollups, aged);
    var cutoff := now - ROLLUP_RETENTION;
    Store(Newer(s.raw, now - RAW_RETENTION), Kept(t, cutoff), full,
          s.recorded, s.rolled + aged, s.expired + Samples(Gone(t, cutoff)), Some(cutoff))
  }

  ghost function Next(s: Store, e: Event): Store {
    match e
    case Record(row) => Recorded(s, row)
    case Maintain(now, full) => Maintained(s, now, full)
  }

  ghost function Run(events: seq<Event>, n: nat): Store
    requires n <= |events|
  {
    if n == 0 then NEW_STORE else Next(Run(events, n - 1), events[n - 1])
  }

  /** Maintenance runs in order of time. */
  ghost predicate MaintainedInOrder(events: seq<Event>) {
    forall i, j :: 0 <= i < j < |events| && events[i].Maintain? && events[j].Maintain?
          ==> events[i].now <= events[j].now
  }

  ghost predicate HistoryOk(s: Store) {
    && (match s.cutoff
        case None => s.rolled == [] && s.rollups == map[]
        case Some(c) => s.rollups == OneShot(s.rolled, c))
    && |s.raw| + Samples(s.rollups) + s.expired == |s.recorded|
  }

  lemma MaintainedOk(s: Store, now: int, full: bool)
    requires HistoryOk(s) && (s.cutoff.Some? ==> s.cutoff.value <= now - ROLLUP_RETENTION)
    ensures HistoryOk(Maintained(s, now, full))
  {
    hide Samples, OneShot, Agrees, ByTime, Older, Newer, UpsertAll, Kept, Gone;
    var older := Older(s.raw, now - RAW_RETENTION);
    var aged, cutoff := ByTime(older), now - ROLLUP_RETENTION;
    if s.cutoff.Some? {
      OneShotAgrees(s.rolled, s.cutoff.value, cutoff);
    } else {
      NothingAgrees(cutoff);
    }
    UpsertAllAgrees(s.rollups, s.rolled, aged, cutoff);
    KeptIsOneShot(UpsertAll(s.rollups, aged), s.rolled + aged, cutoff);
    UpsertAllCounts(s.rollups, aged);
    DeletionCounts(UpsertAll(s.rollups, aged), cutoff);
    ByTimeSorts(older);
    OldAndNew(s.raw, now - RAW_RETENTION);
  }

  lemma NothingAgrees(cutoff: int)
    ensures Agrees(map[], [], cutoff)
  {
  }

  lemma NewStoreOk()
    ensures HistoryOk(NEW_STORE)
  {
    assert Counts(map[]) == map[];
  }

  /** The cutoff in force is that of the latest maintenance. */
  lemma {:induction false} CutoffIsLatest(events: seq<Event>, n: nat)
    requires n <= |events|
    ensures Run(events, n).cutoff.Some? ==>
              exists i :: 0 <= i < n && events[i].Maintain?
                    && Run(events, n).cutoff.value == events[i].now - ROLLUP_RETENTION
  {
    hide Maintained;
    if n > 0 {
      CutoffIsLatest(events, n - 1);
      MaintainedCutoff(Run(events, n - 1), events[n - 1]);
    }
  }

  lemma MaintainedCutoff(s: Store, e: Event)
    ensures Next(s, e).cutoff == if e.Maintain? then Some(e.now - ROLLUP_RETENTION) else s.cutoff
  {
  }

  /**
   Any schedule of samples and maintenance leaves the rollups equal to grouping
   all rolled samples at once, without the minutes before the latest cutoff; and
   every accepted sample is raw, rolled up or expired.
   */
  lemma {:induction false} RollupIsGroupBy(events: seq<Event>, n: nat)
    requires n <= |events| && MaintainedInOrder(events)
    ensures HistoryOk(Run(events, n))
  {
    hide HistoryOk, Maintained;
    if n == 0 {
      NewStoreOk();
    } else {
      RollupIsGroupBy(events, n - 1);
      CutoffIsLatest(events, n - 1);
      match events[n - 1]
      case Record(row) => RecordedOk(Run(events, n - 1), row);
      case Maintain(now, full) => MaintainedOk(Run(events, n - 1), now, full);
    }
  }

  lemma RecordedOk(s: Store, row: Row)
    requires HistoryOk(s)
    ensures HistoryOk(Recorded(s, row))
  {
  }

  /**
   What maintenance moves: exactly the raw samples more than six hours old, in order of
   time, those of one instant as they were recorded. The others stay, and nothing is lost.
   */
  lemma MaintainedMoves(s: Store, now: int, full: bool)
    ensures s.rolled <= Maintained(s, now, full).rolled
    ensures var z := Maintained(s, now, full);
      var moved := z.rolled[|s.rolled|..];
      && InTime(moved) && z.paused == full && z.recorded == s.recorded
      && (forall r :: r in moved ==> r.sampledAt < now - 6 * 3600)
      && (forall r :: r in z.raw ==> now - 6 * 3600 <= r.sampledAt)
      && (forall t :: AtTime(s.raw, t) == AtTime(moved, t) + AtTime(z.raw, t))
      && multiset(s.raw) == multiset(moved) + multiset(z.raw)
  {
    hide Samples, UpsertAll, Kept, Gone, ByTime, Older, Newer, AtTime, InTime;
    var older := Older(s.raw, now - RAW_RETENTION);
    PartsExactly(s.raw, now - RAW_RETENTION);
    ByTimeSorts(older);
    forall t { PartsInOrder(s.raw, now - RAW_RETENTION, t); }
    assert Maintained(s, now, full).rolled[|s.rolled|..] == ByTime(older);
    forall r | r in ByTime(older) ensures r in older {
      assert r in multiset(ByTime(older));
    }
  }

  /** Collection stands still after a maintenance that found the store full, until one that does not. */
  function Paused(events: seq<Event>, n: nat): bool
    requires n <= |events|
  {
    n > 0 && if events[n - 1].Maintain? then events[n - 1].full else Paused(events, n - 1)
  }

  /** The samples that came while collection was on, in order. */
  function Accepted(events: seq<Event>, n: nat): seq<Row>
    requires n <= |events|
  {
    if n == 0 then []
    else
      Accepted(events, n - 1)
      + if events[n - 1].Record? && !Paused(events, n - 1) then [events[n - 1].row] else []
  }

  /** In every run the samples accepted are those that came while collection was on, and all are raw or rolled up. */
  lemma {:induction false} NothingIsLost(events: seq<Event>, n: nat)
    requires n <= |events|
    ensures var s := Run(events, n);
      && s.paused == Paused(events, n) && s.recorded == Accepted(events, n)
      && multiset(s.recorded) == multiset(s.raw) + multiset(s.rolled)
  {
    hide Next;
    if n > 0 {
      NothingIsLost(events, n - 1);
      NothingLostStep(Run(events, n - 1), events[n - 1]);
    }
  }

  lemma NothingLostStep(s: Store, e: Event)
    requires multiset(s.recorded) == multiset(s.raw) + multiset(s.rolled)
    ensures var z := Next(s, e);
      && z.paused == (if e.Maintain? then e.full else s.paused)
      && z.recorded == s.recorded + (if e.Record? && !s.paused then [e.row] else [])
      && multiset(z.recorded) == multiset(z.raw) + multiset(z.rolled)
  {
    hide Maintained, AtTime, InTime;
    if e.Maintain? {
      MaintainedMoves(s, e.now, e.full);
      var z := Maintained(s, e.now, e.full);
      assert z.rolled == s.rolled + z.rolled[|s.rolled|..];
    }
  }

  /** When samples arrive in order of time, rolling up keeps that order: rolled, then raw, is everything. */
  lemma {:induction false} RolledInOrder(events: seq<Event>, n: nat)
    requires n <= |events| && InTime(Run(events, n).recorded)
    ensures Run(events, n).recorded == Run(events, n).rolled + Run(events, n).raw
  {
    hide InTime, Next;
    if n > 0 {
      var s := Run(events, n - 1);
      RecordedPrefix(s, events[n - 1]);
      PrefixInTime(Run(events, n).recorded, s.recorded);
      RolledInOrder(events, n - 1);
      OrderStep(s, events[n - 1]);
    }
  }

  lemma OrderStep(s: Store, e: Event)
    requires InTime(s.recorded) && s.recorded == s.rolled + s.raw
    ensures Next(s, e).recorded == Next(s, e).rolled + Next(s, e).raw
  {
    hide InTime, Older, Newer, ByTime, Samples, UpsertAll, Kept, Gone;
    if e.Maintain? {
      var c := e.now - RAW_RETENTION;
      SuffixInTime(s.recorded, s.rolled, s.raw);
      OlderFirst(s.raw, c);
      PrefixInTime(s.raw, Older(s.raw, c));
      ByTimeOfSorted(Older(s.raw, c));
    }
  }

  lemma RecordedPrefix(s: Store, e: Event)
    ensures s.recorded <= Next(s, e).recorded
  {
  }

  lemma PrefixInTime(rows: seq<Row>, prefix: seq<Row>)
    requires InTime(rows) && prefix <= rows
    ensures InTime(prefix)
  {
  }

  lemma SuffixInTime(rows: seq<Row>, front: seq<Row>, back: seq<Row>)
    requires InTime(rows) && rows == front + back
    ensures InTime(back)
  {
    forall i, j | 0 <= i <= j < |back| ensures back[i].sampledAt <= back[j].sampledAt {
      assert back[i] == rows[|front| + i] && back[j] == rows[|front| + j];
    }
  }

  // ---------------------------------------------------------------- the object

  class MetricHistory {
    const maxBytes: int
    var raw: seq<Row>
    var rollups: Table
    var paused: bool
    ghost var recorded: seq<Row>
    ghost var rolled: seq<Row>
    ghost var expired: int
    ghost var cutoff: Option<int>

    ghost function Abs(): Store
      reads this
    {
      Store(raw, rollups, paused, recorded, rolled, expired, cutoff)
    }

    constructor (maxBytes: int)
      ensures this.maxBytes == maxBytes && Abs() == NEW_STORE && HistoryOk(Abs())
    {
      NewStoreOk();
      this.maxBytes := maxBytes;
      raw, rollups, paused := [], map[], false;
      recorded, rolled, expired, cutoff := [], [], 0, None;
    }

    /** A sample taken while collection is paused is not kept. */
    method RecordSample(row: Row)
      requires HistoryOk(Abs())
      modifies this
      ensures Abs() == Recorded(old(Abs()), row) && HistoryOk(Abs())
    {
      if paused {
        return;
      }
      raw := raw + [row];
      recorded := recorded + [row];
    }

    /** Insert or update one row per aged sample. */
    method RollUp(aged: seq<Row>)
      modifies this`rollups
      ensures rollups == UpsertAll(old(rollups), aged)
    {
      for i := 0 to |aged|
        invariant rollups == UpsertAll(old(rollups), aged[..i])
      {
        assert aged[..i + 1][..i] == aged[..i];
        var row := aged[i];
        var s := SlotOf(row);
        if s in rollups {
          rollups := rollups[s := Minute(rollups[s].count + 1, rollups[s].first, row.payload, row.status)];
        } else {
          rollups := rollups[s := Minute(1, row.payload, row.payload, row.status)];
        }
      }
      assert aged[..|aged|] == aged;
    }

    /** Roll up what is older than six hours, forget minutes older than ninety days, check the size. */
    method Maintain(now: int, totalBytes: int) returns (rolledUp: nat, deleted: nat)
      requires HistoryOk(Abs()) && (cutoff.Some? ==> cutoff.value <= now - ROLLUP_RETENTION)
      modifies this
      ensures Abs() == Maintained(old(Abs()), now, totalBytes > maxBytes) && HistoryOk(Abs())
      ensures rolledUp == |rolled| - |old(rolled)|
      ensures deleted == |Gone(UpsertAll(old(rollups), rolled[|old(rolled)|..]), now - ROLLUP_RETENTION)|
    {
      hide HistoryOk, Samples, Upsert, UpsertAll, ByTime, Older, Newer, Kept, Gone, OneShot;
      MaintainedOk(Abs(), now, totalBytes > maxBytes);
      var aged := ByTime(Older(raw, now - RAW_RETENTION));
      RollUp(aged);
      raw := Newer(raw, now - RAW_RETENTION);
      rolledUp, deleted := |aged|, |Gone(rollups, now - ROLLUP_RETENTION)|;
      expired := expired + Samples(Gone(rollups, now - ROLLUP_RETENTION));
      rolled := rolled + aged;
      assert rolled[|old(rolled)|..] == aged;
      rollups := Kept(rollups, now - ROLLUP_RETENTION);
      cutoff := Some(now - ROLLUP_RETENTION);
      paused := totalBytes > maxBytes;
    }
  }
}
