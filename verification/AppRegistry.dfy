/**
 Loading the app registry: every caller belongs to at most one app, or the
 configuration is refused.
 */
module AppRegistry {
  import opened Prelude
  import FairAdmission
  import Publication
  import ControlLog

  /** One configured app. Its name, and the phrase below, arrive stripped; the note is as written. */
  datatype AppRow = AppRow(id: string, name: string, callers: seq<string>, mode: string, note: string)

  /** The app whose money is real, and what an operator must type to release it. */
  datatype Money = Money(app: string, phrase: string)

  datatype Problem =
    | NoApps
    | BadId(id: string) | DuplicateApp(id: string) | BadName(id: string) | NoCallers(id: string)
    | BadCaller(caller: string) | CallerTwice(caller: string) | BadMode(id: string) | BadNote(id: string)
    | MoneyUnknown | MoneyNotReal | BadPhrase

  const PAPER: string := "paper"
  const REAL: string := "real"

  predicate IsIdentifierChar(c: char) {
    'A' <= c <= 'Z' || 'a' <= c <= 'z' || '0' <= c <= '9' || c == '_' || c == '.' || c == '-'
  }

  predicate IsIdentifier(s: string) {
    1 <= |s| <= 64 && forall i :: 0 <= i < |s| ==> IsIdentifierChar(s[i])
  }

  const IDENTIFIER_CHARS: string := FairAdmission.CAPITALS + FairAdmission.SMALL + "0123456789" + "_.-"

  lemma DigitIs(k: nat)
    requires k < 10
    ensures "0123456789"[k] == '0' + k as char
  {
  }

  lemma CapitalIs(c: char)
    ensures 'A' <= c <= 'Z' <==> c in FairAdmission.CAPITALS
  {
    if 'A' <= c <= 'Z' {
      var k := (c - 'A') as nat;
      FairAdmission.AlphabetIs(k);
      assert FairAdmission.CAPITALS[k] == c;
    }
  }

  lemma SmallIs(c: char)
    ensures 'a' <= c <= 'z' <==> c in FairAdmission.SMALL
  {
    if 'a' <= c <= 'z' {
      var k := (c - 'a') as nat;
      FairAdmission.AlphabetIs(k);
      assert FairAdmission.SMALL[k] == c;
    }
  }

  lemma DigitsAre(c: char)
    ensures '0' <= c <= '9' <==> c in "0123456789"
  {
    if '0' <= c <= '9' {
      var k := (c - '0') as nat;
      DigitIs(k);
      assert "0123456789"[k] == c;
    }
  }

  lemma IdentifierCharIs(c: char)
    ensures IsIdentifierChar(c) <==> c in IDENTIFIER_CHARS
  {
    hide FairAdmission.CAPITALS, FairAdmission.SMALL;
    CapitalIs(c);
    SmallIs(c);
    DigitsAre(c);
    var letters, digits := FairAdmission.CAPITALS + FairAdmission.SMALL, "0123456789";
    assert IDENTIFIER_CHARS == letters + digits + "_.-";
  }

  /** An identifier is one to 64 letters, digits, underscores, dots and hyphens, and nothing else. */
  lemma IdentifierExactly(s: string)
    ensures IsIdentifier(s) <==> 1 <= |s| <= 64 && forall i :: 0 <= i < |s| ==> s[i] in IDENTIFIER_CHARS
  {
    hide IsIdentifierChar;
    forall i | 0 <= i < |s| { IdentifierCharIs(s[i]); }
  }

  predicate GoodName(row: AppRow) { 1 <= |row.name| <= 80 }

  predicate GoodMode(row: AppRow) { row.mode == PAPER || row.mode == REAL }

  predicate GoodNote(row: AppRow) { |row.note| <= 500 }

  /** What a row must be on its own. */
  ghost predicate WellFormed(row: AppRow) {
    && IsIdentifier(row.id) && GoodName(row) && row.callers != []
    && (forall k :: 0 <= k < |row.callers| ==> IsIdentifier(row.callers[k]))
    && GoodMode(row) && GoodNote(row)
  }

  ghost predicate GoodMoney(rows: seq<AppRow>, money: Money) {
    && (exists i :: 0 <= i < |rows| && rows[i].id == money.app && rows[i].mode == REAL)
    && 3 <= |money.phrase| <= 80
  }

  /** All caller labels of the first n apps, lower-cased, in order. */
  function Labels(rows: seq<AppRow>, n: nat): seq<string>
    requires n <= |rows|
  {
    if n == 0 then [] else Labels(rows, n - 1) + Lowered(rows[n - 1].callers, |rows[n - 1].callers|)
  }

  function Lowered(callers: seq<string>, n: nat): seq<string>
    requires n <= |callers|
  {
    if n == 0 then [] else Lowered(callers, n - 1) + [FairAdmission.Lower(callers[n - 1])]
  }

  ghost predicate DistinctIds(rows: seq<AppRow>, n: nat)
    requires n <= |rows|
  {
    forall i, j :: 0 <= i < j < n ==> rows[i].id != rows[j].id
  }

  /** What a loadable configuration looks like. */
  ghost predicate Loadable(rows: seq<AppRow>, n: nat)
    requires n <= |rows|
  {
    && DistinctIds(rows, n) && (forall i :: 0 <= i < n ==> WellFormed(rows[i]))
    && NoDup(Labels(rows, n))
  }

  /** The table maps exactly the labels of the first n apps, each to the app that lists it. */
  ghost predicate Mapped(rows: seq<AppRow>, n: nat, appOf: map<string, string>)
    requires n <= |rows|
  {
    && (forall c :: c in appOf <==> c in Labels(rows, n))
    && (forall i, k :: 0 <= i < n && 0 <= k < |rows[i].callers| ==>
          FairAdmission.Lower(rows[i].callers[k]) in appOf
                && appOf[FairAdmission.Lower(rows[i].callers[k])] == rows[i].id)
    && (forall c :: c in appOf ==> exists i :: 0 <= i < n && rows[i].id == appOf[c])
  }

  lemma LabelPrefixDup(a: seq<string>, b: seq<string>)
    requires NoDup(a + b)
    ensures NoDup(a)
  {
    forall i, j | 0 <= i < j < |a| ensures a[i] != a[j] {
      assert (a + b)[i] == a[i] && (a + b)[j] == a[j];
    }
  }

  lemma {:induction false} LoadableSmaller(rows: seq<AppRow>, m: nat, n: nat)
    requires m <= n <= |rows| && Loadable(rows, n)
    ensures Loadable(rows, m)
  {
    if m < n {
      LabelPrefixDup(Labels(rows, n - 1), Lowered(rows[n - 1].callers, |rows[n - 1].callers|));
      LoadableSmaller(rows, m, n - 1);
    }
  }

  /** The label stands twice among those of the first n apps. */
  ghost predicate RepeatedLabel(rows: seq<AppRow>, n: nat, c: string)
    requires n <= |rows|
  {
    exists i, j :: 0 <= i < j < |Labels(rows, n)| && Labels(rows, n)[i] == Labels(rows, n)[j] == c
  }

  /** A refusal names what is really wrong with the configuration. */
  ghost predicate Blamed(rows: seq<AppRow>, money: Money, p: Problem) {
    match p
    case NoApps => rows == []
    case BadId(id) => exists i :: 0 <= i < |rows| && rows[i].id == id && !IsIdentifier(id)
    case BadName(id) => exists i :: 0 <= i < |rows| && rows[i].id == id && !GoodName(rows[i])
    case BadMode(id) => exists i :: 0 <= i < |rows| && rows[i].id == id && !GoodMode(rows[i])
    case BadNote(id) => exists i :: 0 <= i < |rows| && rows[i].id == id && !GoodNote(rows[i])
    case BadCaller(c) => exists i :: 0 <= i < |rows| && c in rows[i].callers && !IsIdentifier(c)
    case MoneyUnknown => forall i :: 0 <= i < |rows| ==> rows[i].id != money.app
    case MoneyNotReal => exists i :: 0 <= i < |rows| && rows[i].id == money.app && rows[i].mode != REAL
    case BadPhrase => !(3 <= |money.phrase| <= 80)
    case DuplicateApp(id) => exists i, j :: 0 <= i < j < |rows| && rows[i].id == rows[j].id == id
    case NoCallers(id) => exists i :: 0 <= i < |rows| && rows[i].id == id && rows[i].callers == []
    case CallerTwice(c) => exists n: nat :: n <= |rows| && RepeatedLabel(rows, n, c)
  }

  /** Taking a label that is already taken makes the configuration unloadable. */
  lemma RepeatUnloadable(rows: seq<AppRow>, n: nat, k: nat)
    requires n < |rows| && Repeats(rows[n], Labels(rows, n), k)
    ensures !NoDup(Labels(rows, n + 1)) && RepeatedLabel(rows, n + 1, FairAdmission.Lower(rows[n].callers[k]))
  {
    hide FairAdmission.Lower, Lowered;
    var row := rows[n].callers;
    var front, name := Labels(rows, n) + Lowered(row, k), FairAdmission.Lower(row[k]);
    LoweredSplit(row, k);
    var all := Labels(rows, n + 1);
    assert all[..|front|] == front && all[|front|] == name;
    var i :| 0 <= i < |front| && front[i] == name;
    assert all[i] == name;
  }

  lemma LoweredSplit(callers: seq<string>, k: nat)
    requires k < |callers|
    ensures |Lowered(callers, |callers|)| == |callers| && |Lowered(callers, k)| == k
    ensures Lowered(callers, |callers|)[..k] == Lowered(callers, k)
    ensures Lowered(callers, |callers|)[k] == FairAdmission.Lower(callers[k])
  {
    LoweredIs(callers, |callers|);
    LoweredIs(callers, k);
  }

  lemma {:induction false} LoweredIs(callers: seq<string>, n: nat)
    requires n <= |callers|
    ensures |Lowered(callers, n)| == n
    ensures forall i :: 0 <= i < n ==> Lowered(callers, n)[i] == FairAdmission.Lower(callers[i])
  {
    if n > 0 {
      LoweredIs(callers, n - 1);
    }
  }

  /** The k-th label of the row is taken already, by an earlier app or earlier in the row. */
  ghost predicate Repeats(row: AppRow, claimed: seq<string>, k: nat) {
    k < |row.callers| && FairAdmission.Lower(row.callers[k]) in claimed + Lowered(row.callers, k)
  }

  /** Claim the callers of one app, stopping at the first that is no identifier or already taken. */
  method Claim(row: AppRow, claimed: seq<string>, appOf: map<string, string>)
    returns (fault: Option<Problem>, labels: seq<string>, table: map<string, string>)
    requires NoDup(claimed) && forall c :: c in appOf <==> c in claimed
    ensures fault.None? ==> labels == claimed + Lowered(row.callers, |row.callers|) && NoDup(labels)
    ensures fault.None? ==> (forall c :: c in table <==> c in labels)
    ensures fault.None? ==> forall c :: c in table ==> table[c] == if c in appOf then appOf[c] else row.id
    ensures fault.None? ==> forall k :: 0 <= k < |row.callers| ==> IsIdentifier(row.callers[k])
    ensures fault.Some? ==> fault.value.BadCaller? || fault.value.CallerTwice?
    ensures fault.Some? && fault.value.BadCaller? ==>
              fault.value.caller in row.callers && !IsIdentifier(fault.value.caller)
    ensures fault.Some? && fault.value.CallerTwice? ==>
              exists k: nat :: k < |row.callers| && Repeats(row, claimed, k)
                    && fault.value.caller == FairAdmission.Lower(row.callers[k])
  {
    labels, table := claimed, appOf;
    for k := 0 to |row.callers|
      invariant labels == claimed + Lowered(row.callers, k) && NoDup(labels)
      invariant forall c :: c in table <==> c in labels
      invariant forall c :: c in appOf ==> c in table
      invariant forall c :: c in table ==> table[c] == if c in appOf then appOf[c] else row.id
      invariant forall j :: 0 <= j < k ==> IsIdentifier(row.callers[j])
    {
      if !IsIdentifier(row.callers[k]) {
        return Some(BadCaller(row.callers[k])), labels, table;
      }
      var name := FairAdmission.Lower(row.callers[k]);
      if name in table {
        assert Repeats(row, claimed, k);
        return Some(CallerTwice(name)), labels, table;
      }
      labels := labels + [name];
      table := table[name := row.id];
    }
    return None, labels, table;
  }

  /** One row: claimed when it is well formed, its id is new and its labels are free. */
  method LoadRow(rows: seq<AppRow>, n: nat, money: Money, seen: seq<string>, claimed: seq<string>,
        appOf: map<string, string>)
    returns (fault: Option<Problem>, labels: seq<string>, table: map<string, string>)
    requires n < |rows| && claimed == Labels(rows, n) && Loadable(rows, n) && Mapped(rows, n, appOf)
    requires |seen| == n && forall i :: 0 <= i < n ==> seen[i] == rows[i].id
    ensures fault.None? ==> labels == Labels(rows, n + 1) && Loadable(rows, n + 1) && Mapped(rows, n + 1, table)
    ensures fault.Some? ==> !Loadable(rows, |rows|) && Blamed(rows, money, fault.value)
  {
    hide Loadable, Mapped, Labels, Lowered, RepeatedLabel, Repeats, IsIdentifier;
    var row := rows[n];
    labels, table := claimed, appOf;
    LoadsOneMore(rows, n, seen);
    LabelsKnown(rows, n, appOf);
    ghost var before := appOf;
    if !Loadable(rows, n + 1) {
      NotLoadable(rows, n);
    }
    if !IsIdentifier(row.id) {
      return Some(BadId(row.id)), labels, table;
    }
    if row.id in seen {
      return Some(DuplicateApp(row.id)), labels, table;
    }
    if !GoodName(row) {
      return Some(BadName(row.id)), labels, table;
    }
    if row.callers == [] {
      return Some(NoCallers(row.id)), labels, table;
    }
    fault, labels, table := Claim(row, claimed, appOf);
    if fault.Some? {
      if fault.value.CallerTwice? {
        ghost var k: nat :| k < |row.callers| && Repeats(row, claimed, k)
              && fault.value.caller == FairAdmission.Lower(row.callers[k]);
        RepeatUnloadable(rows, n, k);
      }
      return;
    }
    if !GoodMode(row) {
      return Some(BadMode(row.id)), labels, table;
    }
    if !GoodNote(row) {
      return Some(BadNote(row.id)), labels, table;
    }
    MappedStep(rows, n, before, table);
  }

  /** The app whose money is real must be configured as such, and its phrase must fit. */
  method CheckMoney(rows: seq<AppRow>, money: Money) returns (fault: Option<Problem>)
    requires DistinctIds(rows, |rows|)
    ensures fault.None? <==> GoodMoney(rows, money)
    ensures fault.Some? ==> Blamed(rows, money, fault.value)
  {
    for i := 0 to |rows|
      invariant forall j :: 0 <= j < i ==> rows[j].id != money.app
    {
      if rows[i].id == money.app {
        if rows[i].mode != REAL {
          return Some(MoneyNotReal);
        }
        return if 3 <= |money.phrase| <= 80 then None else Some(BadPhrase);
      }
    }
    return Some(MoneyUnknown);
  }

  /**
   Load the rows: accepted exactly when there are any, each is well formed, the ids
   are distinct, no label, compared without case, is listed twice, and the money
   control names a real-money app; and then every label leads to the one app that
   lists it. A refusal names a fault the configuration really has.
   */
  method LoadApps(rows: seq<AppRow>, money: Money) returns (r: Result<map<string, string>, Problem>)
    ensures r.Ok? <==> rows != [] && Loadable(rows, |rows|) && GoodMoney(rows, money)
    ensures r.Ok? ==> Mapped(rows, |rows|, r.value)
    ensures r.Err? ==> Blamed(rows, money, r.error)
  {
    hide Mapped, Labels, Lowered, RepeatedLabel, WellFormed, GoodMoney;
    if rows == [] {
      return Err(NoApps);
    }
    EmptyLoads(rows);
    var seen: seq<string> := [];
    var labels: seq<string>, appOf: map<string, string> := [], map[];
    for n := 0 to |rows|
      invariant labels == Labels(rows, n) && Loadable(rows, n) && Mapped(rows, n, appOf)
      invariant |seen| == n && forall i :: 0 <= i < n ==> seen[i] == rows[i].id
    {
      var fault, more, table := LoadRow(rows, n, money, seen, labels, appOf);
      if fault.Some? {
        return Err(fault.value);
      }
      seen := seen + [rows[n].id];
      labels, appOf := more, table;
    }
    var fault := CheckMoney(rows, money);
    if fault.Some? {
      return Err(fault.value);
    }
    return Ok(appOf);
  }

  lemma EmptyLoads(rows: seq<AppRow>)
    ensures Labels(rows, 0) == [] && Loadable(rows, 0) && Mapped(rows, 0, map[])
  {
  }

  lemma LabelsKnown(rows: seq<AppRow>, n: nat, appOf: map<string, string>)
    requires n <= |rows| && Loadable(rows, n) && Mapped(rows, n, appOf)
    ensures NoDup(Labels(rows, n)) && forall c :: c in appOf <==> c in Labels(rows, n)
  {
  }

  /** When one more row keeps the configuration loadable. */
  lemma LoadsOneMore(rows: seq<AppRow>, n: nat, seen: seq<string>)
    requires n < |rows| && Loadable(rows, n) && |seen| == n && forall i :: 0 <= i < n ==> seen[i] == rows[i].id
    ensures Labels(rows, n + 1) == Labels(rows, n) + Lowered(rows[n].callers, |rows[n].callers|)
    ensures Loadable(rows, n + 1) <==>
              rows[n].id !in seen && WellFormed(rows[n]) && NoDup(Labels(rows, n + 1))
  {
    hide Labels;
    assert Labels(rows, n + 1) == Labels(rows, n) + Lowered(rows[n].callers, |rows[n].callers|)
          by { LabelsSnoc(rows, n); }
    if rows[n].id in seen {
      var i :| 0 <= i < n && rows[i].id == rows[n].id;
    }
  }

  lemma LabelsSnoc(rows: seq<AppRow>, n: nat)
    requires n < |rows|
    ensures Labels(rows, n + 1) == Labels(rows, n) + Lowered(rows[n].callers, |rows[n].callers|)
  {
  }

  lemma NotLoadable(rows: seq<AppRow>, n: nat)
    requires n < |rows| && !Loadable(rows, n + 1)
    ensures !Loadable(rows, |rows|)
  {
    if Loadable(rows, |rows|) {
      LoadableSmaller(rows, n + 1, |rows|);
    }
  }

  lemma DisjointParts<T>(a: seq<T>, b: seq<T>)
    requires NoDup(a + b)
    ensures forall x :: x in b ==> x !in a
  {
    forall i, j | 0 <= i < |a| && 0 <= j < |b| ensures a[i] != b[j] {
      assert (a + b)[i] == a[i] && (a + b)[|a| + j] == b[j];
    }
  }

  lemma MappedStep(rows: seq<AppRow>, n: nat, before: map<string, string>, table: map<string, string>)
    requires n < |rows| && Mapped(rows, n, before) && NoDup(Labels(rows, n + 1))
    requires forall c :: c in table <==> c in Labels(rows, n + 1)
    requires forall c :: c in table ==> table[c] == if c in before then before[c] else rows[n].id
    ensures Mapped(rows, n + 1, table)
  {
    hide FairAdmission.Lower, Labels, Lowered;
    LabelsSnoc(rows, n);
    var front, back := Labels(rows, n), Lowered(rows[n].callers, |rows[n].callers|);
    DisjointParts(front, back);
    forall i, k | 0 <= i < n + 1 && 0 <= k < |rows[i].callers|
      ensures FairAdmission.Lower(rows[i].callers[k]) in table
              && table[FairAdmission.Lower(rows[i].callers[k])] == rows[i].id
    {
      var c := FairAdmission.Lower(rows[i].callers[k]);
      if i == n {
        assert c in back by { LoweredIs(rows[n].callers, |rows[n].callers|); assert back[k] == c; }
      } else {
        assert c in before && before[c] == rows[i].id;
      }
    }
    forall c | c in table ensures exists i :: 0 <= i < n + 1 && rows[i].id == table[c] {
      if c in before {
        var i :| 0 <= i < n && rows[i].id == before[c];
      }
    }
  }

  ghost predicate Lists(row: AppRow, caller: string) {
    exists k :: 0 <= k < |row.callers| && FairAdmission.Lower(row.callers[k]) == FairAdmission.Lower(caller)
  }

  lemma {:induction false} LabelListed(rows: seq<AppRow>, n: nat, caller: string)
    requires n <= |rows|
    ensures FairAdmission.Lower(caller) in Labels(rows, n) ==> exists i :: 0 <= i < n && Lists(rows[i], caller)
  {
    hide FairAdmission.Lower;
    if n > 0 {
      LabelListed(rows, n - 1, caller);
      LoweredIs(rows[n - 1].callers, |rows[n - 1].callers|);
      if FairAdmission.Lower(caller) in Lowered(rows[n - 1].callers, |rows[n - 1].callers|) {
        assert Lists(rows[n - 1], caller);
      }
    }
  }

  /** What access control relies on: a caller's app is the one row that lists it, whatever its case. */
  lemma AppForCaller(rows: seq<AppRow>, table: map<string, string>, caller: string, app: string)
    requires Mapped(rows, |rows|, table)
    ensures var apps := Publication.Apps(ControlLog.Registry(set i | 0 <= i < |rows| :: rows[i].id), table);
      && apps.Valid()
      && (apps.AppFor(caller) == Some(app) <==>
            exists i :: 0 <= i < |rows| && rows[i].id == app && Lists(rows[i], caller))
  {
    hide FairAdmission.Lower, Labels;
    LabelListed(rows, |rows|, caller);
  }
}
