/** Small shared vocabulary: optional values, finite sums, and deques without duplicates. */
module Prelude {

  datatype Option<+T> = None | Some(value: T)

  datatype Result<+T, +E> = Ok(value: T) | Err(error: E)

  function Max(a: int, b: int): int { if a < b then b else a }

  function RMax(a: real, b: real): real { if a < b then b else a }

  function RMin(a: real, b: real): real { if b < a then b else a }

  function Sum(s: seq<int>): int {
    if s == [] then 0 else s[0] + Sum(s[1..])
  }

  /** Pointwise order lifts to sums. */
  lemma {:induction false} SumLe(a: seq<int>, b: seq<int>)
    requires |a| == |b|
    requires forall i :: 0 <= i < |a| ==> a[i] <= b[i]
    ensures Sum(a) <= Sum(b)
  {
    if a != [] {
      SumLe(a[1..], b[1..]);
    }
  }

  lemma {:induction false} SumPlus(a: seq<int>, b: seq<int>, c: seq<int>)
    requires |a| == |b| == |c|
    requires forall i :: 0 <= i < |a| ==> c[i] == a[i] + b[i]
    ensures Sum(c) == Sum(a) + Sum(b)
  {
    if a != [] {
      SumPlus(a[1..], b[1..], c[1..]);
    }
  }

  lemma {:induction false} SumUpdate(a: seq<int>, i: nat, v: int)
    requires i < |a|
    ensures Sum(a[i := v]) == Sum(a) - a[i] + v
  {
    if i == 0 {
      assert a[0 := v][1..] == a[1..];
    } else {
      assert a[i := v][1..] == a[1..][i - 1 := v];
      SumUpdate(a[1..], i - 1, v);
    }
  }

  lemma {:induction false} SumConst(a: seq<int>, v: int)
    requires forall i :: 0 <= i < |a| ==> a[i] == v
    ensures Sum(a) == |a| * v
  {
    if a != [] {
      SumConst(a[1..], v);
    }
  }

  /** One element of a sequence of non-negative numbers is at most the sum. */
  lemma SumAt(a: seq<int>, i: nat)
    requires i < |a|
    requires forall j :: 0 <= j < |a| ==> 0 <= a[j]
    ensures a[i] <= Sum(a)
  {
    var zeros := seq(|a|, _ => 0);
    SumConst(zeros, 0);
    SumUpdate(zeros, i, a[i]);
    SumLe(zeros[i := a[i]], a);
  }

  // ---------------------------------------------------------------- deques

  ghost predicate NoDup<T>(s: seq<T>) {
    forall i, j :: 0 <= i < j < |s| ==> s[i] != s[j]
  }

  /** Where x first stands in s. */
  function Index<T(==)>(s: seq<T>, x: T): (i: nat)
    requires x in s
    ensures i < |s| && s[i] == x && x !in s[..i]
  {
    if s[0] == x then 0 else
      var i := 1 + Index(s[1..], x);
      assert s[..i] == [s[0]] + s[1..][..i - 1];
      i
  }

  /** The sequence without its first occurrence of x. */
  function Without<T(==)>(s: seq<T>, x: T): seq<T> {
    if x in s then s[..Index(s, x)] + s[Index(s, x) + 1..] else s
  }

  lemma IndexUnique<T>(s: seq<T>, x: T, i: nat)
    requires NoDup(s) && i < |s| && s[i] == x
    ensures Index(s, x) == i
  {
  }

  lemma WithoutContents<T>(s: seq<T>, x: T)
    requires NoDup(s) && x in s
    ensures NoDup(Without(s, x)) && |Without(s, x)| == |s| - 1
    ensures forall y :: y in Without(s, x) <==> y in s && y != x
  {
    hide Index, NoDup;
    WithoutAt(s, Index(s, x));
  }

  lemma WithoutAt<T>(s: seq<T>, i: nat)
    requires NoDup(s) && i < |s|
    ensures NoDup(s[..i] + s[i + 1..]) && forall y :: y in s[..i] + s[i + 1..] <==> y in s && y != s[i]
  {
    var r := s[..i] + s[i + 1..];
    forall j, k | 0 <= j < k < |r| ensures r[j] != r[k] {
      assert r[j] == s[if j < i then j else j + 1] && r[k] == s[if k < i then k else k + 1];
    }
    assert s == s[..i] + [s[i]] + s[i + 1..];
    forall j | 0 <= j < |r| ensures r[j] != s[i] {
      assert r[j] == s[if j < i then j else j + 1];
    }
  }

  lemma IndexAppend<T>(s: seq<T>, x: T, y: T)
    requires x in s
    ensures Index(s + [y], x) == Index(s, x)
  {
    if s[0] != x {
      assert (s + [y])[1..] == s[1..] + [y];
      IndexAppend(s[1..], x, y);
    }
  }

  lemma IndexTail<T>(s: seq<T>, x: T)
    requires x in s && s[0] != x
    ensures x in s[1..] && Index(s[1..], x) == Index(s, x) - 1
  {
    assert s == [s[0]] + s[1..];
  }

  lemma IndexWithout<T>(s: seq<T>, x: T, y: T)
    requires NoDup(s) && x in s && y in s && x != y
    ensures x in Without(s, y) && Index(Without(s, y), x) <= Index(s, x)
  {
    WithoutContents(s, y);
    var i, j := Index(s, x), Index(s, y);
    IndexUnique(Without(s, y), x, if i < j then i else i - 1);
  }

  /** Rotating the deque keeps its members; dropping its front loses exactly that one. */
  lemma Rotate<T>(cs: seq<T>)
    requires NoDup(cs) && cs != []
    ensures NoDup(cs[1..]) && NoDup(cs[1..] + [cs[0]])
    ensures forall c :: c in cs[1..] <==> c in cs && c != cs[0]
    ensures forall c :: c in cs[1..] + [cs[0]] <==> c in cs
  {
    assert cs == [cs[0]] + cs[1..];
  }

  // ---------------------------------------------------------------- totals of a table

  ghost function MapTotal<K(!new)>(m: map<K, int>): int
    decreases |m|
  {
    if m == map[] then 0
    else
      var k :| k in m;
      m[k] + MapTotal(m - {k})
  }

  lemma {:induction false} MapTotalRemove<K(!new)>(m: map<K, int>, k: K)
    requires k in m
    ensures MapTotal(m) == m[k] + MapTotal(m - {k})
    decreases |m|
  {
    var j :| j in m && MapTotal(m) == m[j] + MapTotal(m - {j});
    if j != k {
      MapTotalRemove(m - {j}, k);
      MapTotalRemove(m - {k}, j);
      assert m - {j} - {k} == m - {k} - {j};
    }
  }

  lemma MapTotalUpdate<K(!new)>(m: map<K, int>, k: K, v: int)
    ensures MapTotal(m[k := v]) == MapTotal(m) - (if k in m then m[k] else 0) + v
  {
    MapTotalRemove(m[k := v], k);
    assert m[k := v] - {k} == m - {k};
    if k in m {
      MapTotalRemove(m, k);
    } else {
      assert m - {k} == m;
    }
  }

  /** Splitting a table by keys splits its total. */
  lemma {:induction false} MapTotalSplit<K(!new)>(m: map<K, int>, gone: set<K>)
    ensures MapTotal(m) == MapTotal(m - gone) + MapTotal(m - (m.Keys - gone))
    decreases |m|
  {
    hide MapTotal;
    if m == map[] {
      assert m - gone == map[] && m - (m.Keys - gone) == map[];
      MapTotalEmpty<K>();
    } else {
      var k :| k in m;
      MapTotalRemove(m, k);
      MapTotalSplit(m - {k}, gone);
      SplitStep(m, gone, k);
    }
  }

  lemma MapTotalEmpty<K(!new)>()
    ensures MapTotal<K>(map[]) == 0
  {
  }

  lemma SplitStep<K(!new)>(m: map<K, int>, gone: set<K>, k: K)
    requires k in m
    ensures var r := m - {k};
      MapTotal(m - gone) + MapTotal(m - (m.Keys - gone)) == m[k] + MapTotal(r - gone) + MapTotal(r - (r.Keys - gone))
  {
    hide MapTotal;
    var r := m - {k};
    if k in gone {
      assert r - gone == m - gone;
      MapTotalRemove(m - (m.Keys - gone), k);
      assert m - (m.Keys - gone) - {k} == r - (r.Keys - gone);
    } else {
      MapTotalRemove(m - gone, k);
      assert m - gone - {k} == r - gone;
      assert m - (m.Keys - gone) == r - (r.Keys - gone);
    }
  }
}
