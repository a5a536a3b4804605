/**
 * Python dictionaries keep their items in insertion order, and the modelled
 * code depends on that order (it slices `list(d.keys())[:10]`, sorts items
 * stably, and builds dicts from sorted item lists). A dict is therefore
 * modelled as the sequence of its items. This module also holds the stable
 * sort used for `list.sort(key=..., reverse=True)` and `sorted(...)`.
 */
module Assoc {
  import opened Wrappers
  import opened PyStd

  /** The key column of a dict's items, in order (`list(d.keys())`). */
  function Keys<K, V>(d: seq<(K, V)>): (ks: seq<K>)
    ensures |ks| == |d|
    ensures forall i :: 0 <= i < |d| ==> ks[i] == d[i].0
  {
    seq(|d|, i requires 0 <= i < |d| => d[i].0)
  }

  /** Dropping the last item drops exactly its key, if it was not repeated. */
  lemma {:induction false} KeysLast<K, V>(d: seq<(K, V)>, t: K)
    requires |d| > 0
    ensures t in Keys(d) <==> t in Keys(d[..|d| - 1]) || t == d[|d| - 1].0
  {
    var d' := d[..|d| - 1];
    if t in Keys(d) {
      var i :| 0 <= i < |d| && Keys(d)[i] == t;
      if i < |d'| { assert Keys(d')[i] == t; }
    }
    if t in Keys(d') {
      var i :| 0 <= i < |d'| && Keys(d')[i] == t;
      assert Keys(d)[i] == t;
    }
    assert Keys(d)[|d| - 1] == d[|d| - 1].0;
  }

  /** The value column of a dict's items, in order (`list(d.values())`). */
  function Values<K, V>(d: seq<(K, V)>): (vs: seq<V>)
    ensures |vs| == |d|
    ensures forall i :: 0 <= i < |d| ==> vs[i] == d[i].1
  {
    seq(|d|, i requires 0 <= i < |d| => d[i].1)
  }

  /** The items really form a dict: no key occurs twice. */
  predicate KeysDistinct<K(==), V>(d: seq<(K, V)>)
  {
    forall i, j :: 0 <= i < j < |d| ==> d[i].0 != d[j].0
  }

  /** Position of key `k`, or -1 when absent. */
  function IndexOf<K(==), V>(d: seq<(K, V)>, k: K): (r: int)
    ensures -1 <= r < |d|
    ensures 0 <= r ==> d[r].0 == k && forall i :: 0 <= i < r ==> d[i].0 != k
    ensures r < 0 ==> forall i :: 0 <= i < |d| ==> d[i].0 != k
    decreases |d|
  {
    if |d| == 0 then -1
    else if d[0].0 == k then 0
    else
      var r := IndexOf(d[1..], k);
      if r < 0 then -1 else r + 1
  }

  /** `d.get(k)`. */
  function Get<K(==), V>(d: seq<(K, V)>, k: K): (r: Option<V>)
    ensures r.Some? <==> k in Keys(d)
    ensures r.Some? ==> (k, r.value) in d
  {
    var i := IndexOf(d, k);
    if i < 0 then None else Some(d[i].1)
  }

  lemma {:induction false} GetAt<K, V>(d: seq<(K, V)>, i: nat)
    requires KeysDistinct(d) && i < |d|
    ensures Get(d, d[i].0) == Some(d[i].1)
  {
  }

  /** `d[k] = v`: an existing key keeps its position, a new key goes last. */
  function Put<K(==), V>(d: seq<(K, V)>, k: K, v: V): seq<(K, V)>
  {
    var i := IndexOf(d, k);
    if i < 0 then d + [(k, v)] else d[i := (k, v)]
  }

  /** After `d[k] = v`, `k` maps to `v`, every other key keeps its value,
      the keys stay distinct, an existing key keeps the key order and a
      new key is appended. */
  lemma {:induction false} PutFacts<K(!new), V>(d: seq<(K, V)>, k: K, v: V)
    ensures var r := Put(d, k, v);
      && (KeysDistinct(d) ==> KeysDistinct(r))
      && Get(r, k) == Some(v)
      && (forall k' :: k' != k ==> Get(r, k') == Get(d, k'))
      && (k in Keys(d) ==> |r| == |d| && Keys(r) == Keys(d))
      && (k !in Keys(d) ==> r == d + [(k, v)])
  {
    PutGet(d, k, v);
    PutShape(d, k, v);
  }

  lemma {:induction false} PutGet<K(!new), V>(d: seq<(K, V)>, k: K, v: V)
    ensures Get(Put(d, k, v), k) == Some(v)
    ensures forall k' :: k' != k ==> Get(Put(d, k, v), k') == Get(d, k')
  {
    PutLookup(d, k, v, Put(d, k, v));
  }

  lemma {:induction false} PutShape<K, V>(d: seq<(K, V)>, k: K, v: V)
    ensures KeysDistinct(d) ==> KeysDistinct(Put(d, k, v))
    ensures k in Keys(d) ==> |Put(d, k, v)| == |d| && Keys(Put(d, k, v)) == Keys(d)
    ensures k !in Keys(d) ==> Put(d, k, v) == d + [(k, v)]
  {
    var i := IndexOf(d, k);
    var r := Put(d, k, v);
    if i < 0 {
      assert Keys(r)[..|d|] == Keys(d);
    } else {
      assert Keys(r) == Keys(d);
    }
  }

  lemma {:induction false} IndexOfAt<K, V>(d: seq<(K, V)>, k: K, p: int)
    requires -1 <= p < |d|
    requires 0 <= p ==> d[p].0 == k
    requires forall i :: 0 <= i < |d| && (p < 0 || i < p) ==> d[i].0 != k
    ensures IndexOf(d, k) == p
  {
  }

  lemma {:induction false} PutLookup<K, V>(d: seq<(K, V)>, k: K, v: V, r: seq<(K, V)>)
    requires IndexOf(d, k) < 0 ==> r == d + [(k, v)]
    requires 0 <= IndexOf(d, k) ==> r == d[IndexOf(d, k) := (k, v)]
    ensures forall k' :: k' != k ==> IndexOf(r, k') == IndexOf(d, k')
    ensures IndexOf(r, k) == if IndexOf(d, k) < 0 then |d| else IndexOf(d, k)
  {
    var i := IndexOf(d, k);
    assert forall j :: 0 <= j < |d| && j != i ==> r[j] == d[j];
    forall k' | k' != k
      ensures IndexOf(r, k') == IndexOf(d, k')
    {
      IndexOfAt(r, k', IndexOf(d, k'));
    }
    IndexOfAt(r, k, if i < 0 then |d| else i);
  }

  /** Non-increasing under `key`. */
  ghost predicate SortedDesc<T>(s: seq<T>, key: T -> real)
  {
    forall i, j :: 0 <= i < j < |s| ==> key(s[i]) >= key(s[j])
  }

  /** Inserts `x` behind every element whose key is at least `key(x)`, so
      that equal keys keep their arrival order. */
  function InsertDesc<T>(t: seq<T>, x: T, key: T -> real): (r: seq<T>)
    ensures |r| == |t| + 1
    ensures multiset(r) == multiset(t) + multiset{x}
    ensures SortedDesc(t, key) ==> SortedDesc(r, key)
    decreases |t|
  {
    if |t| == 0 then [x]
    else if key(x) > key(t[0]) then [x] + t
    else
      var r' := InsertDesc(t[1..], x, key);
      assert t == [t[0]] + t[1..];
      InsertBelowHead(t, x, key, r');
      [t[0]] + r'
  }

  lemma {:induction false} InsertBelowHead<T>(t: seq<T>, x: T, key: T -> real, r': seq<T>)
    requires |t| > 0 && key(x) <= key(t[0])
    requires multiset(r') == multiset(t[1..]) + multiset{x}
    requires SortedDesc(t, key) ==> SortedDesc(r', key)
    ensures SortedDesc(t, key) ==> SortedDesc([t[0]] + r', key)
  {
    if SortedDesc(t, key) {
      forall i | 0 <= i < |r'|
        ensures key(r'[i]) <= key(t[0])
      {
        assert r'[i] in multiset(r');
        if r'[i] != x {
          assert r'[i] in multiset(t[1..]);
          var j :| 0 <= j < |t[1..]| && t[1..][j] == r'[i];
          assert t[j + 1] == r'[i];
        }
      }
    }
  }

  /** A stable sort into non-increasing key order: Python's
      `sorted(s, key=key, reverse=True)` and `s.sort(key=key, reverse=True)`. */
  function SortDesc<T>(s: seq<T>, key: T -> real): (r: seq<T>)
    ensures |r| == |s|
    ensures multiset(r) == multiset(s)
    ensures SortedDesc(r, key)
    decreases |s|
  {
    if |s| == 0 then []
    else
      assert s == s[..|s| - 1] + [s[|s| - 1]];
      InsertDesc(SortDesc(s[..|s| - 1], key), s[|s| - 1], key)
  }

  /** The items of `s` whose key is `v`, in their order in `s`. */
  function Ties<T>(s: seq<T>, key: T -> real, v: real): seq<T>
    decreases |s|
  {
    if |s| == 0 then []
    else (if key(s[0]) == v then [s[0]] else []) + Ties(s[1..], key, v)
  }

  lemma {:induction false} TiesAppend<T>(a: seq<T>, b: seq<T>, key: T -> real, v: real)
    ensures Ties(a + b, key, v) == Ties(a, key, v) + Ties(b, key, v)
    decreases |a|
  {
    if |a| == 0 {
      assert a + b == b;
    } else {
      var head := if key(a[0]) == v then [a[0]] else [];
      assert (a + b)[0] == a[0] && (a + b)[1..] == a[1..] + b;
      TiesAppend(a[1..], b, key, v);
      assert Ties(a + b, key, v) == head + Ties(a[1..] + b, key, v);
      assert Ties(a, key, v) == head + Ties(a[1..], key, v);
    }
  }

  lemma {:induction false} TiesNone<T>(s: seq<T>, key: T -> real, v: real)
    requires forall i :: 0 <= i < |s| ==> key(s[i]) != v
    ensures Ties(s, key, v) == []
    decreases |s|
  {
    if |s| > 0 {
      TiesNone(s[1..], key, v);
    }
  }

  /** Inserting `x` into a sorted sequence puts it behind every item that
      ties with it. */
  lemma {:induction false} InsertDescTies<T>(t: seq<T>, x: T, key: T -> real, v: real)
    requires SortedDesc(t, key)
    ensures Ties(InsertDesc(t, x, key), key, v) == Ties(t, key, v) + (if key(x) == v then [x] else [])
    decreases |t|
  {
    if |t| == 0 {
      assert InsertDesc(t, x, key) == [x];
      assert Ties([x], key, v) == (if key(x) == v then [x] else []) + Ties([x][1..], key, v);
    } else if key(x) > key(t[0]) {
      assert InsertDesc(t, x, key) == [x] + t;
      TiesFront(t, x, key, v);
    } else {
      var r' := InsertDesc(t[1..], x, key);
      assert InsertDesc(t, x, key) == [t[0]] + r';
      assert SortedDesc(t[1..], key);
      InsertDescTies(t[1..], x, key, v);
      TiesBehind(t, x, key, v, r');
    }
  }

  /** An item outranking the head of a sorted sequence ties with none of
      it. */
  lemma {:induction false} TiesFront<T>(t: seq<T>, x: T, key: T -> real, v: real)
    requires SortedDesc(t, key) && |t| > 0 && key(x) > key(t[0])
    ensures Ties([x] + t, key, v) == Ties(t, key, v) + (if key(x) == v then [x] else [])
  {
    TiesAppend([x], t, key, v);
    assert Ties([x], key, v) == (if key(x) == v then [x] else []) + Ties([x][1..], key, v);
    if key(x) == v {
      assert forall i :: 0 <= i < |t| ==> key(t[i]) <= key(t[0]);
      TiesNone(t, key, v);
    }
  }

  lemma {:induction false} TiesBehind<T>(t: seq<T>, x: T, key: T -> real, v: real, r': seq<T>)
    requires |t| > 0
    requires Ties(r', key, v) == Ties(t[1..], key, v) + (if key(x) == v then [x] else [])
    ensures Ties([t[0]] + r', key, v) == Ties(t, key, v) + (if key(x) == v then [x] else [])
  {
    TiesAppend([t[0]], r', key, v);
    TiesAppend([t[0]], t[1..], key, v);
    assert t == [t[0]] + t[1..];
  }

  lemma {:induction false} TiesSnoc<T>(s: seq<T>, key: T -> real, v: real)
    requires |s| > 0
    ensures Ties(s, key, v) == Ties(s[..|s| - 1], key, v) + (if key(s[|s| - 1]) == v then [s[|s| - 1]] else [])
  {
    var m := |s| - 1;
    var last := [s[m]];
    assert s == s[..m] + last;
    TiesAppend(s[..m], last, key, v);
    assert last[1..] == [];
    assert Ties(last, key, v) == (if key(s[m]) == v then [s[m]] else []) + Ties(last[1..], key, v);
  }

  /** `SortDesc` is stable: for every key value, the items with that key
      come out in the order they went in, as Python's `sorted` promises. */
  lemma {:induction false} SortDescStable<T>(s: seq<T>, key: T -> real, v: real)
    ensures Ties(SortDesc(s, key), key, v) == Ties(s, key, v)
    decreases |s|
  {
    if |s| > 0 {
      var m := |s| - 1;
      var sorted := SortDesc(s[..m], key);
      assert SortDesc(s, key) == InsertDesc(sorted, s[m], key);
      SortDescStable(s[..m], key, v);
      InsertDescTies(sorted, s[m], key, v);
      TiesSnoc(s, key, v);
    }
  }

  /** Keeping the first `n` items of a sorted sequence keeps the `n` largest:
      nothing dropped outranks anything kept. */
  lemma {:induction false} SortedPrefixDominates<T>(s: seq<T>, key: T -> real, n: nat)
    requires SortedDesc(s, key) && n <= |s|
    ensures forall x, y :: x in s[..n] && y in s[n..] ==> key(x) >= key(y)
  {
    forall x, y | x in s[..n] && y in s[n..]
      ensures key(x) >= key(y)
    {
      var i :| 0 <= i < n && s[..n][i] == x;
      var j :| 0 <= j < |s| - n && s[n..][j] == y;
      assert s[i] == x && s[n + j] == y;
    }
  }

  /** Sorting distinct items by descending key and keeping the first `n`
      (Python slice semantics) keeps distinct items, as many as the slice
      allows, in key order, and outranks whatever it drops. */
  lemma {:induction false} RankedPrefix<T>(found: seq<T>, key: T -> real, n: int, r: seq<T>)
    requires Distinct(found) && r == Prefix(SortDesc(found, key), n)
    ensures Distinct(r) && |r| == PrefixLen(|found|, n)
    ensures forall v :: v in r ==> v in found
    ensures forall i, j :: 0 <= i < j < |r| ==> key(r[i]) >= key(r[j])
    ensures forall v, w :: v in found && v !in r && w in r ==> key(w) >= key(v)
  {
    var sorted := SortDesc(found, key);
    DistinctPerm(found, sorted);
    PrefixOfPermutation(found, sorted, r);
    PrefixOfSorted(sorted, key, r);
  }

  lemma {:induction false} PrefixOfSorted<T>(sorted: seq<T>, key: T -> real, r: seq<T>)
    requires SortedDesc(sorted, key) && Distinct(sorted) && |r| <= |sorted| && r == sorted[..|r|]
    ensures Distinct(r)
    ensures forall i, j :: 0 <= i < j < |r| ==> key(r[i]) >= key(r[j])
    ensures forall v, w :: v in sorted[|r|..] && w in r ==> key(w) >= key(v)
  {
    SortedPrefixDominates(sorted, key, |r|);
  }

  lemma {:induction false} PrefixOfPermutation<T>(found: seq<T>, sorted: seq<T>, r: seq<T>)
    requires multiset(sorted) == multiset(found) && |r| <= |sorted| && r == sorted[..|r|]
    ensures forall v :: v in r ==> v in found
    ensures forall v :: v in found && v !in r ==> v in sorted[|r|..]
  {
    assert sorted == r + sorted[|r|..];
    forall v | v in r
      ensures v in found
    {
      assert v in multiset(sorted);
    }
    forall v | v in found && v !in r
      ensures v in sorted[|r|..]
    {
      assert v in multiset(sorted);
    }
  }

  /** Looking up a key other than the last one ignores the last item. */
  lemma {:induction false} GetDropLast<K, V>(d: seq<(K, V)>, k: K)
    requires |d| > 0 && k != d[|d| - 1].0
    ensures Get(d, k) == Get(d[..|d| - 1], k)
  {
    var d' := d[..|d| - 1];
    var p := IndexOf(d', k);
    assert forall i :: 0 <= i < |d'| ==> d'[i] == d[i];
    IndexOfAt(d, k, p);
  }

  /** Reordering the items of a dict keeps its keys distinct. */
  lemma {:induction false} KeysDistinctPerm<K, V>(a: seq<(K, V)>, b: seq<(K, V)>)
    requires KeysDistinct(a) && multiset(a) == multiset(b)
    ensures KeysDistinct(b)
  {
    assert Distinct(a) by {
      forall i, j | 0 <= i < j < |a| ensures a[i] != a[j] {
        assert a[i].0 != a[j].0;
      }
    }
    DistinctPerm(a, b);
    forall i, j | 0 <= i < j < |b|
      ensures b[i].0 != b[j].0
    {
      assert b[i] in multiset(a) && b[j] in multiset(a);
      var p :| 0 <= p < |a| && a[p] == b[i];
      var q :| 0 <= q < |a| && a[q] == b[j];
      assert p != q;
    }
  }

  /** Sorting by descending key and keeping the first `n` (slice
      semantics): as many items as the slice allows, in key order, taken
      from `s` with their multiplicities, and none left behind outranks
      one kept. */
  lemma {:induction false} TopRanked<T>(s: seq<T>, key: T -> real, n: int)
    ensures var r := Prefix(SortDesc(s, key), n);
      && |r| == PrefixLen(|s|, n) && SortedDesc(r, key)
      && multiset(r) <= multiset(s)
      && forall x, y :: x in r && y in multiset(s) - multiset(r) ==> key(x) >= key(y)
  {
    var sorted := SortDesc(s, key);
    var r := Prefix(sorted, n);
    var k := |r|;
    assert sorted == r + sorted[k..];
    assert multiset(s) - multiset(r) == multiset(sorted[k..]);
    SortedPrefix(sorted, key, k);
    SortedPrefixDominates(sorted, key, k);
    assert r == sorted[..k];
  }

  lemma {:induction false} SortedPrefix<T>(s: seq<T>, key: T -> real, k: nat)
    requires SortedDesc(s, key) && k <= |s|
    ensures SortedDesc(s[..k], key)
  {
    forall i, j | 0 <= i < j < k
      ensures key(s[..k][i]) >= key(s[..k][j])
    {
      assert s[..k][i] == s[i] && s[..k][j] == s[j];
    }
  }

  /** Sorting a dict's items and keeping the first `n` keeps its keys
      distinct. */
  lemma {:induction false} KeysDistinctTop<K, V>(d: seq<(K, V)>, key: ((K, V)) -> real, n: int)
    requires KeysDistinct(d)
    ensures KeysDistinct(Prefix(SortDesc(d, key), n))
  {
    var sorted := SortDesc(d, key);
    KeysDistinctPerm(d, sorted);
    var r := Prefix(sorted, n);
    forall i, j | 0 <= i < j < |r|
      ensures r[i].0 != r[j].0
    {
      assert r[i] == sorted[i] && r[j] == sorted[j];
    }
  }
}
