/** Frequency tables as the aggregator builds them with Python's `Counter`.

    A table is a sequence of (key, count) entries. Keys appear in the order in
    which they were first counted, as the insertion-ordered dictionary under
    `Counter` keeps them; `MostCommon` is the stable descending sort behind
    `Counter.most_common()`, and `FirstMax` is `max` over the table's items,
    which keeps the first of several equal maxima.
 */
module Counter {
  import opened Optional

  datatype Entry<K> = Entry(key: K, count: nat)

  /** Keep the present values `f(x)` of the elements, in order. */
  function Collect<S, T>(xs: seq<S>, f: S -> Option<T>): (r: seq<T>)
    ensures |r| <= |xs|
  {
    if |xs| == 0 then []
    else (if f(xs[0]).Some? then [f(xs[0]).value] else []) + Collect(xs[1..], f)
  }

  lemma {:induction false} CollectConcat<S, T>(a: seq<S>, b: seq<S>, f: S -> Option<T>)
    ensures Collect(a + b, f) == Collect(a, f) + Collect(b, f)
  {
    if |a| == 0 {
      assert a + b == b;
    } else {
      var head := if f(a[0]).Some? then [f(a[0]).value] else [];
      assert (a + b)[0] == a[0];
      assert (a + b)[1..] == a[1..] + b;
      CollectConcat(a[1..], b, f);
      assert Collect(a, f) == head + Collect(a[1..], f);
      assert Collect(a + b, f) == head + Collect(a[1..] + b, f);
    }
  }

  /** An element that `f` maps to nothing leaves no trace in the result. */
  lemma CollectSkip<S, T>(a: seq<S>, x: S, b: seq<S>, f: S -> Option<T>)
    requires f(x).None?
    ensures Collect(a + [x] + b, f) == Collect(a + b, f)
  {
    CollectConcat(a + [x], b, f);
    CollectConcat(a, [x], f);
    CollectConcat(a, b, f);
    assert Collect([x], f) == [] by {
      assert [x][1..] == [];
    }
  }

  /** Number of elements satisfying `p`. */
  function CountWhere<S>(xs: seq<S>, p: S -> bool): (n: nat)
    ensures n <= |xs|
  {
    if |xs| == 0 then 0 else (if p(xs[0]) then 1 else 0) + CountWhere(xs[1..], p)
  }

  /** A positive count has a witness. */
  lemma {:induction false} CountWhereWitness<S>(xs: seq<S>, p: S -> bool)
    requires CountWhere(xs, p) > 0
    ensures exists i :: 0 <= i < |xs| && p(xs[i])
  {
    if !p(xs[0]) {
      CountWhereWitness(xs[1..], p);
      var i :| 0 <= i < |xs[1..]| && p(xs[1..][i]);
      assert p(xs[i + 1]);
    }
  }

  predicate DistinctKeys<K(==)>(t: seq<Entry<K>>) {
    forall i, j :: 0 <= i < j < |t| ==> t[i].key != t[j].key
  }

  predicate HasKey<K(==)>(t: seq<Entry<K>>, k: K) {
    exists i :: 0 <= i < |t| && t[i].key == k
  }

  predicate AllPositive<K(==)>(t: seq<Entry<K>>) {
    forall i :: 0 <= i < |t| ==> t[i].count > 0
  }

  /** `counter[k]`: the count stored for `k`, or 0 when `k` is absent. */
  function Lookup<K(==)>(t: seq<Entry<K>>, k: K): nat {
    if |t| == 0 then 0
    else if t[0].key == k then t[0].count
    else Lookup(t[1..], k)
  }

  /** `sum(counter.values())`. */
  function Total<K(==)>(t: seq<Entry<K>>): nat {
    if |t| == 0 then 0 else t[0].count + Total(t[1..])
  }

  lemma {:induction false} LookupAbsent<K>(t: seq<Entry<K>>, k: K)
    requires !HasKey(t, k)
    ensures Lookup(t, k) == 0
  {
    if |t| > 0 {
      assert !HasKey(t[1..], k);
      LookupAbsent(t[1..], k);
    }
  }

  lemma {:induction false} LookupAt<K>(t: seq<Entry<K>>, i: int)
    requires DistinctKeys(t)
    requires 0 <= i < |t|
    ensures Lookup(t, t[i].key) == t[i].count
  {
    if i > 0 {
      assert t[0].key != t[i].key;
      LookupAt(t[1..], i - 1);
    }
  }

  /** With positive counts, a key is present exactly when its count is. */
  lemma HasKeyIffLookup<K>(t: seq<Entry<K>>, k: K)
    requires DistinctKeys(t) && AllPositive(t)
    ensures HasKey(t, k) <==> Lookup(t, k) > 0
  {
    if HasKey(t, k) {
      var i :| 0 <= i < |t| && t[i].key == k;
      LookupAt(t, i);
    } else {
      LookupAbsent(t, k);
    }
  }

  /** `counter[k] += 1`: bump an existing key in place, or append it with count 1. */
  function Bump<K(==)>(t: seq<Entry<K>>, k: K): seq<Entry<K>> {
    if |t| == 0 then [Entry(k, 1)]
    else if t[0].key == k then [Entry(k, t[0].count + 1)] + t[1..]
    else [t[0]] + Bump(t[1..], k)
  }

  /** Bumping adds one to the count of `k` and to nothing else. */
  lemma {:induction false} BumpCounts<K>(t: seq<Entry<K>>, k: K)
    ensures forall x :: Lookup(Bump(t, k), x) == Lookup(t, x) + (if x == k then 1 else 0)
    ensures Total(Bump(t, k)) == Total(t) + 1
  {
    if |t| > 0 {
      var r := Bump(t, k);
      if t[0].key == k {
        assert r[1..] == t[1..];
      } else {
        BumpCounts(t[1..], k);
        assert r[1..] == Bump(t[1..], k);
      }
    }
  }

  /** An existing key keeps its place and a new one goes last; counts stay
      positive. */
  lemma {:induction false} BumpShape<K>(t: seq<Entry<K>>, k: K)
    ensures var r := Bump(t, k);
      && (HasKey(t, k) ==> |r| == |t| && forall i :: 0 <= i < |t| ==> r[i].key == t[i].key)
      && (!HasKey(t, k) ==> r == t + [Entry(k, 1)])
      && (AllPositive(t) ==> AllPositive(r))
  {
    var r := Bump(t, k);
    if |t| > 0 && t[0].key != k {
      BumpShape(t[1..], k);
      assert HasKey(t, k) ==> HasKey(t[1..], k) by {
        if HasKey(t, k) {
          var i :| 0 <= i < |t| && t[i].key == k;
          assert t[1..][i - 1].key == k;
        }
      }
      assert HasKey(t[1..], k) ==> HasKey(t, k) by {
        if HasKey(t[1..], k) {
          var i :| 0 <= i < |t[1..]| && t[1..][i].key == k;
          assert t[i + 1].key == k;
        }
      }
      assert t == [t[0]] + t[1..];
      assert r == [t[0]] + Bump(t[1..], k);
    } else if |t| > 0 {
      assert r == [Entry(k, t[0].count + 1)] + t[1..];
    }
  }

  /** Index of the first occurrence of `k` in `ks`, or `|ks|` when it does not occur. */
  function FirstIndex<K(==)>(ks: seq<K>, k: K): (i: nat)
    ensures i <= |ks|
    ensures i < |ks| <==> k in ks
    ensures i < |ks| ==> ks[i] == k
    ensures forall j :: 0 <= j < i ==> ks[j] != k
  {
    if |ks| == 0 then 0
    else if ks[0] == k then 0
    else 1 + FirstIndex(ks[1..], k)
  }

  lemma {:induction false} FirstIndexSnoc<K>(ks: seq<K>, x: K, k: K)
    ensures k in ks ==> FirstIndex(ks + [x], k) == FirstIndex(ks, k)
    ensures k !in ks && k == x ==> FirstIndex(ks + [x], k) == |ks|
  {
    var i := FirstIndex(ks + [x], k);
    if k in ks {
      var j := FirstIndex(ks, k);
      assert (ks + [x])[j] == k;
    }
  }

  /** `Counter(ks)`: count every key, in order of first occurrence. */
  function Count<K(==)>(ks: seq<K>): seq<Entry<K>> {
    if |ks| == 0 then []
    else Bump(Count(ks[..|ks| - 1]), ks[|ks| - 1])
  }

  /** The table has each key of `ks` once, with its number of occurrences, and
      nothing else. */
  lemma {:induction false} CountSpec<K>(ks: seq<K>)
    ensures var r := Count(ks);
      && DistinctKeys(r)
      && AllPositive(r)
      && (forall k :: Lookup(r, k) == multiset(ks)[k])
      && Total(r) == |ks|
      && (forall i :: 0 <= i < |r| ==> r[i].key in ks)
  {
    if |ks| > 0 {
      var init := ks[..|ks| - 1];
      var x := ks[|ks| - 1];
      assert ks == init + [x];
      var t := Count(init);
      CountSpec(init);
      HasKeyIffLookup(t, x);
      BumpCounts(t, x);
      BumpShape(t, x);
    }
  }

  /** Keys of `Count(ks)` appear in the order of their first occurrence in `ks`. */
  lemma {:induction false} CountFirstOccurrenceOrder<K(!new)>(ks: seq<K>)
    ensures forall i, j :: 0 <= i < j < |Count(ks)| ==>
              FirstIndex(ks, Count(ks)[i].key) < FirstIndex(ks, Count(ks)[j].key)
  {
    if |ks| > 0 {
      var init := ks[..|ks| - 1];
      var x := ks[|ks| - 1];
      assert ks == init + [x];
      var t := Count(init);
      var r := Count(ks);
      CountFirstOccurrenceOrder(init);
      CountSpec(init);
      HasKeyIffLookup(t, x);
      BumpCounts(t, x);
      BumpShape(t, x);
      forall i, j | 0 <= i < j < |r|
        ensures FirstIndex(ks, r[i].key) < FirstIndex(ks, r[j].key)
      {
        FirstIndexSnoc(init, x, r[i].key);
        FirstIndexSnoc(init, x, r[j].key);
        if j == |t| {
          assert r[j].key == x && x !in init;
        }
      }
    }
  }

  /** Counts never increase along the table. */
  predicate NonIncreasing<K(==)>(t: seq<Entry<K>>) {
    forall i, j :: 0 <= i < j < |t| ==> t[i].count >= t[j].count
  }

  /** Sorted by descending count, equal counts ordered by ascending `rank` of their keys. */
  predicate RankOrdered<K(==)>(t: seq<Entry<K>>, rank: K -> int) {
    forall i, j :: 0 <= i < j < |t| ==>
      t[i].count > t[j].count || (t[i].count == t[j].count && rank(t[i].key) < rank(t[j].key))
  }

  /** Place `e` after every leading entry whose count is at least its own. */
  function InsertByCount<K>(e: Entry<K>, s: seq<Entry<K>>): seq<Entry<K>> {
    if |s| == 0 || s[0].count < e.count then [e] + s
    else [s[0]] + InsertByCount(e, s[1..])
  }

  /** Inserting adds `e` and keeps every other entry. */
  lemma {:induction false} InsertByCountSpec<K>(e: Entry<K>, s: seq<Entry<K>>)
    ensures var r := InsertByCount(e, s);
      && multiset(r) == multiset(s) + multiset{e}
      && |r| == |s| + 1
      && Total(r) == Total(s) + e.count
  {
    var r := InsertByCount(e, s);
    if |s| == 0 || s[0].count < e.count {
      assert r == [e] + s;
      assert multiset(r) == multiset{e} + multiset(s);
    } else {
      var rest := InsertByCount(e, s[1..]);
      InsertByCountSpec(e, s[1..]);
      assert s == [s[0]] + s[1..];
      assert r == [s[0]] + rest;
      assert r[1..] == rest;
      assert multiset(r) == multiset{s[0]} + multiset(rest);
      assert multiset(s) == multiset{s[0]} + multiset(s[1..]);
    }
  }

  /** An entry of `InsertByCount(e, s)` is `e` or an entry of `s`. */
  lemma InsertByCountFrom<K>(e: Entry<K>, s: seq<Entry<K>>, j: int)
    requires 0 <= j < |InsertByCount(e, s)|
    ensures InsertByCount(e, s)[j] == e || exists k :: 0 <= k < |s| && s[k] == InsertByCount(e, s)[j]
  {
    var r := InsertByCount(e, s);
    InsertByCountSpec(e, s);
    assert r[j] in multiset(r);
    if r[j] != e {
      assert r[j] in multiset(s);
      assert r[j] in s;
    }
  }

  lemma {:induction false} InsertByCountSorted<K>(e: Entry<K>, s: seq<Entry<K>>)
    requires NonIncreasing(s)
    ensures NonIncreasing(InsertByCount(e, s))
  {
    var r := InsertByCount(e, s);
    if |s| > 0 && s[0].count >= e.count {
      var rest := InsertByCount(e, s[1..]);
      assert r == [s[0]] + rest;
      InsertByCountSorted(e, s[1..]);
      InsertByCountSpec(e, s[1..]);
      forall j | 0 < j < |r| ensures r[0].count >= r[j].count {
        InsertByCountFrom(e, s[1..], j - 1);
        assert r[j] == rest[j - 1];
        if r[j] != e {
          var k :| 0 <= k < |s[1..]| && s[1..][k] == r[j];
          assert s[k + 1] == r[j];
        }
      }
    }
  }

  /** `Counter.most_common()`: a stable sort of the table by descending count. */
  function MostCommon<K>(t: seq<Entry<K>>): seq<Entry<K>> {
    if |t| == 0 then []
    else InsertByCount(t[|t| - 1], MostCommon(t[..|t| - 1]))
  }

  /** Sorting keeps every entry and orders the counts from high to low. */
  lemma {:induction false} MostCommonSpec<K>(t: seq<Entry<K>>)
    ensures var r := MostCommon(t);
      && multiset(r) == multiset(t)
      && |r| == |t|
      && Total(r) == Total(t)
      && NonIncreasing(r)
  {
    if |t| > 0 {
      var init := t[..|t| - 1];
      assert t == init + [t[|t| - 1]];
      MostCommonSpec(init);
      TotalSnoc(init, t[|t| - 1]);
      InsertByCountSpec(t[|t| - 1], MostCommon(init));
      InsertByCountSorted(t[|t| - 1], MostCommon(init));
    }
  }

  lemma {:induction false} TotalSnoc<K>(t: seq<Entry<K>>, e: Entry<K>)
    ensures Total(t + [e]) == Total(t) + e.count
  {
    if |t| > 0 {
      assert (t + [e])[1..] == t[1..] + [e];
      TotalSnoc(t[1..], e);
    }
  }

  /** Inserting an entry whose rank exceeds every present rank keeps the rank order. */
  lemma {:induction false} InsertByCountRankOrdered<K>(e: Entry<K>, s: seq<Entry<K>>, rank: K -> int)
    requires RankOrdered(s, rank)
    requires forall i :: 0 <= i < |s| ==> rank(s[i].key) < rank(e.key)
    ensures RankOrdered(InsertByCount(e, s), rank)
  {
    var r := InsertByCount(e, s);
    if |s| == 0 || s[0].count < e.count {
      assert r == [e] + s;
    } else {
      var rest := InsertByCount(e, s[1..]);
      InsertByCountRankOrdered(e, s[1..], rank);
      assert r == [s[0]] + rest;
      forall j | 0 < j < |r|
        ensures r[0].count > r[j].count || (r[0].count == r[j].count && rank(r[0].key) < rank(r[j].key))
      {
        InsertByCountFrom(e, s[1..], j - 1);
        assert r[j] == rest[j - 1];
        if r[j] != e {
          var k :| 0 <= k < |s[1..]| && s[1..][k] == r[j];
          assert s[k + 1] == r[j];
        }
      }
    }
  }

  /** Stability of `MostCommon`: when the input is in strictly increasing rank,
      equal counts keep that order in the output. */
  lemma {:induction false} MostCommonRankOrdered<K>(t: seq<Entry<K>>, rank: K -> int)
    requires forall i, j :: 0 <= i < j < |t| ==> rank(t[i].key) < rank(t[j].key)
    ensures RankOrdered(MostCommon(t), rank)
  {
    if |t| > 0 {
      var init := t[..|t| - 1];
      var e := t[|t| - 1];
      var s := MostCommon(init);
      assert t == init + [e];
      MostCommonRankOrdered(init, rank);
      MostCommonSpec(init);
      forall i | 0 <= i < |s| ensures rank(s[i].key) < rank(e.key) {
        assert s[i] in multiset(init);
        var k :| 0 <= k < |init| && init[k] == s[i];
      }
      InsertByCountRankOrdered(e, s, rank);
    }
  }

  function KeysOf<K(==)>(t: seq<Entry<K>>): seq<K> {
    seq(|t|, i requires 0 <= i < |t| => t[i].key)
  }

  /** An entry of a rearrangement of `t` is an entry of `t`. */
  lemma EntryFrom<K>(t: seq<Entry<K>>, r: seq<Entry<K>>, i: int)
    requires multiset(r) == multiset(t) && 0 <= i < |r|
    ensures exists a :: 0 <= a < |t| && t[a] == r[i]
  {
    assert r[i] in multiset(r);
  }

  /** Sorting a table with distinct keys keeps the keys distinct. */
  lemma MostCommonDistinct<K>(t: seq<Entry<K>>)
    requires DistinctKeys(t)
    ensures DistinctKeys(MostCommon(t))
  {
    var r := MostCommon(t);
    var ks := KeysOf(t);
    var rank := k => FirstIndex(ks, k);
    forall i | 0 <= i < |t| ensures rank(t[i].key) == i {
      assert ks[i] == t[i].key;
    }
    MostCommonRankOrdered(t, rank);
    MostCommonSpec(t);
    forall i, j | 0 <= i < j < |r| ensures r[i].key != r[j].key {
      EntryFrom(t, r, i);
      EntryFrom(t, r, j);
    }
  }

  /** `max(counter.items(), key=count)`: the first entry of maximal count. */
  function FirstMax<K>(t: seq<Entry<K>>): Entry<K>
    requires |t| > 0
  {
    if |t| == 1 then t[0]
    else
      var m := FirstMax(t[1..]);
      if t[0].count >= m.count then t[0] else m
  }

  /** The entry `FirstMax` picks has the largest count, and every entry before
      it has a smaller one. */
  lemma {:induction false} FirstMaxSpec<K>(t: seq<Entry<K>>)
    requires |t| > 0
    ensures forall i :: 0 <= i < |t| ==> t[i].count <= FirstMax(t).count
    ensures exists i :: 0 <= i < |t| && t[i] == FirstMax(t) && forall j :: 0 <= j < i ==> t[j].count < FirstMax(t).count
  {
    if |t| == 1 {
      assert t[0] == FirstMax(t);
    } else {
      var m := FirstMax(t[1..]);
      FirstMaxSpec(t[1..]);
      forall i | 0 < i < |t| ensures t[i].count <= m.count {
        assert t[i] == t[1..][i - 1];
      }
      if t[0].count < m.count {
        var i :| 0 <= i < |t[1..]| && t[1..][i] == m && forall j :: 0 <= j < i ==> t[1..][j].count < m.count;
        assert t[i + 1] == m;
        forall j | 0 <= j < i + 1 ensures t[j].count < m.count {
          if j > 0 { assert t[j] == t[1..][j - 1]; }
        }
      } else {
        assert t[0] == FirstMax(t);
      }
    }
  }

  /** In a table with distinct keys, the first maximal entry's count is the
      largest count any key has. */
  lemma FirstMaxLookup<K>(t: seq<Entry<K>>, k: K)
    requires DistinctKeys(t) && |t| > 0
    ensures Lookup(t, FirstMax(t).key) == FirstMax(t).count
    ensures Lookup(t, k) <= FirstMax(t).count
  {
    var e := FirstMax(t);
    FirstMaxSpec(t);
    var i :| 0 <= i < |t| && t[i] == e && forall j :: 0 <= j < i ==> t[j].count < e.count;
    LookupAt(t, i);
    if HasKey(t, k) {
      var j :| 0 <= j < |t| && t[j].key == k;
      LookupAt(t, j);
    } else {
      LookupAbsent(t, k);
    }
  }

  /** Among keys of maximal count, the first maximal entry has the least index
      in `ks` whenever the table's keys are in increasing `FirstIndex` order. */
  lemma FirstMaxEarliest<K>(t: seq<Entry<K>>, ks: seq<K>, k: K)
    requires DistinctKeys(t) && AllPositive(t) && |t| > 0
    requires forall i, j :: 0 <= i < j < |t| ==> FirstIndex(ks, t[i].key) < FirstIndex(ks, t[j].key)
    requires Lookup(t, k) == FirstMax(t).count
    ensures FirstIndex(ks, FirstMax(t).key) <= FirstIndex(ks, k)
  {
    var e := FirstMax(t);
    FirstMaxSpec(t);
    var i :| 0 <= i < |t| && t[i] == e && forall j :: 0 <= j < i ==> t[j].count < e.count;
    assert t[i].count > 0;
    HasKeyIffLookup(t, k);
    var j :| 0 <= j < |t| && t[j].key == k;
    LookupAt(t, j);
  }

  /** The entry `max` picks from `Counter(ks)` has the largest number of
      occurrences, and among keys occurring as often it occurs first in `ks`. */
  lemma FirstMaxOfCount<K(!new)>(ks: seq<K>)
    requires |ks| > 0
    ensures var e := FirstMax(Count(ks));
      && e.count == multiset(ks)[e.key]
      && (forall k :: multiset(ks)[k] <= e.count)
      && (forall k :: multiset(ks)[k] == e.count ==> FirstIndex(ks, e.key) <= FirstIndex(ks, k))
  {
    var t := Count(ks);
    CountSpec(ks);
    assert Total(t) > 0;
    var e := FirstMax(t);
    FirstMaxLookup(t, e.key);
    forall k ensures multiset(ks)[k] <= e.count {
      FirstMaxLookup(t, k);
    }
    CountFirstOccurrenceOrder(ks);
    forall k | multiset(ks)[k] == e.count ensures FirstIndex(ks, e.key) <= FirstIndex(ks, k) {
      FirstMaxEarliest(t, ks, k);
    }
  }

  /** `Counter(ks).most_common()` lists every key of `ks` once, with its number
      of occurrences. */
  lemma MostCommonOfCount<K(!new)>(ks: seq<K>)
    ensures var r := MostCommon(Count(ks));
      && DistinctKeys(r)
      && (forall i :: 0 <= i < |r| ==> r[i].count == multiset(ks)[r[i].key] > 0)
      && (forall k :: k in ks ==> exists i :: 0 <= i < |r| && r[i].key == k)
  {
    var t := Count(ks);
    var r := MostCommon(t);
    CountSpec(ks);
    MostCommonSpec(t);
    MostCommonDistinct(t);
    forall i | 0 <= i < |r| ensures r[i].count == multiset(ks)[r[i].key] > 0 {
      assert r[i] in multiset(t);
      var k :| 0 <= k < |t| && t[k] == r[i];
      LookupAt(t, k);
    }
    forall k | k in ks ensures exists i :: 0 <= i < |r| && r[i].key == k {
      assert multiset(ks)[k] > 0;
      HasKeyIffLookup(t, k);
      var j :| 0 <= j < |t| && t[j].key == k;
      assert t[j] in multiset(r);
      var i :| 0 <= i < |r| && r[i] == t[j];
    }
  }
}
