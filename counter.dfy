/**
 * The counting dictionary the pages build with `d[k] = d.get(k, 0) + 1`,
 * kept as an association list so that Python's insertion order is visible,
 * and `sorted(d.items(), key=lambda x: -x[1])`, a stable sort by
 * non-increasing count.
 */
module Counter {
  import opened Seqs

  type Counts<K> = seq<(K, nat)>

  /** `list(d.keys())`, in insertion order. */
  function Keys<K>(c: Counts<K>): (r: seq<K>)
    ensures |r| == |c|
    ensures forall i :: 0 <= i < |c| ==> r[i] == c[i].0
  {
    if |c| == 0 then [] else [c[0].0] + Keys(c[1..])
  }

  /** `d.get(k, 0)`. */
  function Get<K(==)>(c: Counts<K>, k: K): nat {
    if |c| == 0 then 0 else if c[0].0 == k then c[0].1 else Get(c[1..], k)
  }

  /** `d[k] = d.get(k, 0) + 1`: an existing key keeps its place, a new key goes last. */
  function Increment<K(==)>(c: Counts<K>, k: K): Counts<K> {
    if |c| == 0 then [(k, 1)]
    else if c[0].0 == k then [(k, c[0].1 + 1)] + c[1..]
    else [c[0]] + Increment(c[1..], k)
  }

  /** `sum(d.values())`. */
  function Total<K>(c: Counts<K>): nat {
    if |c| == 0 then 0 else c[0].1 + Total(c[1..])
  }

  /** The dictionary a counting loop leaves after visiting `s` in order. */
  function CountAll<K(==)>(s: seq<K>): Counts<K> {
    if |s| == 0 then [] else Increment(CountAll(s[..|s| - 1]), s[|s| - 1])
  }

  lemma {:induction false} KeysIncrement<K>(c: Counts<K>, k: K)
    ensures Keys(Increment(c, k)) == if k in Keys(c) then Keys(c) else Keys(c) + [k]
  {
    if |c| > 0 {
      KeysIncrement(c[1..], k);
      assert Keys(c) == [c[0].0] + Keys(c[1..]);
    }
  }

  lemma {:induction false} GetIncrement<K>(c: Counts<K>, k: K, j: K)
    ensures Get(Increment(c, k), j) == Get(c, j) + (if j == k then 1 else 0)
  {
    if |c| > 0 && c[0].0 != k {
      GetIncrement(c[1..], k, j);
    }
  }

  lemma {:induction false} TotalIncrement<K>(c: Counts<K>, k: K)
    ensures Total(Increment(c, k)) == Total(c) + 1
  {
    if |c| > 0 && c[0].0 != k {
      TotalIncrement(c[1..], k);
    }
  }

  /** After counting `s`, each key's count is its number of occurrences in `s`. */
  lemma {:induction false} CountAllGet<K>(s: seq<K>, k: K)
    ensures Get(CountAll(s), k) == multiset(s)[k]
  {
    if |s| > 0 {
      var p := s[..|s| - 1];
      CountAllGet(p, k);
      GetIncrement(CountAll(p), s[|s| - 1], k);
      assert s == p + [s[|s| - 1]];
    }
  }

  /** The keys are the distinct elements of `s`, in order of first occurrence. */
  lemma {:induction false} CountAllKeys<K(!new)>(s: seq<K>)
    ensures Keys(CountAll(s)) == Dedup(s)
  {
    if |s| > 0 {
      CountAllKeys(s[..|s| - 1]);
      KeysIncrement(CountAll(s[..|s| - 1]), s[|s| - 1]);
    }
  }

  /** The counts add up to the number of counted elements. */
  lemma {:induction false} CountAllTotal<K>(s: seq<K>)
    ensures Total(CountAll(s)) == |s|
  {
    if |s| > 0 {
      CountAllTotal(s[..|s| - 1]);
      TotalIncrement(CountAll(s[..|s| - 1]), s[|s| - 1]);
    }
  }

  lemma {:induction false} TotalAppend<K>(a: Counts<K>, b: Counts<K>)
    ensures Total(a + b) == Total(a) + Total(b)
  {
    if |a| == 0 {
      assert a + b == b;
    } else {
      assert (a + b)[0] == a[0];
      assert (a + b)[1..] == a[1..] + b;
      TotalAppend(a[1..], b);
    }
  }

  predicate NonIncreasing<K>(c: Counts<K>) {
    forall i, j :: 0 <= i < j < |c| ==> c[i].1 >= c[j].1
  }

  /** Insert `x` after every entry whose count is at least its own. */
  function InsertByCount<K>(t: Counts<K>, x: (K, nat)): (r: Counts<K>)
    requires NonIncreasing(t)
    ensures NonIncreasing(r)
    ensures multiset(r) == multiset(t) + multiset{x}
  {
    if |t| == 0 then [x]
    else if t[0].1 < x.1 then
      NonIncreasingCons(x, t);
      [x] + t
    else
      NonIncreasingTail(t);
      var rest := InsertByCount(t[1..], x);
      assert t == [t[0]] + t[1..];
      InsertedBelowHead(t, x, rest);
      NonIncreasingCons(t[0], rest);
      [t[0]] + rest
  }

  /** The tail with `x` inserted stays at or below a head counted at least as often as `x`. */
  lemma InsertedBelowHead<K>(t: Counts<K>, x: (K, nat), rest: Counts<K>)
    requires NonIncreasing(t) && |t| > 0 && t[0].1 >= x.1
    requires multiset(rest) == multiset(t[1..]) + multiset{x}
    ensures forall k :: 0 <= k < |rest| ==> t[0].1 >= rest[k].1
  {
    forall k | 0 <= k < |rest| ensures t[0].1 >= rest[k].1 {
      assert rest[k] in multiset(rest);
      if rest[k] != x {
        assert rest[k] in multiset(t[1..]);
        var j :| 0 <= j < |t[1..]| && t[1..][j] == rest[k];
        assert t[j + 1] == rest[k];
      }
    }
  }

  /** An entry counted at least as often as the first can go in front. */
  lemma NonIncreasingCons<K>(h: (K, nat), c: Counts<K>)
    requires NonIncreasing(c)
    requires |c| == 0 || h.1 >= c[0].1
    ensures NonIncreasing([h] + c)
  {
    var r := [h] + c;
    forall i, j | 0 <= i < j < |r| ensures r[i].1 >= r[j].1 {
      assert r[j] == c[j - 1];
      if i > 0 {
        assert r[i] == c[i - 1];
      }
    }
  }

  /** The tail of a non-increasing list is non-increasing and bounded above by the head. */
  lemma NonIncreasingTail<K>(c: Counts<K>)
    requires NonIncreasing(c) && |c| > 0
    ensures NonIncreasing(c[1..])
    ensures forall k :: 0 <= k < |c| - 1 ==> c[0].1 >= c[1..][k].1
  {
    forall i, j | 0 <= i < j < |c| - 1 ensures c[1..][i].1 >= c[1..][j].1 {
      assert c[1..][i] == c[i + 1] && c[1..][j] == c[j + 1];
    }
  }

  /** `sorted(d.items(), key=lambda x: -x[1])`. */
  function SortByCount<K>(c: Counts<K>): (r: Counts<K>)
    ensures NonIncreasing(r)
    ensures multiset(r) == multiset(c)
    ensures |r| == |c|
  {
    if |c| == 0 then []
    else
      var r := InsertByCount(SortByCount(c[..|c| - 1]), c[|c| - 1]);
      assert c == c[..|c| - 1] + [c[|c| - 1]];
      assert |r| == |multiset(r)|;
      r
  }

  /** The entries with count `v`, in order. */
  function WithCount<K>(c: Counts<K>, v: nat): seq<(K, nat)> {
    if |c| == 0 then [] else (if c[0].1 == v then [c[0]] else []) + WithCount(c[1..], v)
  }

  lemma {:induction false} WithCountAppend<K>(a: Counts<K>, b: Counts<K>, v: nat)
    ensures WithCount(a + b, v) == WithCount(a, v) + WithCount(b, v)
  {
    if |a| == 0 {
      assert a + b == b;
    } else {
      assert a + b == [a[0]] + (a[1..] + b);
      WithCountAppend(a[1..], b, v);
      WithCountCons(a[0], a[1..] + b, v);
      WithCountCons(a[0], a[1..], v);
      assert [a[0]] + a[1..] == a;
    }
  }

  /** In a non-increasing list no entry of count `v` follows one of a smaller count. */
  lemma {:induction false} WithCountInsert<K>(t: Counts<K>, x: (K, nat), v: nat)
    requires NonIncreasing(t)
    ensures WithCount(InsertByCount(t, x), v) ==
      WithCount(t, v) + (if x.1 == v then [x] else [])
  {
    if |t| == 0 {
      WithCountCons(x, [], v);
    } else if t[0].1 < x.1 {
      WithCountInsertFront(t, x, v);
    } else {
      var rest := InsertByCount(t[1..], x);
      WithCountInsert(t[1..], x, v);
      WithCountInsertLater(t, x, v);
    }
  }

  lemma WithCountInsertFront<K>(t: Counts<K>, x: (K, nat), v: nat)
    requires NonIncreasing(t) && |t| > 0 && t[0].1 < x.1
    ensures WithCount(InsertByCount(t, x), v) == WithCount(t, v) + (if x.1 == v then [x] else [])
  {
    assert InsertByCount(t, x) == [x] + t;
    WithCountCons(x, t, v);
    if x.1 == v {
      assert forall i :: 0 <= i < |t| ==> t[i].1 < v by {
        forall i | 0 <= i < |t| ensures t[i].1 < v {
          assert i == 0 || t[0].1 >= t[i].1;
        }
      }
      WithCountNone(t, v);
    }
  }

  lemma WithCountInsertLater<K>(t: Counts<K>, x: (K, nat), v: nat)
    requires NonIncreasing(t) && |t| > 0 && t[0].1 >= x.1
    requires WithCount(InsertByCount(t[1..], x), v) == WithCount(t[1..], v) + (if x.1 == v then [x] else [])
    ensures WithCount(InsertByCount(t, x), v) == WithCount(t, v) + (if x.1 == v then [x] else [])
  {
    InsertByCountLater(t, x);
    ConsTail(t);
    WithCountConsStep(t[0], InsertByCount(t[1..], x), t[1..], if x.1 == v then [x] else [], v);
  }

  lemma InsertByCountLater<K>(t: Counts<K>, x: (K, nat))
    requires NonIncreasing(t) && |t| > 0 && t[0].1 >= x.1
    ensures NonIncreasing(t[1..])
    ensures InsertByCount(t, x) == [t[0]] + InsertByCount(t[1..], x)
  {
  }

  lemma WithCountConsStep<K>(y: (K, nat), rest: Counts<K>, tail: Counts<K>, e: seq<(K, nat)>, v: nat)
    requires WithCount(rest, v) == WithCount(tail, v) + e
    ensures WithCount([y] + rest, v) == WithCount([y] + tail, v) + e
  {
    WithCountCons(y, rest, v);
    WithCountCons(y, tail, v);
  }

  lemma WithCountCons<K>(x: (K, nat), t: Counts<K>, v: nat)
    ensures WithCount([x] + t, v) == (if x.1 == v then [x] else []) + WithCount(t, v)
  {
    var r := [x] + t;
    assert r[0] == x && r[1..] == t;
  }

  lemma {:induction false} WithCountNone<K>(t: Counts<K>, v: nat)
    requires forall i :: 0 <= i < |t| ==> t[i].1 < v
    ensures WithCount(t, v) == []
  {
    if |t| > 0 {
      WithCountNone(t[1..], v);
    }
  }

  lemma WithCountSnoc<K>(p: Counts<K>, x: (K, nat), v: nat)
    ensures WithCount(p + [x], v) == WithCount(p, v) + (if x.1 == v then [x] else [])
  {
    WithCountAppend(p, [x], v);
    var one: Counts<K> := [x];
    assert one[1..] == [];
  }

  /** Stability: entries of equal count keep their dictionary order. */
  lemma {:induction false} SortByCountStable<K>(c: Counts<K>, v: nat)
    ensures WithCount(SortByCount(c), v) == WithCount(c, v)
  {
    if |c| > 0 {
      var p := c[..|c| - 1];
      var last := c[|c| - 1];
      var e: seq<(K, nat)> := if last.1 == v then [last] else [];
      calc {
        WithCount(SortByCount(c), v);
        WithCount(InsertByCount(SortByCount(p), last), v);
        { WithCountInsert(SortByCount(p), last, v); }
        WithCount(SortByCount(p), v) + e;
        { SortByCountStable(p, v); }
        WithCount(p, v) + e;
        { WithCountSnoc(p, last, v); assert c == p + [last]; }
        WithCount(c, v);
      }
    }
  }

  /** The counts of a permutation add up to the same total. */
  lemma {:induction false} TotalPermutation<K>(a: Counts<K>, b: Counts<K>)
    requires multiset(a) == multiset(b)
    ensures Total(a) == Total(b)
    decreases |a|
  {
    if |a| == 0 {
      assert |b| == |multiset(b)| == 0;
    } else {
      var x := a[0];
      assert x in multiset(b);
      var i :| 0 <= i < |b| && b[i] == x;
      var b' := b[..i] + b[i + 1..];
      RemoveAt(b, i);
      assert a == [x] + a[1..];
      assert multiset(a[1..]) == multiset(a) - multiset{x};
      TotalPermutation(a[1..], b');
    }
  }

  /** Taking entry `i` out of a listing takes it out of the multiset and its count out of the total. */
  lemma RemoveAt<K>(b: Counts<K>, i: nat)
    requires i < |b|
    ensures multiset(b[..i] + b[i + 1..]) == multiset(b) - multiset{b[i]}
    ensures Total(b) == b[i].1 + Total(b[..i] + b[i + 1..])
  {
    SplitAround(b, i);
    RemoveAtMultiset(b[..i], b[i], b[i + 1..]);
    RemoveAtTotal(b[..i], b[i], b[i + 1..]);
  }


  lemma RemoveAtMultiset<K>(l: Counts<K>, x: (K, nat), r: Counts<K>)
    ensures multiset(l + r) == multiset(l + ([x] + r)) - multiset{x}
  {
    assert multiset(l + ([x] + r)) == multiset(l) + multiset([x] + r);
    assert multiset([x] + r) == multiset{x} + multiset(r);
    assert multiset(l + r) == multiset(l) + multiset(r);
  }

  lemma RemoveAtTotal<K>(l: Counts<K>, x: (K, nat), r: Counts<K>)
    ensures Total(l + ([x] + r)) == x.1 + Total(l + r)
  {
    TotalAppend(l, [x] + r);
    TotalAppend(l, r);
    assert ([x] + r)[1..] == r;
  }

  /** Every entry among the first `n` of a sorted listing has at least the count of every entry left out. */
  lemma TopCountsDominate<K>(c: Counts<K>, n: nat)
    requires NonIncreasing(c)
    ensures forall i, j :: 0 <= i < n <= j < |c| ==> c[i].1 >= c[j].1
  {
  }
}
