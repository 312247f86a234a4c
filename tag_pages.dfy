/**
 * What the three Tags pages (`pages/4_Tags.py`, `pages/5_Tags.py`,
 * `pages/8_Tags.py`) have in common: tags and objection categories mined
 * from JSON list columns and counted, the ranking by count, the
 * taxonomy grouped by parent, the resolved parent names, the baseline rule
 * and the week-over-week line.
 */
module TagPages {
  import opened Wrappers
  import opened PyValue
  import opened Strings
  import opened Seqs
  import Counter
  import Constants

  // ---------------------------------------------------------------------
  // Mining and counting

  /**
   * `r.get(key) or []`, decoded with `json.loads` when it is text: the
   * elements of the list it holds. Text that does not decode and anything
   * that is not a list add nothing.
   */
  function Payload(row: Row, key: string, parse: string -> Option<Value>): (items: seq<Value>)
    ensures !Truthy(Get(row, key, VNone)) ==> items == []
    ensures Get(row, key, VNone).VList? ==> items == Get(row, key, VNone).items
    ensures Get(row, key, VNone).VStr? && Truthy(Get(row, key, VNone)) ==>
      items == (var p := parse(Get(row, key, VNone).s); if p.Some? && p.value.VList? then p.value.items else [])
  {
    var v := Get(row, key, VNone);
    if !Truthy(v) then []
    else if v.VStr? then
      var p := parse(v.s);
      if p.Some? && p.value.VList? then p.value.items else []
    else if v.VList? then v.items
    else []
  }

  /** The text elements of a list the page counts, in list order. */
  function Kept(items: seq<Value>, keep: string -> bool): (r: seq<string>)
    ensures |r| <= |items|
    ensures forall i :: 0 <= i < |r| ==> keep(r[i])
    ensures forall t :: t in r <==> VStr(t) in items && keep(t)
  {
    if |items| == 0 then []
    else
      var init := Kept(items[..|items| - 1], keep);
      var x := items[|items| - 1];
      assert items == items[..|items| - 1] + [x];
      if x.VStr? && keep(x.s) then init + [x.s] else init
  }

  /** Every counted tag of every row, in the order the loops visit them. */
  function AllTags(rows: seq<Row>, key: string, parse: string -> Option<Value>, keep: string -> bool): (tags: seq<string>)
    ensures forall i :: 0 <= i < |tags| ==> keep(tags[i])
  {
    if |rows| == 0 then []
    else AllTags(rows[..|rows| - 1], key, parse, keep) + Kept(Payload(rows[|rows| - 1], key, parse), keep)
  }

  /** A tag is counted when some row's list holds it as text and it passes the page's condition. */
  lemma {:induction false} AllTagsMembers(rows: seq<Row>, key: string, parse: string -> Option<Value>, keep: string -> bool, t: string)
    ensures t in AllTags(rows, key, parse, keep) <==>
      keep(t) && exists i :: 0 <= i < |rows| && VStr(t) in Payload(rows[i], key, parse)
  {
    if |rows| > 0 {
      var init := rows[..|rows| - 1];
      AllTagsMembers(init, key, parse, keep, t);
      assert forall i :: 0 <= i < |init| ==> init[i] == rows[i];
    }
  }

  /** The two nested loops with `counts[tag] = counts.get(tag, 0) + 1`. */
  method CountTags(rows: seq<Row>, key: string, parse: string -> Option<Value>, keep: string -> bool)
    returns (counts: Counter.Counts<string>)
    ensures counts == Counter.CountAll(AllTags(rows, key, parse, keep))
  {
    counts := [];
    var i := 0;
    while i < |rows|
      invariant 0 <= i <= |rows|
      invariant counts == Counter.CountAll(AllTags(rows[..i], key, parse, keep))
    {
      var before := AllTags(rows[..i], key, parse, keep);
      counts := CountRow(counts, before, Payload(rows[i], key, parse), keep);
      AllTagsStep(rows, i, key, parse, keep);
      i := i + 1;
    }
    assert rows[..|rows|] == rows;
  }

  /** The inner loop over one row's list, adding its counted tags to `counts`. */
  method CountRow(counts0: Counter.Counts<string>, before: seq<string>, items: seq<Value>, keep: string -> bool)
    returns (counts: Counter.Counts<string>)
    requires counts0 == Counter.CountAll(before)
    ensures counts == Counter.CountAll(before + Kept(items, keep))
  {
    counts := counts0;
    assert before + Kept(items[..0], keep) == before;
    var j := 0;
    while j < |items|
      invariant 0 <= j <= |items|
      invariant counts == Counter.CountAll(before + Kept(items[..j], keep))
    {
      var x := items[j];
      CountStep(before, items, j, keep);
      if x.VStr? && keep(x.s) {
        counts := Counter.Increment(counts, x.s);
      }
      j := j + 1;
    }
    assert items[..|items|] == items;
  }

  /** One more row adds its counted tags at the end. */
  lemma AllTagsStep(rows: seq<Row>, i: nat, key: string, parse: string -> Option<Value>, keep: string -> bool)
    requires i < |rows|
    ensures AllTags(rows[..i + 1], key, parse, keep) ==
      AllTags(rows[..i], key, parse, keep) + Kept(Payload(rows[i], key, parse), keep)
  {
    assert rows[..i + 1][..i] == rows[..i];
  }

  /** One more list element adds itself when it is counted text, and nothing otherwise. */
  lemma KeptStep(items: seq<Value>, j: nat, keep: string -> bool)
    requires j < |items|
    ensures Kept(items[..j + 1], keep) ==
      Kept(items[..j], keep) + (if items[j].VStr? && keep(items[j].s) then [items[j].s] else [])
  {
    assert items[..j + 1][..j] == items[..j];
  }

  /** The counts after one more list element. */
  lemma CountStep(before: seq<string>, items: seq<Value>, j: nat, keep: string -> bool)
    requires j < |items|
    ensures var x := items[j];
      var c := Counter.CountAll(before + Kept(items[..j], keep));
      Counter.CountAll(before + Kept(items[..j + 1], keep)) ==
        if x.VStr? && keep(x.s) then Counter.Increment(c, x.s) else c
  {
    var x := items[j];
    var k := Kept(items[..j], keep);
    KeptStep(items, j, keep);
    if x.VStr? && keep(x.s) {
      assert before + Kept(items[..j + 1], keep) == (before + k) + [x.s];
      CountAllSnoc(before + k, x.s);
    } else {
      assert Kept(items[..j + 1], keep) == k;
    }
  }

  /** Counting one more tag increments its count. */
  lemma CountAllSnoc(s: seq<string>, x: string)
    ensures Counter.CountAll(s + [x]) == Counter.Increment(Counter.CountAll(s), x)
  {
    assert (s + [x])[..|s|] == s;
  }

  /**
   * The counts add up to the number of counted tags, each tag's count is
   * its number of occurrences, each tag is listed once in order of first
   * sight, and only tags passing the condition are listed.
   */
  lemma TagCountFacts(rows: seq<Row>, key: string, parse: string -> Option<Value>, keep: string -> bool, t: string)
    ensures var c := Counter.CountAll(AllTags(rows, key, parse, keep));
      Counter.Total(c) == |AllTags(rows, key, parse, keep)| &&
      Counter.Get(c, t) == multiset(AllTags(rows, key, parse, keep))[t] &&
      Counter.Keys(c) == Dedup(AllTags(rows, key, parse, keep)) &&
      (t in Counter.Keys(c) ==> keep(t))
  {
    var all := AllTags(rows, key, parse, keep);
    Counter.CountAllTotal(all);
    Counter.CountAllGet(all, t);
    Counter.CountAllKeys(all);
    AllTagsMembers(rows, key, parse, keep, t);
  }

  // ---------------------------------------------------------------------
  // Ranking

  /** `sorted(counts.items(), key=lambda x: -x[1])[:n]`. */
  function Ranked(counts: Counter.Counts<string>, n: nat): (r: Counter.Counts<string>)
    ensures |r| <= n && |r| <= |counts|
    ensures Counter.NonIncreasing(r)
    ensures r == Counter.SortByCount(counts)[..|r|]
    ensures |counts| <= n ==> |r| == |counts|
  {
    Prefix(Counter.SortByCount(counts), n)
  }

  /**
   * The listed entries are entries of the counts, and no entry left off the
   * list has a higher count than a listed one.
   */
  lemma RankedFacts(counts: Counter.Counts<string>, n: nat)
    ensures multiset(Ranked(counts, n)) <= multiset(counts)
    ensures var sorted := Counter.SortByCount(counts);
      forall i, j :: 0 <= i < |Ranked(counts, n)| <= j < |sorted| ==> Ranked(counts, n)[i].1 >= sorted[j].1
  {
    var sorted := Counter.SortByCount(counts);
    var r := Ranked(counts, n);
    assert sorted == r + sorted[|r|..];
    Counter.TopCountsDominate(sorted, |r|);
  }

  /** `[(t, c) for t, c in ranked if search.lower() in t.lower()]`: the ranking order survives. */
  function SearchTags(ranked: Counter.Counts<string>, search: string): (r: Counter.Counts<string>)
    ensures IsSubsequence(r, ranked)
    ensures forall e :: e in r <==> e in ranked && Contains(Lower(e.0), Lower(search))
    ensures Counter.NonIncreasing(ranked) ==> Counter.NonIncreasing(r)
  {
    var keep := (e: (string, nat)) => Contains(Lower(e.0), Lower(search));
    FilterIsSubsequence(ranked, keep);
    assert Counter.NonIncreasing(ranked) ==> Counter.NonIncreasing(Filter(ranked, keep)) by {
      if Counter.NonIncreasing(ranked) {
        FilterNonIncreasing(ranked, keep);
      }
    }
    Filter(ranked, keep)
  }

  /** Dropping entries from a ranking leaves a ranking. */
  lemma {:induction false} FilterNonIncreasing<K(!new)>(c: Counter.Counts<K>, keep: ((K, nat)) -> bool)
    requires Counter.NonIncreasing(c)
    ensures Counter.NonIncreasing(Filter(c, keep))
  {
    if |c| > 0 {
      var init := c[..|c| - 1];
      FilterNonIncreasing(init, keep);
      forall x | x in Filter(init, keep) ensures x.1 >= c[|c| - 1].1 {
        var k :| 0 <= k < |init| && init[k] == x;
      }
    }
  }

  // ---------------------------------------------------------------------
  // Taxonomy

  /** `t.get("parent_tag_id")`. */
  function ParentOf(t: Row): Value {
    Get(t, "parent_tag_id", VNone)
  }

  predicate HasParent(t: Row) {
    ParentOf(t) != VNone
  }

  predicate IsOrphan(t: Row) {
    ParentOf(t) == VNone
  }

  /** The rows one parent collects, in taxonomy order. */
  function Children(rows: seq<Row>, p: Value): seq<Row> {
    Filter(rows, (t: Row) => ParentOf(t) == p)
  }

  /** The `parents` dictionary after visiting `rows`: `setdefault(parent_id, []).append(t)` per row with a parent. */
  function Groups(rows: seq<Row>): (g: map<Value, seq<Row>>)
    ensures VNone !in g
    ensures forall p :: p in g ==> |g[p]| > 0
  {
    if |rows| == 0 then map[]
    else
      var g := Groups(rows[..|rows| - 1]);
      var t := rows[|rows| - 1];
      if HasParent(t) then g[ParentOf(t) := (if ParentOf(t) in g then g[ParentOf(t)] else []) + [t]] else g
  }

  /** The key order of that dictionary: a parent id enters when first seen. */
  function GroupOrder(rows: seq<Row>): (order: seq<Value>)
    ensures |order| <= |rows|
    ensures VNone !in order
  {
    if |rows| == 0 then []
    else
      var t := rows[|rows| - 1];
      var o := GroupOrder(rows[..|rows| - 1]);
      if HasParent(t) && ParentOf(t) !in Groups(rows[..|rows| - 1]) then o + [ParentOf(t)] else o
  }

  /**
   * The grouping loop: a row with a parent id goes to that parent's list,
   * any other row to `orphans`. `order` is the key order of `parents`.
   */
  method Partition(taxonomy: seq<Row>) returns (parents: map<Value, seq<Row>>, order: seq<Value>, orphans: seq<Row>)
    ensures parents == Groups(taxonomy)
    ensures order == GroupOrder(taxonomy)
    ensures orphans == Filter(taxonomy, IsOrphan)
  {
    parents := map[];
    order := [];
    orphans := [];
    var i := 0;
    while i < |taxonomy|
      invariant 0 <= i <= |taxonomy|
      invariant parents == Groups(taxonomy[..i])
      invariant order == GroupOrder(taxonomy[..i])
      invariant orphans == Filter(taxonomy[..i], IsOrphan)
    {
      var t := taxonomy[i];
      PartitionStep(taxonomy, i);
      var parentId := ParentOf(t);
      if parentId != VNone {
        if parentId !in parents {
          order := order + [parentId];
        }
        var list := if parentId in parents then parents[parentId] else [];
        parents := parents[parentId := list + [t]];
      } else {
        orphans := orphans + [t];
      }
      i := i + 1;
    }
    assert taxonomy[..|taxonomy|] == taxonomy;
  }

  /** What visiting row `i` adds to the grouping, the key order and the orphans. */
  lemma PartitionStep(rows: seq<Row>, i: nat)
    requires i < |rows|
    ensures var g, t := Groups(rows[..i]), rows[i];
      Groups(rows[..i + 1]) == (if HasParent(t) then g[ParentOf(t) := (if ParentOf(t) in g then g[ParentOf(t)] else []) + [t]] else g)
    ensures var t := rows[i];
      GroupOrder(rows[..i + 1]) ==
        GroupOrder(rows[..i]) + (if HasParent(t) && ParentOf(t) !in Groups(rows[..i]) then [ParentOf(t)] else [])
    ensures Filter(rows[..i + 1], IsOrphan) == Filter(rows[..i], IsOrphan) + (if IsOrphan(rows[i]) then [rows[i]] else [])
  {
    assert rows[..i + 1][..i] == rows[..i];
  }

  /** A parent id is a key exactly when some row names it, and its list is exactly the rows naming it. */
  lemma {:induction false} GroupsMeaning(rows: seq<Row>, p: Value)
    ensures p in Groups(rows) <==> p != VNone && exists i :: 0 <= i < |rows| && ParentOf(rows[i]) == p
    ensures p in Groups(rows) ==> Groups(rows)[p] == Children(rows, p)
  {
    if |rows| > 0 {
      var init := rows[..|rows| - 1];
      var t := rows[|rows| - 1];
      GroupsMeaning(init, p);
      assert rows == init + [t];
      GroupsSnoc(init, t, p);
    }
  }

  /** Some row names `p` as its parent. */
  predicate Named(rows: seq<Row>, p: Value) {
    exists i :: 0 <= i < |rows| && ParentOf(rows[i]) == p
  }

  /** One more row keeps the meaning of the grouping. */
  lemma GroupsSnoc(init: seq<Row>, t: Row, p: Value)
    requires p in Groups(init) <==> p != VNone && Named(init, p)
    requires p in Groups(init) ==> Groups(init)[p] == Children(init, p)
    ensures p in Groups(init + [t]) <==> p != VNone && Named(init + [t], p)
    ensures p in Groups(init + [t]) ==> Groups(init + [t])[p] == Children(init + [t], p)
  {
    var rows := init + [t];
    assert rows[..|rows| - 1] == init;
    NamedSnoc(init, t, p);
    if p !in Groups(init) && ParentOf(t) == p && p != VNone {
      FilterNoneKept(init, (x: Row) => ParentOf(x) == p);
    }
  }

  lemma NamedSnoc(init: seq<Row>, t: Row, p: Value)
    ensures Named(init + [t], p) <==> Named(init, p) || ParentOf(t) == p
  {
    var rows := init + [t];
    assert rows[|init|] == t;
    assert forall i :: 0 <= i < |init| ==> rows[i] == init[i];
  }

  /** The key order lists every key once. */
  lemma {:induction false} GroupOrderKeys(rows: seq<Row>, p: Value)
    ensures NoDup(GroupOrder(rows))
    ensures p in GroupOrder(rows) <==> p in Groups(rows)
  {
    if |rows| > 0 {
      var init := rows[..|rows| - 1];
      GroupOrderKeys(init, p);
      GroupOrderKeys(init, ParentOf(rows[|rows| - 1]));
    }
  }

  /**
   * Every taxonomy row lands in exactly one place: in the orphans when it
   * has no parent id, otherwise in its parent's group and in no other.
   * Each group and the orphans keep taxonomy order.
   */
  lemma PartitionExact(rows: seq<Row>, t: Row, p: Value)
    requires t in rows
    ensures IsOrphan(t) <==> t in Filter(rows, IsOrphan)
    ensures HasParent(t) ==> ParentOf(t) in Groups(rows) && t in Groups(rows)[ParentOf(t)]
    ensures p in Groups(rows) && t in Groups(rows)[p] ==> p == ParentOf(t) && !IsOrphan(t)
    ensures p in Groups(rows) ==> IsSubsequence(Groups(rows)[p], rows)
    ensures IsSubsequence(Filter(rows, IsOrphan), rows)
  {
    var i :| 0 <= i < |rows| && rows[i] == t;
    GroupsMeaning(rows, ParentOf(t));
    GroupsMeaning(rows, p);
    FilterIsSubsequence(rows, IsOrphan);
    if p in Groups(rows) {
      FilterIsSubsequence(rows, (x: Row) => ParentOf(x) == p);
    }
  }

  /** `t.get("tag_name", f"Tag {tid}")`. */
  function NameOf(t: Row, str: Value -> string): Value {
    if "tag_name" in t then t["tag_name"] else VStr("Tag " + Text(Get(t, "tag_id", VNone), str))
  }

  /** `id_to_name` after its loop: each row with a tag id names that id, a later row overwriting an earlier one. */
  function Names(rows: seq<Row>, str: Value -> string): (names: map<Value, Value>)
    ensures VNone !in names
  {
    if |rows| == 0 then map[]
    else
      var m := Names(rows[..|rows| - 1], str);
      var t := rows[|rows| - 1];
      var tid := Get(t, "tag_id", VNone);
      if tid != VNone then m[tid := NameOf(t, str)] else m
  }

  /** The `id_to_name` loop. */
  method BuildNames(taxonomy: seq<Row>, str: Value -> string) returns (idToName: map<Value, Value>)
    ensures idToName == Names(taxonomy, str)
  {
    idToName := map[];
    var i := 0;
    while i < |taxonomy|
      invariant 0 <= i <= |taxonomy|
      invariant idToName == Names(taxonomy[..i], str)
    {
      assert taxonomy[..i + 1][..i] == taxonomy[..i];
      var t := taxonomy[i];
      var tid := Get(t, "tag_id", VNone);
      if tid != VNone {
        idToName := idToName[tid := NameOf(t, str)];
      }
      i := i + 1;
    }
    assert taxonomy[..|taxonomy|] == taxonomy;
  }

  /**
   * An id is named exactly when some row carries it, and its name is the
   * one of the last such row.
   */
  lemma {:induction false} NamesMeaning(rows: seq<Row>, str: Value -> string, tid: Value)
    ensures tid in Names(rows, str) <==> tid != VNone && Carried(rows, tid)
    ensures tid in Names(rows, str) ==> exists i :: LastCarrier(rows, str, tid, i)
  {
    if |rows| > 0 {
      var init := rows[..|rows| - 1];
      var t := rows[|rows| - 1];
      NamesMeaning(init, str, tid);
      assert rows == init + [t];
      if Get(t, "tag_id", VNone) == tid && tid != VNone {
        NamesSnocHit(init, t, str, tid);
      } else {
        NamesSnocMiss(init, t, str, tid);
      }
    }
  }

  /** Some row carries the id `tid`. */
  predicate Carried(rows: seq<Row>, tid: Value) {
    exists i :: 0 <= i < |rows| && Get(rows[i], "tag_id", VNone) == tid
  }

  /** Row `i` carries `tid`, gives its name, and no later row carries it. */
  predicate LastCarrier(rows: seq<Row>, str: Value -> string, tid: Value, i: int)
    requires tid in Names(rows, str)
  {
    0 <= i < |rows| && Get(rows[i], "tag_id", VNone) == tid &&
    Names(rows, str)[tid] == NameOf(rows[i], str) &&
    (forall j :: i < j < |rows| ==> Get(rows[j], "tag_id", VNone) != tid)
  }

  /** A last row carrying `tid` names it. */
  lemma NamesSnocHit(init: seq<Row>, t: Row, str: Value -> string, tid: Value)
    requires Get(t, "tag_id", VNone) == tid && tid != VNone
    ensures tid in Names(init + [t], str) && Carried(init + [t], tid)
    ensures LastCarrier(init + [t], str, tid, |init|)
  {
    var rows := init + [t];
    assert rows[..|rows| - 1] == init;
    assert rows[|init|] == t;
  }

  /** A last row not carrying `tid` leaves its entry and its carriers as they were. */
  lemma NamesSnocMiss(init: seq<Row>, t: Row, str: Value -> string, tid: Value)
    requires !(Get(t, "tag_id", VNone) == tid && tid != VNone)
    requires tid in Names(init, str) <==> tid != VNone && Carried(init, tid)
    requires tid in Names(init, str) ==> exists i :: LastCarrier(init, str, tid, i)
    ensures tid in Names(init + [t], str) <==> tid != VNone && Carried(init + [t], tid)
    ensures tid in Names(init + [t], str) ==> exists i :: LastCarrier(init + [t], str, tid, i)
  {
    var rows := init + [t];
    assert rows[..|rows| - 1] == init;
    assert rows[|init|] == t;
    assert forall i :: 0 <= i < |init| ==> rows[i] == init[i];
    if tid in Names(init, str) {
      var i :| LastCarrier(init, str, tid, i);
      assert LastCarrier(rows, str, tid, i);
    }
  }

  /** `id_to_name.get(parent_id, f"Category {parent_id}")`. */
  function ParentLabel(names: map<Value, Value>, parentId: Value, str: Value -> string): (r: string)
    ensures parentId !in names ==> r == "Category " + Text(parentId, str)
    ensures parentId in names ==> r == Text(names[parentId], str)
  {
    if parentId in names then Text(names[parentId], str) else "Category " + Text(parentId, str)
  }

  /** The sort key `id_to_name.get(parent_id, "")`, for names that are text. */
  function SortName(names: map<Value, Value>, parentId: Value): string {
    if parentId in names && names[parentId].VStr? then names[parentId].s else ""
  }

  lemma StrLeTransitive(a: string, b: string, c: string)
    requires StrLe(a, b) && StrLe(b, c)
    ensures StrLe(a, c)
  {
    if a != b && b != c {
      StrLtTransitive(a, b, c);
    }
  }

  lemma StrNotLt(a: string, b: string)
    requires !StrLt(a, b)
    ensures StrLe(b, a)
  {
    StrLtTotal(a, b);
  }

  /** Entries ordered by their text key. */
  predicate SortedByKey<T>(s: seq<(string, T)>) {
    forall i, j :: 0 <= i < j < |s| ==> StrLe(s[i].0, s[j].0)
  }

  /** Insert `x` after every entry whose key is not greater, as a stable sort does. */
  function InsertByKey<T>(t: seq<(string, T)>, x: (string, T)): (r: seq<(string, T)>)
    requires SortedByKey(t)
    ensures SortedByKey(r)
    ensures multiset(r) == multiset(t) + multiset{x}
  {
    if |t| == 0 then [x]
    else if StrLt(x.0, t[0].0) then
      assert forall k :: 0 <= k < |t| ==> StrLe(x.0, t[k].0) by {
        forall k | 0 <= k < |t| ensures StrLe(x.0, t[k].0) {
          if k > 0 {
            StrLeTransitive(x.0, t[0].0, t[k].0);
          }
        }
      }
      SortedByKeyCons(x, t);
      [x] + t
    else
      SortedByKeyTail(t);
      var rest := InsertByKey(t[1..], x);
      assert t == [t[0]] + t[1..];
      StrNotLt(x.0, t[0].0);
      assert forall k :: 0 <= k < |rest| ==> StrLe(t[0].0, rest[k].0) by {
        forall k | 0 <= k < |rest| ensures StrLe(t[0].0, rest[k].0) {
          assert rest[k] in multiset(rest);
          if rest[k] != x {
            assert rest[k] in t[1..];
          }
        }
      }
      SortedByKeyCons(t[0], rest);
      [t[0]] + rest
  }

  /** An entry whose key is not above any key of a sorted list can go in front. */
  lemma SortedByKeyCons<T>(h: (string, T), s: seq<(string, T)>)
    requires SortedByKey(s)
    requires forall k :: 0 <= k < |s| ==> StrLe(h.0, s[k].0)
    ensures SortedByKey([h] + s)
  {
    var r := [h] + s;
    forall i, j | 0 <= i < j < |r| ensures StrLe(r[i].0, r[j].0) {
      assert r[j] == s[j - 1];
      if i > 0 {
        assert r[i] == s[i - 1];
      }
    }
  }

  lemma SortedByKeyTail<T>(s: seq<(string, T)>)
    requires SortedByKey(s) && |s| > 0
    ensures SortedByKey(s[1..])
  {
    forall i, j | 0 <= i < j < |s| - 1 ensures StrLe(s[1..][i].0, s[1..][j].0) {
      assert s[1..][i] == s[i + 1] && s[1..][j] == s[j + 1];
    }
  }

  /** A stable sort by text key. */
  function SortByKey<T>(s: seq<(string, T)>): (r: seq<(string, T)>)
    ensures SortedByKey(r)
    ensures multiset(r) == multiset(s)
  {
    if |s| == 0 then []
    else
      assert s == s[..|s| - 1] + [s[|s| - 1]];
      InsertByKey(SortByKey(s[..|s| - 1]), s[|s| - 1])
  }

  /** The parent ids keyed by `id_to_name.get(parent_id, "")`. */
  function NameKeyed(order: seq<Value>, names: map<Value, Value>): (r: seq<(string, Value)>)
    ensures |r| == |order|
    ensures forall i :: 0 <= i < |order| ==> r[i] == (SortName(names, order[i]), order[i])
  {
    if |order| == 0 then [] else NameKeyed(order[..|order| - 1], names) + [(SortName(names, order[|order| - 1]), order[|order| - 1])]
  }

  /**
   * `sorted(parents.items(), key=lambda x: id_to_name.get(x[0], ""))`: the
   * parent groups in order of resolved name, each group once.
   */
  lemma ParentsByName(order: seq<Value>, names: map<Value, Value>)
    ensures var r := SortByKey(NameKeyed(order, names));
      |r| == |order| &&
      (forall i, j :: 0 <= i < j < |r| ==> StrLe(SortName(names, r[i].1), SortName(names, r[j].1))) &&
      (forall i :: 0 <= i < |r| ==> r[i].1 in order)
  {
    var keyed := NameKeyed(order, names);
    var r := SortByKey(keyed);
    assert |r| == |multiset(r)| == |multiset(keyed)| == |keyed|;
    forall i | 0 <= i < |r| ensures r[i].0 == SortName(names, r[i].1) && r[i].1 in order {
      assert r[i] in multiset(keyed);
      NameKeyedMember(order, names, r[i]);
    }
    forall i, j | 0 <= i < j < |r| ensures StrLe(SortName(names, r[i].1), SortName(names, r[j].1)) {
      assert StrLe(r[i].0, r[j].0);
    }
  }

  lemma NameKeyedMember(order: seq<Value>, names: map<Value, Value>, e: (string, Value))
    requires e in NameKeyed(order, names)
    ensures e.0 == SortName(names, e.1) && e.1 in order
  {
    var keyed := NameKeyed(order, names);
    var k :| 0 <= k < |keyed| && keyed[k] == e;
    assert e == (SortName(names, order[k]), order[k]);
  }

  /** One expander of the browser: the parent id, its resolved name and the rows under it. */
  datatype Group = Group(parentId: Value, heading: string, children: seq<Row>)

  /** The expanders for name-keyed parent ids, in the order given. */
  function GroupsOf(rows: seq<Row>, names: map<Value, Value>, str: Value -> string, keyed: seq<(string, Value)>): (r: seq<Group>)
    ensures |r| == |keyed|
  {
    if |keyed| == 0 then []
    else
      var e := keyed[|keyed| - 1];
      GroupsOf(rows, names, str, keyed[..|keyed| - 1]) + [Group(e.1, ParentLabel(names, e.1, str), Children(rows, e.1))]
  }

  lemma {:induction false} GroupsOfAt(rows: seq<Row>, names: map<Value, Value>, str: Value -> string, keyed: seq<(string, Value)>)
    ensures forall i :: 0 <= i < |keyed| ==>
      GroupsOf(rows, names, str, keyed)[i] == Group(keyed[i].1, ParentLabel(names, keyed[i].1, str), Children(rows, keyed[i].1))
  {
    if |keyed| > 0 {
      GroupsOfAt(rows, names, str, keyed[..|keyed| - 1]);
    }
  }

  /** The browser's expanders, in order of resolved parent name. */
  function TaxonomyGroups(rows: seq<Row>, str: Value -> string): seq<Group> {
    var names := Names(rows, str);
    GroupsOf(rows, names, str, SortByKey(NameKeyed(GroupOrder(rows), names)))
  }

  /**
   * The tag browser over a non-empty taxonomy: `id_to_name`, the
   * parents/orphans loop, and one expander per parent in name order.
   */
  method BrowseTaxonomy(taxonomy: seq<Row>, str: Value -> string) returns (groups: seq<Group>, orphans: seq<Row>)
    ensures groups == TaxonomyGroups(taxonomy, str)
    ensures orphans == Filter(taxonomy, IsOrphan)
  {
    var names := BuildNames(taxonomy, str);
    var parents, order;
    parents, order, orphans := Partition(taxonomy);
    var sorted := SortByKey(NameKeyed(order, names));
    forall i | 0 <= i < |sorted| ensures sorted[i].1 in parents && parents[sorted[i].1] == Children(taxonomy, sorted[i].1) {
      SortedParentKnown(taxonomy, names, i);
    }
    groups := Expanders(taxonomy, names, str, parents, sorted);
  }

  /** The loop over the sorted parents, one expander each. */
  method Expanders(taxonomy: seq<Row>, names: map<Value, Value>, str: Value -> string,
                   parents: map<Value, seq<Row>>, sorted: seq<(string, Value)>) returns (groups: seq<Group>)
    requires forall i :: 0 <= i < |sorted| ==> sorted[i].1 in parents && parents[sorted[i].1] == Children(taxonomy, sorted[i].1)
    ensures groups == GroupsOf(taxonomy, names, str, sorted)
  {
    groups := [];
    var i := 0;
    while i < |sorted|
      invariant 0 <= i <= |sorted|
      invariant groups == GroupsOf(taxonomy, names, str, sorted[..i])
    {
      var pid := sorted[i].1;
      ExpanderStep(taxonomy, names, str, sorted, i, parents[pid]);
      groups := groups + [Group(pid, ParentLabel(names, pid, str), parents[pid])];
      i := i + 1;
    }
    assert sorted[..|sorted|] == sorted;
  }

  lemma ExpanderStep(rows: seq<Row>, names: map<Value, Value>, str: Value -> string,
                     sorted: seq<(string, Value)>, i: nat, children: seq<Row>)
    requires i < |sorted| && children == Children(rows, sorted[i].1)
    ensures GroupsOf(rows, names, str, sorted[..i + 1]) ==
      GroupsOf(rows, names, str, sorted[..i]) + [Group(sorted[i].1, ParentLabel(names, sorted[i].1, str), children)]
  {
    GroupsOfSnoc(rows, names, str, sorted[..i], sorted[i]);
    assert sorted[..i + 1] == sorted[..i] + [sorted[i]];
  }

  /** A parent id the name sort yields is a key of `parents`, holding the rows naming it. */
  lemma SortedParentKnown(rows: seq<Row>, names: map<Value, Value>, i: int)
    requires 0 <= i < |SortByKey(NameKeyed(GroupOrder(rows), names))|
    ensures var pid := SortByKey(NameKeyed(GroupOrder(rows), names))[i].1;
      pid in Groups(rows) && Groups(rows)[pid] == Children(rows, pid)
  {
    var pid := SortByKey(NameKeyed(GroupOrder(rows), names))[i].1;
    ParentsByName(GroupOrder(rows), names);
    GroupOrderKeys(rows, pid);
    GroupsMeaning(rows, pid);
  }

  lemma GroupsOfSnoc(rows: seq<Row>, names: map<Value, Value>, str: Value -> string, keyed: seq<(string, Value)>, e: (string, Value))
    ensures GroupsOf(rows, names, str, keyed + [e]) ==
      GroupsOf(rows, names, str, keyed) + [Group(e.1, ParentLabel(names, e.1, str), Children(rows, e.1))]
  {
    assert (keyed + [e])[..|keyed|] == keyed;
  }

  /** One expander per parent id, sorted by the resolved name. */
  lemma TaxonomyGroupsSorted(rows: seq<Row>, str: Value -> string)
    ensures var g := TaxonomyGroups(rows, str);
      var names := Names(rows, str);
      |g| == |GroupOrder(rows)| &&
      forall i, j :: 0 <= i < j < |g| ==> StrLe(SortName(names, g[i].parentId), SortName(names, g[j].parentId))
  {
    var names := Names(rows, str);
    var sorted := SortByKey(NameKeyed(GroupOrder(rows), names));
    ParentsByName(GroupOrder(rows), names);
    GroupsOfAt(rows, names, str, sorted);
  }

  /**
   * Each expander holds the non-empty list of rows naming its parent, in
   * taxonomy order, under the parent's name or `Category {id}`.
   */
  lemma TaxonomyGroupsContent(rows: seq<Row>, str: Value -> string, i: int)
    requires 0 <= i < |TaxonomyGroups(rows, str)|
    ensures var e := TaxonomyGroups(rows, str)[i];
      e.parentId in Groups(rows) && e.children == Groups(rows)[e.parentId] && |e.children| > 0 &&
      e.children == Children(rows, e.parentId) && e.heading == ParentLabel(Names(rows, str), e.parentId, str)
  {
    var names := Names(rows, str);
    var sorted := SortByKey(NameKeyed(GroupOrder(rows), names));
    GroupsOfAt(rows, names, str, sorted);
    SortedParentKnown(rows, names, i);
    var q := sorted[i].1;
    GroupsMeaning(rows, q);
    var k :| 0 <= k < |rows| && ParentOf(rows[k]) == q;
    assert rows[k] in Children(rows, q);
  }

  /** Every parent id some row names has its expander. */
  lemma TaxonomyGroupsCover(rows: seq<Row>, str: Value -> string, p: Value)
    ensures p in Groups(rows) <==> exists i :: 0 <= i < |TaxonomyGroups(rows, str)| && TaxonomyGroups(rows, str)[i].parentId == p
  {
    var g := TaxonomyGroups(rows, str);
    if p in Groups(rows) {
      CoverKnown(rows, str, p);
    }
    if exists i :: 0 <= i < |g| && g[i].parentId == p {
      var i :| 0 <= i < |g| && g[i].parentId == p;
      assert |g| == |SortByKey(NameKeyed(GroupOrder(rows), Names(rows, str)))|;
      GroupsOfAt(rows, Names(rows, str), str, SortByKey(NameKeyed(GroupOrder(rows), Names(rows, str))));
      SortedParentKnown(rows, Names(rows, str), i);
    }
  }

  /** A parent id some row names is the id of some expander. */
  lemma CoverKnown(rows: seq<Row>, str: Value -> string, p: Value)
    requires p in Groups(rows)
    ensures exists i :: 0 <= i < |TaxonomyGroups(rows, str)| && TaxonomyGroups(rows, str)[i].parentId == p
  {
    var names := Names(rows, str);
    var order := GroupOrder(rows);
    var keyed := NameKeyed(order, names);
    var sorted := SortByKey(keyed);
    var g := TaxonomyGroups(rows, str);
    GroupsOfAt(rows, names, str, sorted);
    GroupOrderKeys(rows, p);
    var k :| 0 <= k < |order| && order[k] == p;
    assert keyed[k] in multiset(sorted);
    var m :| 0 <= m < |sorted| && sorted[m] == keyed[k];
    assert g[m].parentId == p;
  }

  // ---------------------------------------------------------------------
  // Objections

  /** `(row.get(key) or 0)` for a weekly frequency: an integer count, `True` counting 1, anything falsy 0. */
  function Freq(row: Row, key: string): (r: int)
    ensures key in row && row[key].VInt? ==> r == row[key].i
    ensures key in row && row[key] == VBool(true) ==> r == 1
    ensures !Truthy(Get(row, key, VNone)) ==> r == 0
  {
    var v := Get(row, key, VNone);
    if v.VInt? then v.i else if v == VBool(true) then 1 else 0
  }

  /** `sum((row.get(key) or 0) for row in rows)`. */
  function SumFreq(rows: seq<Row>, key: string): (r: int)
    ensures |rows| == 0 ==> r == 0
    ensures (forall i :: 0 <= i < |rows| ==> Freq(rows[i], key) >= 0) ==> r >= 0
    ensures (forall i :: 0 <= i < |rows| ==> !Truthy(Get(rows[i], key, VNone))) ==> r == 0
  {
    if |rows| == 0 then 0
    else
      var init := rows[..|rows| - 1];
      assert forall i :: 0 <= i < |init| ==> init[i] == rows[i];
      SumFreq(init, key) + Freq(rows[|rows| - 1], key)
  }

  /** `total_last > 0 and total_last >= total_this * 0.10`, over exact numbers. */
  predicate HasBaseline(totalThis: int, totalLast: int)
    ensures HasBaseline(totalThis, totalLast) <==>
      totalLast > 0 && totalLast as real >= totalThis as real * 0.10
  {
    totalLast > 0 && 10 * totalLast >= totalThis
  }

  /** A week with nothing before it has no baseline; a comparable previous week has one. */
  lemma BaselineCases(totalThis: int, totalLast: int)
    ensures totalLast <= 0 ==> !HasBaseline(totalThis, totalLast)
    ensures totalLast > 0 && totalLast >= totalThis ==> HasBaseline(totalThis, totalLast)
    ensures totalLast > 0 && 10 * totalLast < totalThis ==> !HasBaseline(totalThis, totalLast)
  {
  }

  /** `f"{arrow}{delta}"`: a plus sign in front of a rise only. */
  function DeltaText(delta: int): (r: string)
    ensures delta > 0 ==> r == "+" + NatToString(delta)
    ensures delta == 0 ==> r == "0"
    ensures delta < 0 ==> r == "-" + NatToString(-delta)
  {
    assert NatToString(0) == [Digit(0)];
    (if delta > 0 then "+" else "") + IntToString(delta)
  }

  /** A weekly line: the category's label, this week's count and the change. */
  datatype WowLine = WowLine(category: string, thisWeek: int, delta: string)

  function WowLineOf(category: string, row: Row): (l: WowLine)
    ensures l.thisWeek == Freq(row, "freq_this_week")
    ensures l.delta == DeltaText(Freq(row, "freq_this_week") - Freq(row, "freq_last_week"))
  {
    WowLine(category, Freq(row, "freq_this_week"), DeltaText(Freq(row, "freq_this_week") - Freq(row, "freq_last_week")))
  }

  /** The columns of a frame built from a list of rows: every key some row has. */
  predicate HasColumn(rows: seq<Row>, col: string) {
    exists i :: 0 <= i < |rows| && col in rows[i]
  }

  /** A page that counts every text element. */
  predicate AnyText(t: string) {
    true
  }

  /** The junk categories of the view filter. */
  const JunkCategories: set<string> := {"undefined", "none", "null", "n/a", ""}

  /** The view filter: a kept category is text whose stripped, lower-cased form is not junk. */
  function RealCategory(v: Value): (kept: bool)
    ensures kept ==> v.VStr? && Strip(v.s) != ""
  {
    v.VStr? && Lower(Strip(v.s)) !in JunkCategories
  }

  /** The fallback count's filter: non-blank text whose lower-cased form (not stripped) is not junk. */
  function CountedCategory(c: string): (counted: bool)
    ensures counted ==> Strip(c) != "" && Lower(c) !in JunkCategories
  {
    Strip(c) != "" && Lower(c) !in {"undefined", "none", "null", "n/a"}
  }

  /** The view filter on one row of the frame. */
  predicate RealRow(row: Row) {
    RealCategory(Get(row, "obj_category", VNone))
  }

  /** The frame after the view filter, which applies only when the `obj_category` column exists. */
  function ShownCategories(rows: seq<Row>): (r: seq<Row>)
    ensures forall x :: x in r ==> x in rows
    ensures forall x :: x in rows && RealRow(x) ==> x in r
    ensures HasColumn(rows, "obj_category") ==> forall i :: 0 <= i < |r| ==> RealRow(r[i])
    ensures !HasColumn(rows, "obj_category") ==> r == rows
  {
    if HasColumn(rows, "obj_category") then Filter(rows, RealRow) else rows
  }

  /** `_cat_raw.replace("_", " ").title()`. */
  function CategoryLabel(category: string): (shown: string)
    ensures shown == Constants.Humanize(category)
    ensures |shown| == |category| && '_' !in shown
  {
    Constants.Title(ReplaceChar(category, '_', " "))
  }

  /** The week-over-week line of a row that passes the skip test. */
  function RealLine(row: Row): WowLine {
    var category := Get(row, "obj_category", VNone);
    WowLineOf(CategoryLabel(if category.VStr? then category.s else ""), row)
  }

  /** The lines the week-over-week loop prints: rows with a junk or non-text category are skipped. */
  function WeeklyLines(rows: seq<Row>): (lines: seq<WowLine>)
    ensures |lines| <= |rows|
  {
    FilterMapMeaning(rows, RealRow, (row: Row) => RealLine(row));
    FilterMap(rows, RealRow, (row: Row) => RealLine(row))
  }

  /** The week-over-week loop with its `continue`. */
  method WeekOverWeek(rows: seq<Row>) returns (lines: seq<WowLine>)
    ensures lines == WeeklyLines(rows)
  {
    lines := [];
    var i := 0;
    while i < |rows|
      invariant 0 <= i <= |rows|
      invariant lines == WeeklyLines(rows[..i])
    {
      assert rows[..i + 1][..i] == rows[..i];
      var row := rows[i];
      i := i + 1;
      var category := Get(row, "obj_category", VNone);
      if !category.VStr? || Lower(Strip(category.s)) in JunkCategories {
        continue;
      }
      lines := lines + [WowLineOf(CategoryLabel(category.s), row)];
    }
    assert rows[..|rows|] == rows;
  }

  /** One line per row that passes the skip test, in frame order. */
  lemma WeeklyLinesMeaning(rows: seq<Row>)
    ensures var kept := Filter(rows, RealRow);
      |WeeklyLines(rows)| == |kept| &&
      forall k :: 0 <= k < |kept| ==> WeeklyLines(rows)[k] == RealLine(kept[k])
  {
    FilterMapMeaning(rows, RealRow, (row: Row) => RealLine(row));
  }

  /** What the page shows under the chart. */
  datatype Weekly = NoTrend | Notice(text: string) | Changes(lines: seq<WowLine>)

  /** The week-over-week block over the view's rows: it needs both weekly columns and a baseline. */
  function WeeklyOf(rows: seq<Row>, noBaseline: string): (w: Weekly)
    ensures w.NoTrend? <==> !(HasColumn(rows, "freq_this_week") && HasColumn(rows, "freq_last_week"))
    ensures var shown := ShownCategories(rows);
      w.Changes? ==> (HasBaseline(SumFreq(shown, "freq_this_week"), SumFreq(shown, "freq_last_week")) &&
        w.lines == WeeklyLines(shown))
    ensures var shown := ShownCategories(rows);
      w.Notice? ==> (!HasBaseline(SumFreq(shown, "freq_this_week"), SumFreq(shown, "freq_last_week")) &&
        w.text == noBaseline)
  {
    var shown := ShownCategories(rows);
    if HasColumn(rows, "freq_this_week") && HasColumn(rows, "freq_last_week") then
      if HasBaseline(SumFreq(shown, "freq_this_week"), SumFreq(shown, "freq_last_week")) then
        Changes(WeeklyLines(shown))
      else Notice(noBaseline)
    else NoTrend
  }

  /**
   * When the category column exists every row left by the view filter
   * gets a line, carrying its own weekly counts; without it no row does.
   */
  lemma WeeklyCoversShown(rows: seq<Row>)
    ensures var shown := ShownCategories(rows);
      HasColumn(rows, "obj_category") ==>
        |WeeklyLines(shown)| == |shown| &&
        forall k :: 0 <= k < |shown| ==> WeeklyLines(shown)[k] == RealLine(shown[k])
    ensures !HasColumn(rows, "obj_category") ==> WeeklyLines(ShownCategories(rows)) == []
  {
    var shown := ShownCategories(rows);
    WeeklyLinesMeaning(shown);
    if HasColumn(rows, "obj_category") {
      FilterAllKept(shown, RealRow);
    } else {
      FilterNoneKept(shown, RealRow);
    }
  }

  /** `objection_bar` sorts by `frequency` and plots `obj_category`: it raises without either column. */
  predicate ChartColumns(rows: seq<Row>) {
    HasColumn(rows, "frequency") && HasColumn(rows, "obj_category")
  }

  /** The objection section of a page; `charted` is false when the chart raised ("Chart unavailable."). */
  datatype Insights =
    | ViewChart(shown: seq<Row>, charted: bool, weekly: Weekly)
    | FallbackChart(counts: Counter.Counts<string>)
    | NoObjectionData
    | Unavailable

  /**
   * The objection section shared by `pages/4_Tags.py` and
   * `pages/5_Tags.py`. `view` is the `v_objection_frequencies` result and
   * `fallback` the last-seven-days `objection_categories` rows; `None`
   * stands for a query that raised. A non-empty view is charted after the
   * junk filter; otherwise the fallback rows are counted.
   */
  method ObjectionInsights(view: Option<seq<Row>>, fallback: Option<seq<Row>>, parse: string -> Option<Value>,
                           noBaseline: string) returns (r: Insights)
    ensures view.Some? && |view.value| > 0 ==>
      r == ViewChart(ShownCategories(view.value), ChartColumns(view.value), WeeklyOf(view.value, noBaseline))
    ensures !(view.Some? && |view.value| > 0) && fallback.None? ==> r == Unavailable
    ensures !(view.Some? && |view.value| > 0) && fallback.Some? ==>
      var c := Counter.CountAll(AllTags(fallback.value, "objection_categories", parse, CountedCategory));
      r == if |c| == 0 then NoObjectionData else FallbackChart(c)
  {
    if view.Some? && |view.value| > 0 {
      var rows := view.value;
      var shown := ShownCategories(rows);
      var weekly := NoTrend;
      if HasColumn(rows, "freq_this_week") && HasColumn(rows, "freq_last_week") {
        var totalThis := SumFreq(shown, "freq_this_week");
        var totalLast := SumFreq(shown, "freq_last_week");
        if HasBaseline(totalThis, totalLast) {
          var lines := WeekOverWeek(shown);
          weekly := Changes(lines);
        } else {
          weekly := Notice(noBaseline);
        }
      }
      return ViewChart(shown, ChartColumns(rows), weekly);
    }
    if fallback.None? {
      return Unavailable;
    }
    var counts := CountTags(fallback.value, "objection_categories", parse, CountedCategory);
    if |counts| == 0 {
      r := NoObjectionData;
    } else {
      r := FallbackChart(counts);
    }
  }

  /**
   * The two junk tests differ: the fallback count lower-cases without
   * stripping, so a padded `" none "` is counted there while the view
   * filter drops it; both drop `"None"`.
   */
  lemma JunkTestsDiffer()
    ensures CountedCategory(" none ") && !RealCategory(VStr(" none "))
    ensures !CountedCategory("None") && !RealCategory(VStr("None"))
  {
    PaddedNoneCounted();
    PaddedNoneNotReal();
    CapitalNoneDropped();
  }

  lemma PaddedNoneNotReal()
    ensures !RealCategory(VStr(" none "))
  {
    PaddedNoneStrips();
    LowerNoneSpellings();
    assert "none" in JunkCategories;
  }

  lemma CapitalNoneDropped()
    ensures !CountedCategory("None") && !RealCategory(VStr("None"))
  {
    StripNoSpace("None");
    LowerNoneSpellings();
    assert "none" in JunkCategories;
    assert "none" in {"undefined", "none", "null", "n/a"};
  }

  lemma PaddedNoneCounted()
    ensures CountedCategory(" none ")
  {
    PaddedNoneStrips();
    var l := Lower(" none ");
    assert |l| == 6 && l[0] == ' ';
    assert l != "undefined" && l != "none" && l != "null" && l != "n/a";
  }

  lemma PaddedNoneStrips()
    ensures Strip(" none ") == "none"
  {
    assert " none "[1..] == "none ";
    assert "none "[..4] == "none";
    StripNoSpace("none");
    assert !IsSpace('n');
    assert LStripBy(" none ", IsSpace) == "none ";
    assert RStripBy("none ", IsSpace) == "none";
  }

  lemma LowerNoneSpellings()
    ensures Lower("none") == "none" && Lower("None") == "none"
  {
    var n := Lower("none");
    assert n[0] == 'n' && n[1] == 'o' && n[2] == 'n' && n[3] == 'e';
    assert n == "none";
    var m := Lower("None");
    assert m[0] == 'n' && m[1] == 'o' && m[2] == 'n' && m[3] == 'e';
    assert m == "none";
  }
}
