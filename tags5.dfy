/**
 * `pages/5_Tags.py`: the tag browser whose fallback is a badge cloud of
 * every text tag, sized in four tiers by count, and the objection insights
 * with the junk filter, the baseline rule and the "Baseline week" notice.
 */
module TagsPage5 {
  import opened Wrappers
  import opened PyValue
  import opened Strings
  import opened Seqs
  import Counter
  import opened TagPages

  /** The size tier of `_tag_style`: 3 above 100 uses, 2 above 50, 1 above 20, else 0. */
  function Tier(count: int): (t: nat)
    ensures t <= 3
    ensures t == 3 <==> count > 100
    ensures t == 2 <==> 50 < count <= 100
    ensures t == 1 <==> 20 < count <= 50
    ensures t == 0 <==> count <= 20
  {
    if count > 100 then 3 else if count > 50 then 2 else if count > 20 then 1 else 0
  }

  /** The inline styles of the four tiers, smallest first. */
  const TierStyles: seq<string> :=
    ["font-size:0.72rem;", "font-size:0.78rem;", "font-size:0.85rem;", "font-size:0.92rem; font-weight:700;"]

  /** `_tag_style(count)`. */
  function TagStyle(count: int): (s: string)
    ensures s == TierStyles[Tier(count)]
    ensures count > 100 ==> s == "font-size:0.92rem; font-weight:700;"
    ensures count <= 20 ==> s == "font-size:0.72rem;"
  {
    if count > 100 then "font-size:0.92rem; font-weight:700;"
    else if count > 50 then "font-size:0.85rem;"
    else if count > 20 then "font-size:0.78rem;"
    else "font-size:0.72rem;"
  }

  /**
   * More uses never give a smaller badge, and the thresholds are strict:
   * 100, 50 and 20 uses stay in the tier below.
   */
  lemma TierMonotone(a: int, b: int)
    requires a <= b
    ensures Tier(a) <= Tier(b)
    ensures TagStyle(100) == "font-size:0.85rem;" && TagStyle(101) == "font-size:0.92rem; font-weight:700;"
    ensures TagStyle(50) == "font-size:0.78rem;" && TagStyle(20) == "font-size:0.72rem;"
  {
  }

  /** One badge: the tag, its count and its style. */
  datatype Badge = Badge(tag: string, count: nat, style: string)

  /** The badges of the generator inside `badges_html`. */
  function BadgesOf(ranked: Counter.Counts<string>): (r: seq<Badge>)
    ensures |r| == |ranked|
    ensures forall i :: 0 <= i < |ranked| ==> r[i] == Badge(ranked[i].0, ranked[i].1, TagStyle(ranked[i].1))
  {
    if |ranked| == 0 then []
    else
      var e := ranked[|ranked| - 1];
      BadgesOf(ranked[..|ranked| - 1]) + [Badge(e.0, e.1, TagStyle(e.1))]
  }

  /** What `_show_fallback_tags` renders. */
  datatype TagCloud = CloudUnavailable | NoTagData | Cloud(badges: seq<Badge>)

  /**
   * `_show_fallback_tags`: every text tag is counted, the empty one
   * included; the 50 most used become badges. `fetched` is `None` when the
   * query raised.
   */
  method ShowFallbackTags(fetched: Option<seq<Row>>, parse: string -> Option<Value>) returns (v: TagCloud)
    ensures fetched.None? ==> v == CloudUnavailable
    ensures fetched.Some? ==>
      var c := Counter.CountAll(AllTags(fetched.value, "suggested_tags", parse, AnyText));
      v == if |c| == 0 then NoTagData else Cloud(BadgesOf(Ranked(c, 50)))
  {
    if fetched.None? {
      return CloudUnavailable;
    }
    var counts := CountTags(fetched.value, "suggested_tags", parse, AnyText);
    if |counts| == 0 {
      v := NoTagData;
    } else {
      v := Cloud(BadgesOf(Ranked(counts, 50)));
    }
  }

  /**
   * The cloud holds at most 50 badges, each an entry of the counts, in
   * non-increasing count, so the badges never grow along the cloud.
   */
  lemma CloudFacts(counts: Counter.Counts<string>)
    ensures var b := BadgesOf(Ranked(counts, 50));
      |b| <= 50 &&
      (forall i :: 0 <= i < |b| ==> (b[i].tag, b[i].count) in counts) &&
      (forall i, j :: 0 <= i < j < |b| ==> b[i].count >= b[j].count && Tier(b[j].count) <= Tier(b[i].count))
  {
    var r := Ranked(counts, 50);
    RankedFacts(counts, 50);
    forall i | 0 <= i < |r| ensures r[i] in counts {
      assert r[i] in multiset(r);
    }
    forall i, j | 0 <= i < j < |r| ensures Tier(r[j].1) <= Tier(r[i].1) {
      TierMonotone(r[j].1, r[i].1);
    }
  }

  /**
   * Unlike `pages/4_Tags.py`, an empty text tag in some row is counted, so
   * the cloud can hold a badge for `""`.
   */
  lemma EmptyTagCounted(rows: seq<Row>, parse: string -> Option<Value>)
    requires exists i :: 0 <= i < |rows| && VStr("") in Payload(rows[i], "suggested_tags", parse)
    ensures "" in Counter.Keys(Counter.CountAll(AllTags(rows, "suggested_tags", parse, AnyText)))
    ensures Counter.Get(Counter.CountAll(AllTags(rows, "suggested_tags", parse, AnyText)), "") > 0
  {
    TagCountFacts(rows, "suggested_tags", parse, AnyText, "");
    AllTagsMembers(rows, "suggested_tags", parse, AnyText, "");
  }

  /** The "Tag Browser" section. */
  datatype Browser = Tree(groups: seq<Group>, orphans: seq<Row>) | Fallback(cloud: TagCloud)

  /** The tree from a non-empty taxonomy; the cloud for an empty one or one whose query raised. */
  method TagBrowser(taxonomy: Option<seq<Row>>, fetched: Option<seq<Row>>,
                    parse: string -> Option<Value>, str: Value -> string) returns (b: Browser)
    ensures taxonomy.Some? && |taxonomy.value| > 0 ==>
      b == Tree(TaxonomyGroups(taxonomy.value, str), Filter(taxonomy.value, IsOrphan))
    ensures !(taxonomy.Some? && |taxonomy.value| > 0) && fetched.None? ==> b == Fallback(CloudUnavailable)
    ensures !(taxonomy.Some? && |taxonomy.value| > 0) && fetched.Some? ==>
      var c := Counter.CountAll(AllTags(fetched.value, "suggested_tags", parse, AnyText));
      b == Fallback(if |c| == 0 then NoTagData else Cloud(BadgesOf(Ranked(c, 50))))
  {
    if taxonomy.Some? && |taxonomy.value| > 0 {
      var groups, orphans := BrowseTaxonomy(taxonomy.value, str);
      return Tree(groups, orphans);
    }
    var v := ShowFallbackTags(fetched, parse);
    b := Fallback(v);
  }

  /** The notice shown when there is no baseline week. */
  const BaselineNotice: string := "Baseline week \U{2014} prior period not yet available for comparison."

  /** The "Objection Category Insights" section. */
  method Objections(view: Option<seq<Row>>, fallback: Option<seq<Row>>, parse: string -> Option<Value>) returns (r: Insights)
    ensures view.Some? && |view.value| > 0 ==>
      r == ViewChart(ShownCategories(view.value), ChartColumns(view.value), WeeklyOf(view.value, BaselineNotice))
    ensures !(view.Some? && |view.value| > 0) && fallback.None? ==> r == Unavailable
    ensures !(view.Some? && |view.value| > 0) && fallback.Some? ==>
      var c := Counter.CountAll(AllTags(fallback.value, "objection_categories", parse, CountedCategory));
      r == if |c| == 0 then NoObjectionData else FallbackChart(c)
  {
    r := ObjectionInsights(view, fallback, parse, BaselineNotice);
  }
}
