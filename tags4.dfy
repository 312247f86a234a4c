/**
 * `pages/4_Tags.py`: the tag browser with its interactive fallback (tag
 * buttons with a search box, counted from non-blank tags only) and the
 * objection insights with the junk filter, the baseline rule and the
 * "collecting" caption.
 */
module TagsPage4 {
  import opened Wrappers
  import opened PyValue
  import opened Strings
  import opened Seqs
  import Counter
  import opened TagPages

  /** `isinstance(tag, str) and tag.strip()`. */
  predicate NonBlank(t: string) {
    Strip(t) != ""
  }

  /**
   * `_get_tag_counts`. `fetched` is the `suggested_tags` rows, `None` when
   * the query raised, which the function turns into `{}`.
   */
  method GetTagCounts(fetched: Option<seq<Row>>, parse: string -> Option<Value>) returns (counts: Counter.Counts<string>)
    ensures fetched.None? ==> counts == []
    ensures fetched.Some? ==> counts == Counter.CountAll(AllTags(fetched.value, "suggested_tags", parse, NonBlank))
  {
    if fetched.None? {
      return [];
    }
    counts := CountTags(fetched.value, "suggested_tags", parse, NonBlank);
  }

  /**
   * A tag is counted exactly when it is non-blank text in some row's list;
   * the counts add up to the number of such occurrences.
   */
  lemma TagCountsNonBlank(rows: seq<Row>, parse: string -> Option<Value>, t: string)
    ensures var all := AllTags(rows, "suggested_tags", parse, NonBlank);
      var c := Counter.CountAll(all);
      (t in Counter.Keys(c) <==>
        Strip(t) != "" && exists i :: 0 <= i < |rows| && VStr(t) in Payload(rows[i], "suggested_tags", parse)) &&
      Counter.Total(c) == |all| &&
      Counter.Get(c, t) == multiset(all)[t]
  {
    TagCountFacts(rows, "suggested_tags", parse, NonBlank, t);
    AllTagsMembers(rows, "suggested_tags", parse, NonBlank, t);
  }

  /** What `_show_fallback_tags` renders. */
  datatype TagView = NoTagData | NoMatch(search: string) | Buttons(tags: Counter.Counts<string>)

  /** The fallback for given counts and the text of the search box. */
  function FallbackView(counts: Counter.Counts<string>, search: string): (v: TagView)
    ensures v.NoTagData? <==> |counts| == 0
    ensures v.NoMatch? <==> |counts| > 0 && search != "" && SearchTags(Ranked(counts, 50), search) == []
    ensures v.NoMatch? ==> v.search == search
    ensures v.Buttons? ==> 0 < |v.tags| <= 50 && Counter.NonIncreasing(v.tags)
    ensures v.Buttons? && search == "" ==> v.tags == Ranked(counts, 50)
    ensures v.Buttons? && search != "" ==>
      IsSubsequence(v.tags, Ranked(counts, 50)) &&
      forall e :: e in v.tags <==> e in Ranked(counts, 50) && Contains(Lower(e.0), Lower(search))
  {
    if |counts| == 0 then NoTagData
    else
      var top := Ranked(counts, 50);
      assert top == Counter.SortByCount(counts)[..SliceIndex(50, |counts|)];
      if search == "" then Buttons(top)
      else
        var found := SearchTags(top, search);
        if found == [] then NoMatch(search) else Buttons(found)
  }

  /** `_show_fallback_tags`, with the counts mined as `_get_tag_counts` does. */
  method ShowFallbackTags(fetched: Option<seq<Row>>, search: string, parse: string -> Option<Value>) returns (v: TagView)
    ensures fetched.None? ==> v == NoTagData
    ensures fetched.Some? ==>
      v == FallbackView(Counter.CountAll(AllTags(fetched.value, "suggested_tags", parse, NonBlank)), search)
  {
    var counts := GetTagCounts(fetched, parse);
    v := FallbackView(counts, search);
  }

  /** The "Tag Browser" section. */
  datatype Browser = Tree(groups: seq<Group>, orphans: seq<Row>) | Fallback(view: TagView)

  /**
   * The tree is built from a non-empty taxonomy; an empty taxonomy and one
   * whose query raised (`None`) both show the fallback.
   */
  method TagBrowser(taxonomy: Option<seq<Row>>, fetched: Option<seq<Row>>, search: string,
                    parse: string -> Option<Value>, str: Value -> string) returns (b: Browser)
    ensures taxonomy.Some? && |taxonomy.value| > 0 ==>
      b == Tree(TaxonomyGroups(taxonomy.value, str), Filter(taxonomy.value, IsOrphan))
    ensures !(taxonomy.Some? && |taxonomy.value| > 0) && fetched.None? ==> b == Fallback(NoTagData)
    ensures !(taxonomy.Some? && |taxonomy.value| > 0) && fetched.Some? ==>
      b == Fallback(FallbackView(Counter.CountAll(AllTags(fetched.value, "suggested_tags", parse, NonBlank)), search))
  {
    if taxonomy.Some? && |taxonomy.value| > 0 {
      var groups, orphans := BrowseTaxonomy(taxonomy.value, str);
      return Tree(groups, orphans);
    }
    var v := ShowFallbackTags(fetched, search, parse);
    b := Fallback(v);
  }

  /** The caption shown when there is no baseline week. */
  const CollectingCaption: string :=
    "*Trend comparison collecting \U{2014} check back next week once a baseline week of data is available.*"

  /** The "Objection Category Insights" section. */
  method Objections(view: Option<seq<Row>>, fallback: Option<seq<Row>>, parse: string -> Option<Value>) returns (r: Insights)
    ensures view.Some? && |view.value| > 0 ==>
      r == ViewChart(ShownCategories(view.value), ChartColumns(view.value), WeeklyOf(view.value, CollectingCaption))
    ensures !(view.Some? && |view.value| > 0) && fallback.None? ==> r == Unavailable
    ensures !(view.Some? && |view.value| > 0) && fallback.Some? ==>
      var c := Counter.CountAll(AllTags(fallback.value, "objection_categories", parse, CountedCategory));
      r == if |c| == 0 then NoObjectionData else FallbackChart(c)
  {
    r := ObjectionInsights(view, fallback, parse, CollectingCaption);
  }

  /**
   * The fallback count keeps exactly the non-blank categories whose lower
   * case is not junk; a padded `" none "` in some row is counted, although
   * the view filter would drop it.
   */
  lemma ObjectionCountsFiltered(rows: seq<Row>, parse: string -> Option<Value>, t: string)
    ensures var c := Counter.CountAll(AllTags(rows, "objection_categories", parse, CountedCategory));
      t in Counter.Keys(c) <==>
        CountedCategory(t) && exists i :: 0 <= i < |rows| && VStr(t) in Payload(rows[i], "objection_categories", parse)
    ensures var c := Counter.CountAll(AllTags(rows, "objection_categories", parse, CountedCategory));
      (exists i :: 0 <= i < |rows| && VStr(" none ") in Payload(rows[i], "objection_categories", parse)) ==>
        " none " in Counter.Keys(c) && !RealCategory(VStr(" none "))
  {
    TagCountFacts(rows, "objection_categories", parse, CountedCategory, t);
    AllTagsMembers(rows, "objection_categories", parse, CountedCategory, t);
    TagCountFacts(rows, "objection_categories", parse, CountedCategory, " none ");
    AllTagsMembers(rows, "objection_categories", parse, CountedCategory, " none ");
    JunkTestsDiffer();
  }
}
