/**
 * `pages/8_Tags.py`: the tag browser, which falls back to a text list of
 * tags only when the taxonomy query raises, and the objection insights
 * without junk filter or baseline guard, listing the top eight categories
 * of the fallback count.
 */
module TagsPage8 {
  import opened Wrappers
  import opened PyValue
  import opened Strings
  import opened Seqs
  import Counter
  import opened TagPages

  /** The "Tag Browser" section. */
  datatype Browser =
    | Tree(groups: seq<Group>, orphans: seq<Row>)
    | EmptyTaxonomy
    | Listed(tags: Counter.Counts<string>)
    | NoTags
    | TagsUnavailable

  /**
   * `taxonomy` and `fetched` are the two query results, `None` when that
   * query raised. An empty taxonomy gets the info message; only a raised
   * taxonomy query leads to the list of the 50 most used text tags.
   */
  method TagBrowser(taxonomy: Option<seq<Row>>, fetched: Option<seq<Row>>,
                    parse: string -> Option<Value>, str: Value -> string) returns (b: Browser)
    ensures taxonomy.Some? && |taxonomy.value| > 0 ==>
      b == Tree(TaxonomyGroups(taxonomy.value, str), Filter(taxonomy.value, IsOrphan))
    ensures taxonomy == Some([]) ==> b == EmptyTaxonomy
    ensures taxonomy.None? && fetched.None? ==> b == TagsUnavailable
    ensures taxonomy.None? && fetched.Some? ==>
      var c := Counter.CountAll(AllTags(fetched.value, "suggested_tags", parse, AnyText));
      b == if |c| == 0 then NoTags else Listed(Ranked(c, 50))
  {
    if taxonomy.Some? {
      if |taxonomy.value| > 0 {
        var groups, orphans := BrowseTaxonomy(taxonomy.value, str);
        return Tree(groups, orphans);
      }
      return EmptyTaxonomy;
    }
    if fetched.None? {
      return TagsUnavailable;
    }
    var counts := CountTags(fetched.value, "suggested_tags", parse, AnyText);
    if |counts| == 0 {
      b := NoTags;
    } else {
      b := Listed(Ranked(counts, 50));
    }
  }

  /** `f"  {row['obj_category']}: ..."`: the category as printed, with no clean-up. */
  function PlainLine(row: Row, str: Value -> string): WowLine {
    WowLineOf(Text(Get(row, "obj_category", VNone), str), row)
  }

  /** The lines of the week-over-week loop: one per row of the frame. */
  function PlainLines(rows: seq<Row>, str: Value -> string): (lines: seq<WowLine>)
    ensures |lines| == |rows|
  {
    Map(rows, (row: Row) => PlainLine(row, str))
  }

  /** The week-over-week loop. */
  method WeekOverWeek(rows: seq<Row>, str: Value -> string) returns (lines: seq<WowLine>)
    ensures lines == PlainLines(rows, str)
  {
    lines := [];
    var i := 0;
    while i < |rows|
      invariant 0 <= i <= |rows|
      invariant lines == PlainLines(rows[..i], str)
    {
      assert rows[..i + 1][..i] == rows[..i];
      lines := lines + [WowLineOf(Text(Get(rows[i], "obj_category", VNone), str), rows[i])];
      i := i + 1;
    }
    assert rows[..|rows|] == rows;
  }

  /** The "Objection Category Insights" section. */
  datatype Section =
    | Charted(lines: Option<seq<WowLine>>)
    | Counted(counts: Counter.Counts<string>, top: Counter.Counts<string>)
    | NoDataThisWeek
    | UnableToLoad

  predicate WeeklyColumns(rows: seq<Row>) {
    HasColumn(rows, "freq_this_week") && HasColumn(rows, "freq_last_week")
  }

  /**
   * A non-empty view is charted as it is, outside any inner `try`: a frame
   * without `frequency` or `obj_category` makes the chart raise and the
   * section reads "Unable to load". With both weekly columns every row
   * gets a line, `row['obj_category']` being then present. Otherwise
   * every text category of the fallback rows is counted, junk included,
   * and the top eight are listed.
   */
  method Objections(view: Option<seq<Row>>, fallback: Option<seq<Row>>, parse: string -> Option<Value>,
                    str: Value -> string) returns (r: Section)
    ensures view.Some? && |view.value| > 0 && !ChartColumns(view.value) ==> r == UnableToLoad
    ensures view.Some? && |view.value| > 0 && ChartColumns(view.value) ==>
      r == Charted(if WeeklyColumns(view.value) then Some(PlainLines(view.value, str)) else None)
    ensures !(view.Some? && |view.value| > 0) && fallback.None? ==> r == UnableToLoad
    ensures !(view.Some? && |view.value| > 0) && fallback.Some? ==>
      var c := Counter.CountAll(AllTags(fallback.value, "objection_categories", parse, AnyText));
      r == if |c| == 0 then NoDataThisWeek else Counted(c, Ranked(c, 8))
  {
    if view.Some? && |view.value| > 0 {
      var rows := view.value;
      if !ChartColumns(rows) {
        return UnableToLoad;
      }
      if !WeeklyColumns(rows) {
        return Charted(None);
      }
      var lines := WeekOverWeek(rows, str);
      return Charted(Some(lines));
    }
    if fallback.None? {
      return UnableToLoad;
    }
    var counts := CountTags(fallback.value, "objection_categories", parse, AnyText);
    if |counts| == 0 {
      r := NoDataThisWeek;
    } else {
      r := Counted(counts, Ranked(counts, 8));
    }
  }

  /**
   * With no baseline guard the page prints a line for every row, whatever
   * the weekly totals, each with its own row's counts.
   */
  lemma EveryRowHasLine(rows: seq<Row>, str: Value -> string)
    ensures |PlainLines(rows, str)| == |rows|
    ensures forall k :: 0 <= k < |rows| ==>
      PlainLines(rows, str)[k].category == Text(Get(rows[k], "obj_category", VNone), str) &&
      PlainLines(rows, str)[k].thisWeek == Freq(rows[k], "freq_this_week") &&
      PlainLines(rows, str)[k].delta == DeltaText(Freq(rows[k], "freq_this_week") - Freq(rows[k], "freq_last_week"))
  {
  }

  /** An unfiltered count lists junk such as `"none"` whenever some row holds it. */
  lemma JunkCounted(rows: seq<Row>, parse: string -> Option<Value>)
    requires exists i :: 0 <= i < |rows| && VStr("none") in Payload(rows[i], "objection_categories", parse)
    ensures "none" in Counter.Keys(Counter.CountAll(AllTags(rows, "objection_categories", parse, AnyText)))
  {
    TagCountFacts(rows, "objection_categories", parse, AnyText, "none");
    AllTagsMembers(rows, "objection_categories", parse, AnyText, "none");
  }

  /** The top list holds at most eight categories, all counted, and none left off outranks one listed. */
  lemma TopEight(counts: Counter.Counts<string>)
    ensures var top := Ranked(counts, 8);
      |top| <= 8 && Counter.NonIncreasing(top) && multiset(top) <= multiset(counts) &&
      forall i, j :: 0 <= i < |top| <= j < |Counter.SortByCount(counts)| ==> top[i].1 >= Counter.SortByCount(counts)[j].1
  {
    RankedFacts(counts, 8);
  }
}
