/**
 * `app_pages/9_Angle_Bank.py`: the creative-angle list. The server query
 * carries the status, content-type, minimum-quality and start-date filters;
 * the maximum quality, the end date and the content intent are applied to
 * the fetched rows, which are then counted and shown twenty to a page.
 */
module AngleBank {
  import opened Wrappers
  import opened PyValue
  import opened Strings
  import opened Seqs
  import Counter
  import opened Postgrest
  import opened Database
  import opened Ui
  import opened Pagination
  import Queries
  import Filters

  const StatusOptions: seq<string> := ["pending_review", "approved"]

  /** An empty status selection means both statuses. */
  function StatusOrDefault(selected: seq<string>): (r: seq<string>)
    ensures |r| > 0
    ensures |selected| > 0 ==> r == selected
    ensures |selected| == 0 ==> r == StatusOptions
  {
    if |selected| > 0 then selected else StatusOptions
  }

  /**
   * The `filters` dictionary, in insertion order: the status list always,
   * the content types when some are chosen, the minimum quality always and
   * the start date when given. The maximum quality is not among them.
   */
  function AngleFilters(statuses: seq<string>, contentTypes: seq<string>, minQ: int, startIso: Option<string>)
    : (r: seq<(string, FilterValue)>)
    ensures |r| >= 2 && r[0] == ("status", OpPair("in", Queries.StrList(StatusOrDefault(statuses))))
    ensures ("content_type", OpPair("in", Queries.StrList(contentTypes))) in r <==> |contentTypes| > 0
    ensures ("quality_score", OpPair("gte", VInt(minQ))) in r
    ensures startIso.Some? ==> ("created_at", OpPair("gte", VStr(startIso.value))) in r
    ensures startIso.None? ==> forall i :: 0 <= i < |r| ==> r[i].0 != "created_at"
    ensures forall i :: 0 <= i < |r| ==> r[i].0 != "quality_score" || r[i].1 == OpPair("gte", VInt(minQ))
  {
    [("status", OpPair("in", Queries.StrList(StatusOrDefault(statuses))))] +
    (if |contentTypes| > 0 then [("content_type", OpPair("in", Queries.StrList(contentTypes)))] else []) +
    [("quality_score", OpPair("gte", VInt(minQ)))] +
    (match startIso case Some(d) => [("created_at", OpPair("gte", VStr(d)))] case None => [])
  }

  /** The request: newest first, at most 200 rows. */
  method FetchAngles(statuses: seq<string>, contentTypes: seq<string>, minQ: int, startIso: Option<string>)
    returns (q: Query)
    ensures q.table == "content_generation_queue" && q.select == "*"
    ensures q.preds == Compiled(AngleFilters(statuses, contentTypes, minQ, startIso))
    ensures q.orders == [Order("created_at", true)]
    ensures q.window == Limit(200) && RequestedRows(q.window) == Some(200)
  {
    var filters := AngleFilters(statuses, contentTypes, minQ, startIso);
    q := QueryTable("content_generation_queue", "*", filters, Some("-created_at"), Some(200), None);
    assert "-created_at"[1..] == "created_at";
  }

  /** The server keeps a row only when it has a chosen status and at least the minimum quality. */
  lemma AngleRowsMatch(statuses: seq<string>, contentTypes: seq<string>, minQ: int, startIso: Option<string>, row: Row)
    requires Matches(row, Compiled(AngleFilters(statuses, contentTypes, minQ, startIso)))
    ensures HoldsCmp(InOp, Col(row, "status"), Queries.StrList(StatusOrDefault(statuses)))
    ensures HoldsCmp(GteOp, Col(row, "quality_score"), VInt(minQ))
  {
    var filters := AngleFilters(statuses, contentTypes, minQ, startIso);
    CompiledMeaning(filters, row);
    InAndGteNamed();
    assert EntryPred(filters[0].0, filters[0].1) == Some(Cmp(InOp, "status", Queries.StrList(StatusOrDefault(statuses))));
    var i :| 0 <= i < |filters| && filters[i] == ("quality_score", OpPair("gte", VInt(minQ)));
    assert EntryPred(filters[i].0, filters[i].1) == Some(Cmp(GteOp, "quality_score", VInt(minQ)));
  }

  lemma InAndGteNamed()
    ensures OpNamed("in") == Some(InOp) && OpNamed("gte") == Some(GteOp)
  {
  }

  /** `_parse_content`: a JSON object as is, a text parsed (`{}` when it is not JSON), anything else `{}`. */
  function ParseContent(row: Row, parseJson: string -> Option<Value>): (r: Value)
    ensures Get(row, "content_text", VNone).VDict? ==> r == row["content_text"]
    ensures Get(row, "content_text", VNone).VStr? ==>
      r == parseJson(row["content_text"].s).GetOr(VDict([]))
    ensures !Get(row, "content_text", VNone).VDict? && !Get(row, "content_text", VNone).VStr? ==> r == VDict([])
  {
    match Get(row, "content_text", VNone)
    case VDict(_) => row["content_text"]
    case VStr(s) => parseJson(s).GetOr(VDict([]))
    case _ => VDict([])
  }

  /** `qs is not None and qs > max_q`; a value that is not a number cannot be compared. */
  function AboveMax(qs: Value, maxQ: int): (r: Result<bool>)
    ensures qs.VNone? ==> r == Ok(false)
    ensures qs.VInt? ==> r == Ok(qs.i > maxQ)
    ensures r.Err? <==> !(qs.VNone? || qs.VInt? || qs.VFloat? || qs.VBool?)
  {
    match qs
    case VNone => Ok(false)
    case VInt(i) => Ok(i > maxQ)
    case VFloat(x) => Ok(x > maxQ as real)
    case VBool(b) => Ok((if b then 1 else 0) > maxQ)
    case _ => Err(TypeError("'>' not supported"))
  }

  /** `end_date and created and created[:10] > end_date.isoformat()`. */
  function AfterEnd(created: Value, endIso: string): (r: Result<bool>)
    ensures !Truthy(created) ==> r == Ok(false)
    ensures created.VStr? && created.s != "" ==> r == Ok(StrLt(endIso, Prefix(created.s, 10)))
  {
    if !Truthy(created) then Ok(false)
    else if created.VStr? then Ok(StrLt(endIso, Prefix(created.s, 10)))
    else Err(TypeError("'>' not supported"))
  }

  /** `content.get("content_intent") not in intent_selected`. */
  function IntentMissing(content: Value, intents: seq<string>): (r: Result<bool>)
    ensures r.Err? <==> !content.VDict?
    ensures content.VDict? ==>
      (r == Ok(false) <==> exists i :: 0 <= i < |intents| && DictGet(content.entries, "content_intent") == Some(VStr(intents[i])))
  {
    if !content.VDict? then Err(AttributeError("'get'"))
    else
      var intent := DictGet(content.entries, "content_intent");
      Ok(!(intent.Some? && intent.value.VStr? && intent.value.s in intents))
  }

  /** Whether the post-fetch filters keep a row, checked in the page's order. */
  function Keep(row: Row, maxQ: int, endIso: string, intents: seq<string>, parseJson: string -> Option<Value>): (r: Result<bool>)
    ensures r == Ok(true) <==>
      AboveMax(Get(row, "quality_score", VNone), maxQ) == Ok(false) &&
      AfterEnd(Get(row, "created_at", VStr("")), endIso) == Ok(false) &&
      (|intents| == 0 || IntentMissing(ParseContent(row, parseJson), intents) == Ok(false))
    ensures AboveMax(Get(row, "quality_score", VNone), maxQ) == Ok(true) ==> r == Ok(false)
  {
    var above := AboveMax(Get(row, "quality_score", VNone), maxQ);
    if above.Err? then Err(above.error)
    else if above.value then Ok(false)
    else
      var late := AfterEnd(Get(row, "created_at", VStr("")), endIso);
      if late.Err? then Err(late.error)
      else if late.value then Ok(false)
      else if |intents| == 0 then Ok(true)
      else
        var missing := IntentMissing(ParseContent(row, parseJson), intents);
        if missing.Err? then Err(missing.error) else Ok(!missing.value)
  }

  /** The rows a filtering loop keeps, or the first exception it meets. */
  function Survivors<T>(s: seq<T>, keep: T -> Result<bool>): (r: Result<seq<T>>)
    ensures r.Ok? <==> forall i :: 0 <= i < |s| ==> keep(s[i]).Ok?
    ensures r.Ok? ==> forall i :: 0 <= i < |r.value| ==> r.value[i] in s && keep(r.value[i]) == Ok(true)
  {
    if |s| == 0 then Ok([])
    else
      var init := Survivors(s[..|s| - 1], keep);
      var k := keep(s[|s| - 1]);
      assert forall i :: 0 <= i < |s| - 1 ==> s[..|s| - 1][i] == s[i];
      if init.Err? then init
      else if k.Err? then Err(k.error)
      else if k.value then Ok(init.value + [s[|s| - 1]])
      else init
  }

  /** Without exceptions the loop is the list comprehension: survivors keep their fetch order. */
  lemma {:induction false} SurvivorsIsFilter<T(!new)>(s: seq<T>, keep: T -> Result<bool>, pick: T -> bool)
    requires forall x :: x in s ==> keep(x) == Ok(pick(x))
    ensures Survivors(s, keep) == Ok(Filter(s, pick))
  {
    if |s| > 0 {
      assert forall x :: x in s[..|s| - 1] ==> x in s;
      SurvivorsIsFilter(s[..|s| - 1], keep, pick);
    }
  }

  /** The post-fetch loop. */
  method PostFilter(rows: seq<Row>, maxQ: int, endIso: string, intents: seq<string>, parseJson: string -> Option<Value>)
    returns (r: Result<seq<Row>>)
    ensures r == Survivors(rows, (row: Row) => Keep(row, maxQ, endIso, intents, parseJson))
  {
    ghost var keep := (row: Row) => Keep(row, maxQ, endIso, intents, parseJson);
    var filtered: seq<Row> := [];
    var i := 0;
    while i < |rows|
      invariant 0 <= i <= |rows|
      invariant Survivors(rows[..i], keep) == Ok(filtered)
    {
      var row := rows[i];
      var qs := Get(row, "quality_score", VNone);
      var above := AboveMax(qs, maxQ);
      if above.Err? {
        assert keep(row) == Err(above.error);
        SurvivorsErrAt(rows, i, keep, filtered);
        return Err(above.error);
      }
      if above.value {
        assert keep(row) == Ok(false);
        SurvivorsStep(rows, i, keep, filtered);
        i := i + 1;
        continue;
      }
      var created := Get(row, "created_at", VStr(""));
      var late := AfterEnd(created, endIso);
      if late.Err? {
        assert keep(row) == Err(late.error);
        SurvivorsErrAt(rows, i, keep, filtered);
        return Err(late.error);
      }
      if late.value {
        assert keep(row) == Ok(false);
        SurvivorsStep(rows, i, keep, filtered);
        i := i + 1;
        continue;
      }
      if |intents| > 0 {
        var content := ParseContent(row, parseJson);
        var missing := IntentMissing(content, intents);
        if missing.Err? {
          assert keep(row) == Err(missing.error);
          SurvivorsErrAt(rows, i, keep, filtered);
          return Err(missing.error);
        }
        if missing.value {
          assert keep(row) == Ok(false);
          SurvivorsStep(rows, i, keep, filtered);
          i := i + 1;
          continue;
        }
      }
      assert keep(row) == Ok(true);
      SurvivorsStep(rows, i, keep, filtered);
      filtered := filtered + [row];
      i := i + 1;
    }
    assert rows[..|rows|] == rows;
    r := Ok(filtered);
  }

  /** One row the loop visits without an exception: kept at the end or skipped. */
  lemma SurvivorsStep<T>(s: seq<T>, i: nat, keep: T -> Result<bool>, acc: seq<T>)
    requires i < |s| && Survivors(s[..i], keep) == Ok(acc) && keep(s[i]).Ok?
    ensures Survivors(s[..i + 1], keep) == Ok(if keep(s[i]).value then acc + [s[i]] else acc)
  {
    assert s[..i + 1][..i] == s[..i];
  }

  /** An exception at row `i`, after rows that raised none, is the loop's result. */
  lemma SurvivorsErrAt<T>(s: seq<T>, i: nat, keep: T -> Result<bool>, acc: seq<T>)
    requires i < |s| && Survivors(s[..i], keep) == Ok(acc) && keep(s[i]).Err?
    ensures Survivors(s, keep) == Err(keep(s[i]).error)
  {
    SurvivorsErr(s, i + 1, keep);
  }

  /** An exception in the first `n` rows is the loop's result. */
  lemma {:induction false} SurvivorsErr<T>(s: seq<T>, n: nat, keep: T -> Result<bool>)
    requires 0 < n <= |s| && Survivors(s[..n - 1], keep).Ok? && keep(s[n - 1]).Err?
    ensures Survivors(s, keep) == Err(keep(s[n - 1]).error)
    decreases |s|
  {
    if n < |s| {
      assert s[..|s| - 1][..n - 1] == s[..n - 1];
      assert s[..|s| - 1][n - 1] == s[n - 1];
      SurvivorsErr(s[..|s| - 1], n, keep);
    } else {
      assert s[..n - 1] == s[..|s| - 1];
    }
  }

  predicate IsPending(row: Row) {
    Get(row, "status", VNone) == VStr("pending_review")
  }

  predicate IsApproved(row: Row) {
    Get(row, "status", VNone) == VStr("approved")
  }

  /** Two conditions that exclude each other count at most every element once. */
  lemma {:induction false} DisjointCounts<T>(s: seq<T>, p: T -> bool, q: T -> bool)
    requires forall x :: !(p(x) && q(x))
    ensures CountWhere(s, p) + CountWhere(s, q) <= |s|
  {
    if |s| > 0 {
      DisjointCounts(s[..|s| - 1], p, q);
    }
  }

  /** Pending plus approved never exceed the total. */
  lemma PendingApprovedBound(filtered: seq<Row>)
    ensures CountWhere(filtered, IsPending) + CountWhere(filtered, IsApproved) <= |filtered|
  {
    DisjointCounts(filtered, IsPending, IsApproved);
  }

  /** `r.get("content_type", "other")`. */
  function ContentTypeOf(row: Row): (ct: Value)
    ensures "content_type" in row ==> ct == row["content_type"]
    ensures "content_type" !in row ==> ct == VStr("other")
  {
    Get(row, "content_type", VStr("other"))
  }

  /** The `ct_counts` loop. */
  method ContentTypeCounts(filtered: seq<Row>) returns (counts: Counter.Counts<Value>)
    ensures counts == Counter.CountAll(Map(filtered, ContentTypeOf))
  {
    counts := [];
    var i := 0;
    while i < |filtered|
      invariant 0 <= i <= |filtered|
      invariant counts == Counter.CountAll(Map(filtered[..i], ContentTypeOf))
    {
      assert Map(filtered[..i + 1], ContentTypeOf)[..i] == Map(filtered[..i], ContentTypeOf);
      counts := Counter.Increment(counts, ContentTypeOf(filtered[i]));
      i := i + 1;
    }
    assert filtered[..|filtered|] == filtered;
  }

  /**
   * The type breakdown counts every shown row once, lists each type once,
   * and its summary runs by non-increasing count over the same entries.
   */
  lemma TypeBreakdown(filtered: seq<Row>, t: Value)
    ensures Counter.Total(Counter.CountAll(Map(filtered, ContentTypeOf))) == |filtered|
    ensures Counter.Keys(Counter.CountAll(Map(filtered, ContentTypeOf))) == Dedup(Map(filtered, ContentTypeOf))
    ensures Counter.Get(Counter.CountAll(Map(filtered, ContentTypeOf)), t) == multiset(Map(filtered, ContentTypeOf))[t]
    ensures Counter.NonIncreasing(Counter.SortByCount(Counter.CountAll(Map(filtered, ContentTypeOf))))
    ensures Counter.Total(Counter.SortByCount(Counter.CountAll(Map(filtered, ContentTypeOf)))) == |filtered|
  {
    var c := Counter.CountAll(Map(filtered, ContentTypeOf));
    Counter.CountAllTotal(Map(filtered, ContentTypeOf));
    Counter.CountAllKeys(Map(filtered, ContentTypeOf));
    Counter.CountAllGet(Map(filtered, ContentTypeOf), t);
    Counter.TotalPermutation(Counter.SortByCount(c), c);
  }

  const PageSize := 20

  /** `max(1, -(-total // page_size))`. */
  function AnglePages(total: int): (r: int)
    ensures r >= 1
    ensures total > 0 ==> (r - 1) * PageSize < total <= r * PageSize
  {
    Max(1, CeilDiv(total, PageSize))
  }

  /** `min(page_num, total_pages - 1)`: there is no lower clamp. */
  function AnglePage(stored: int, total: int): (r: int)
    ensures r == stored || r == AnglePages(total) - 1
    ensures r <= AnglePages(total) - 1 && r <= stored
  {
    Min(stored, AnglePages(total) - 1)
  }

  /** `filtered[start_idx:end_idx]`. */
  function ShownRows(filtered: seq<Row>, stored: int): (shown: seq<Row>)
    ensures |shown| <= |filtered|
    ensures stored >= 0 ==> |shown| <= PageSize
  {
    var start := AnglePage(stored, |filtered|) * PageSize;
    PySlice(filtered, start, Min(start + PageSize, |filtered|))
  }

  /** For a page that is not negative, the cards shown are one run of at most 20 rows that starts on a row. */
  lemma ShownRowsRange(filtered: seq<Row>, stored: int)
    requires stored >= 0 && |filtered| > 0
    ensures var page := AnglePage(stored, |filtered|);
      0 <= page < AnglePages(|filtered|) &&
      page * PageSize < |filtered| &&
      ShownRows(filtered, stored) == filtered[page * PageSize .. Min(page * PageSize + PageSize, |filtered|)] &&
      1 <= |ShownRows(filtered, stored)| <= PageSize
  {
    var page := AnglePage(stored, |filtered|);
    var tp := AnglePages(|filtered|);
    assert page <= tp - 1;
    assert page * PageSize <= (tp - 1) * PageSize;
  }

  /** Every row is shown on page `i / 20`. */
  lemma EveryRowHasAPage(filtered: seq<Row>, i: int)
    requires 0 <= i < |filtered|
    ensures AnglePage(i / PageSize, |filtered|) == i / PageSize
    ensures filtered[i] in ShownRows(filtered, i / PageSize)
  {
    var tp := AnglePages(|filtered|);
    var page := i / PageSize;
    assert page * PageSize <= i < page * PageSize + PageSize;
    assert (tp - 1) * PageSize < |filtered| <= tp * PageSize;
    assert page <= tp - 1;
    ShownRowsRange(filtered, page);
    assert filtered[i] == ShownRows(filtered, page)[i - page * PageSize];
  }

  /**
   * The Previous / Next buttons. Previous is disabled on page 0 and stores
   * `max(0, page - 1)`; Next is disabled on the last page and stores
   * `page + 1`. Previous is drawn first.
   */
  method AngleNav(s: Session, total: int, prevClicked: bool, nextClicked: bool) returns (out: Outcome)
    requires "ab_page" in s.state ==> s.state["ab_page"].VInt?
    modifies s
    ensures s.params == old(s.params)
    ensures var page := AnglePage(StoredPage(old(s.state), "ab_page"), total);
      if prevClicked && page != 0 then
        out == Rerun && s.state == old(s.state)["ab_page" := VInt(Max(0, page - 1))]
      else if nextClicked && page < AnglePages(total) - 1 then
        out == Rerun && s.state == old(s.state)["ab_page" := VInt(page + 1)]
      else
        out == Shown(page * PageSize, page) && s.state == old(s.state)
  {
    var page := if "ab_page" in s.state then s.state["ab_page"].i else 0;
    var totalPages := Max(1, CeilDiv(total, PageSize));
    page := Min(page, totalPages - 1);
    if prevClicked && page != 0 {
      s.state := s.state["ab_page" := VInt(Max(0, page - 1))];
      return Rerun;
    }
    if nextClicked && !(page >= totalPages - 1) {
      s.state := s.state["ab_page" := VInt(page + 1)];
      return Rerun;
    }
    out := Shown(page * PageSize, page);
  }

  /** Next never leaves the pages, and Previous never goes below 0. */
  lemma NavStaysInRange(stored: int, total: int)
    requires stored >= 0
    ensures var page := AnglePage(stored, total);
      (page < AnglePages(total) - 1 ==> 0 <= page + 1 <= AnglePages(total) - 1) &&
      0 <= Max(0, page - 1) <= AnglePages(total) - 1
  {
  }

  /** The colour of the `Q:` badge: green from 75, amber from 60, red below. */
  function QualityColour(q: real): (r: string)
    ensures r == "#388e3c" <==> q >= 75.0
    ensures r == "#f57c00" <==> 60.0 <= q < 75.0
    ensures r == "#d32f2f" <==> q < 60.0
  {
    if q >= 75.0 then "#388e3c" else if q >= 60.0 then "#f57c00" else "#d32f2f"
  }

  /** The tiers only go up with the score. */
  lemma QualityColourMonotone(a: real, b: real)
    requires a <= b
    ensures QualityColour(a) == "#388e3c" ==> QualityColour(b) == "#388e3c"
    ensures QualityColour(b) == "#d32f2f" ==> QualityColour(a) == "#d32f2f"
  {
  }

  /**
   * `[q for q in key_quotes[:3] if q]`, drawn only for a non-empty list: the
   * truthy quotes among the first three, each of them, in their order.
   */
  function ShownQuotes(keyQuotes: Value): (r: seq<Value>)
    ensures |r| <= 3
    ensures forall i :: 0 <= i < |r| ==> Truthy(r[i])
    ensures keyQuotes.VList? ==> forall i :: 0 <= i < |r| ==> r[i] in keyQuotes.items
    ensures !keyQuotes.VList? ==> r == []
    ensures keyQuotes.VList? ==>
      var first := Prefix(keyQuotes.items, 3);
      IsSubsequence(r, first) && |r| == CountWhere(first, Truthy) &&
      forall x :: x in first && Truthy(x) ==> x in r
  {
    if keyQuotes.VList? && |keyQuotes.items| > 0 then
      var first := Prefix(keyQuotes.items, 3);
      assert forall x :: x in first ==> x in keyQuotes.items;
      FilterIsSubsequence(first, Truthy);
      CountWhereIsFilterLength(first, Truthy);
      Filter(first, Truthy)
    else []
  }

  /** The badge colours of the page, each read by `_badge` as three components. */
  const BadgeColours: seq<string> := [
    "#1565c0", "#7b1fa2", "#ef6c00", "#2e7d32", "#757575", "#d32f2f", "#f57c00", "#388e3c", "#546e7a"]

  lemma BadgeColoursParse()
    ensures forall c :: c in BadgeColours ==> Filters.HexRgb(c).Some?
  {
    forall c | c in BadgeColours ensures Filters.HexRgb(c).Some? {
      Filters.ColourParses(c);
    }
  }
}
