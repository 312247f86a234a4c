/**
 * `app_pages/3_Quote_Bank.py`: the page reset on a change of filters, the
 * date arguments of the quote queries, the rows ticked for export, the
 * choice between the selection and all visible rows, and the blocks of the
 * Word export.
 */
module QuoteBank {
  import opened Wrappers
  import opened PyValue
  import opened Strings
  import opened Seqs
  import opened Ui
  import Filters
  import Queries
  import Export

  /** The reset idiom on this page's keys. */
  method ResetQuotePage(s: Session, filterKey: string)
    modifies s
    ensures s.params == old(s.params)
    ensures s.state == AfterReset(old(s.state), "qb_page", "qb_page_filter_hash", filterKey)
  {
    ResetPageOnFilterChange(s, "qb_page", "qb_page_filter_hash", filterKey);
  }

  /** `str(d) if d else None` on the ISO text of the date picker. */
  function DateArg(d: string): (r: Option<string>)
    ensures r.None? <==> d == ""
    ensures r.Some? ==> r.value == d
  {
    if d == "" then None else Some(d)
  }

  /** The filters both quote queries receive. */
  function PageFilters(minQ: int, maxQ: int, caseTypes: Option<seq<string>>, tones: Option<seq<string>>,
                       languages: Option<seq<string>>, testimonialOnly: bool,
                       startIso: string, endIso: string): (f: Queries.QuoteFilters)
    ensures f.minQuality == minQ && f.maxQuality == maxQ
    ensures f.startDate == DateArg(Filters.DateRange(startIso, endIso).0)
    ensures f.endDate == DateArg(Filters.DateRange(startIso, endIso).1)
  {
    var (start, end) := Filters.DateRange(startIso, endIso);
    Queries.QuoteFilters(minQ, maxQ, caseTypes, tones, languages, testimonialOnly, DateArg(start), DateArg(end))
  }

  /**
   * The end bound is never empty (it ends in the time of day), so both
   * queries always filter on it; the start bound is dropped only for an
   * empty start text.
   */
  lemma EndDateAlwaysPassed(minQ: int, maxQ: int, caseTypes: Option<seq<string>>, tones: Option<seq<string>>,
                            languages: Option<seq<string>>, testimonialOnly: bool, startIso: string, endIso: string)
    ensures var f := PageFilters(minQ, maxQ, caseTypes, tones, languages, testimonialOnly, startIso, endIso);
      f.endDate == Some(endIso + Filters.EndOfDay) && (f.startDate.None? <==> startIso == "")
  {
    var f := PageFilters(minQ, maxQ, caseTypes, tones, languages, testimonialOnly, startIso, endIso);
    assert |Filters.DateRange(startIso, endIso).1| > 0;
  }

  /** The session key of a row's check box, `f"qb_sel_{row.get('source_transcript_id', '')}"`. */
  function SelKey(row: Row, str: Value -> string): (k: string)
    ensures StartsWith(k, "qb_sel_")
  {
    "qb_sel_" + Text(Get(row, "source_transcript_id", VStr("")), str)
  }

  /** Whether the row's check box is ticked: `st.session_state.get(key, False)` taken as a condition. */
  predicate Ticked(state: map<string, Value>, str: Value -> string, row: Row) {
    Truthy(Get(state, SelKey(row, str), VBool(false)))
  }

  /** `sel_rows`. */
  function SelRows(quotes: seq<Row>, state: map<string, Value>, str: Value -> string): (sel: seq<Row>)
    ensures |sel| <= |quotes|
    ensures forall row :: row in sel <==> row in quotes && Ticked(state, str, row)
  {
    Filter(quotes, (row: Row) => Ticked(state, str, row))
  }

  /** `sel_count`. */
  function SelCount(quotes: seq<Row>, state: map<string, Value>, str: Value -> string): (n: nat)
    ensures n == |SelRows(quotes, state, str)|
    ensures n <= |quotes|
  {
    CountWhereIsFilterLength(quotes, (row: Row) => Ticked(state, str, row));
    CountWhere(quotes, (row: Row) => Ticked(state, str, row))
  }

  /**
   * The selection is the ticked rows in page order, `sel_count` is its size,
   * and a page with no ticked box has an empty selection.
   */
  lemma SelectionFacts(quotes: seq<Row>, state: map<string, Value>, str: Value -> string)
    ensures IsSubsequence(SelRows(quotes, state, str), quotes)
    ensures SelCount(quotes, state, str) == |SelRows(quotes, state, str)|
    ensures forall row :: row in SelRows(quotes, state, str) <==> row in quotes && Ticked(state, str, row)
    ensures SelRows(quotes, state, str) == [] <==> forall i :: 0 <= i < |quotes| ==> !Ticked(state, str, quotes[i])
  {
    var keep := (row: Row) => Ticked(state, str, row);
    FilterIsSubsequence(quotes, keep);
    CountWhereIsFilterLength(quotes, keep);
    var sel := SelRows(quotes, state, str);
    if sel != [] {
      assert sel[0] in quotes;
    } else {
      assert forall i :: 0 <= i < |quotes| ==> quotes[i] !in sel;
    }
  }

  /** Both exports take the selection when it is non-empty, else every visible row. */
  function ExportRows(quotes: seq<Row>, sel: seq<Row>): (r: seq<Row>)
    ensures |sel| > 0 ==> r == sel
    ensures |sel| == 0 ==> r == quotes
  {
    if |sel| > 0 then sel else quotes
  }

  /** The label of the Word button. */
  function WordLabel(quotes: seq<Row>, sel: seq<Row>, selCount: nat): (r: string)
    ensures |sel| > 0 ==> r == "Word (" + NatToString(selCount) + " selected)"
    ensures |sel| == 0 ==> r == "Word (" + NatToString(|quotes|) + " visible)"
  {
    if |sel| > 0 then "Word (" + NatToString(selCount) + " selected)"
    else "Word (" + NatToString(|quotes|) + " visible)"
  }

  /** The label of the CSV button. */
  function CsvLabel(sel: seq<Row>, selCount: nat): (r: string)
    ensures |sel| == 0 ==> r == "CSV"
    ensures |sel| > 0 ==> r == "CSV (" + NatToString(selCount) + " selected)"
  {
    if |sel| > 0 then "CSV (" + NatToString(selCount) + " selected)" else "CSV"
  }

  /** A section of the Word export. */
  datatype Block = Block(heading: string, body: string)

  /** The row has a quote: `_r.get("key_quote", "")` is truthy. */
  function HasQuote(row: Row): (has: bool)
    ensures has ==> "key_quote" in row && Truthy(row["key_quote"])
    ensures "key_quote" in row && Truthy(row["key_quote"]) ==> has
  {
    Truthy(Get(row, "key_quote", VStr("")))
  }

  /**
   * `(_r.get("analyzed_at") or "")[:10]`: the first ten characters of a
   * timestamp text, `""` for a missing or empty one. Any other truthy value
   * is reported as a `TypeError`: a number or an object cannot be sliced,
   * and the list Python would slice is not modelled as a date.
   */
  function DateOf(row: Row): (r: Result<string>)
    ensures r.Ok? ==> |r.value| <= 10
    ensures Get(row, "analyzed_at", VNone).VStr? ==>
      r == Ok(Prefix(Get(row, "analyzed_at", VNone).s, 10))
    ensures !Truthy(Get(row, "analyzed_at", VNone)) ==> r == Ok("")
    ensures r.Err? <==> Truthy(Get(row, "analyzed_at", VNone)) && !Get(row, "analyzed_at", VNone).VStr?
    ensures r.Err? ==> r.error.TypeError?
  {
    var v := Get(row, "analyzed_at", VNone);
    if !Truthy(v) then Ok("")
    else if v.VStr? then Ok(Prefix(v.s, 10))
    else Err(TypeError("object is not subscriptable"))
  }

  /** A value given to `format_quote_for_clipboard` where only its truth and its text matter. */
  function OptText(v: Value, str: Value -> string): (r: Option<string>)
    ensures r.Some? <==> Truthy(v)
  {
    if Truthy(v) then Some(Text(v, str)) else None
  }

  /** The quality argument, shown when not `None`: an integer score. */
  function OptQuality(v: Value): (r: Option<int>)
    ensures v.VInt? <==> r.Some?
  {
    if v.VInt? then Some(v.i) else None
  }

  /** The block of a row with a quote whose date could be cut. */
  function BlockOf(row: Row, date: string, str: Value -> string): (b: Block)
    ensures b.heading == Text(Get(row, "case_type", VStr("")), str) + " — " + date
  {
    Block(Text(Get(row, "case_type", VStr("")), str) + " — " + date,
      Export.FormatQuoteForClipboard(Text(Get(row, "key_quote", VStr("")), str),
        OptText(Get(row, "case_type", VNone), str), OptText(Get(row, "emotional_tone", VNone), str),
        OptQuality(Get(row, "quality_score", VNone)), Some(date)))
  }

  /** The blocks of `rows`, or the first error, which the page's `except` swallows. */
  function Blocks(rows: seq<Row>, str: Value -> string): (r: Result<seq<Block>>)
    ensures r.Ok? ==> |r.value| <= |rows|
  {
    if |rows| == 0 then Ok([])
    else
      var init := Blocks(rows[..|rows| - 1], str);
      var row := rows[|rows| - 1];
      if init.Err? then init
      else if !HasQuote(row) then init
      else
        var date := DateOf(row);
        if date.Err? then Err(date.error) else Ok(init.value + [BlockOf(row, date.value, str)])
  }

  /** The loop that appends one block per row with a quote. */
  method BuildBlocks(rows: seq<Row>, str: Value -> string) returns (r: Result<seq<Block>>)
    ensures r == Blocks(rows, str)
  {
    var blocks: seq<Block> := [];
    var i := 0;
    while i < |rows|
      invariant 0 <= i <= |rows|
      invariant Blocks(rows[..i], str) == Ok(blocks)
    {
      assert rows[..i + 1][..i] == rows[..i];
      var row := rows[i];
      if HasQuote(row) {
        var date := DateOf(row);
        if date.Err? {
          r := Err(date.error);
          ErrStays(rows, i + 1, str);
          return;
        }
        blocks := blocks + [BlockOf(row, date.value, str)];
      }
      i := i + 1;
    }
    assert rows[..|rows|] == rows;
    r := Ok(blocks);
  }

  /** Once a prefix fails, the whole list fails with the same error. */
  lemma {:induction false} ErrStays(rows: seq<Row>, n: nat, str: Value -> string)
    requires n <= |rows| && Blocks(rows[..n], str).Err?
    ensures Blocks(rows, str) == Blocks(rows[..n], str)
    decreases |rows| - n
  {
    if n < |rows| {
      assert rows[..n + 1][..n] == rows[..n];
      ErrStays(rows, n + 1, str);
    } else {
      assert rows[..n] == rows;
    }
  }

  /** Every row with a quote has a date that can be cut. */
  predicate DatesCut(rows: seq<Row>) {
    forall i :: 0 <= i < |rows| && HasQuote(rows[i]) ==> DateOf(rows[i]).Ok?
  }

  /** The export succeeds exactly when every row with a quote has a date that can be cut. */
  lemma {:induction false} BlocksOk(rows: seq<Row>, str: Value -> string)
    ensures Blocks(rows, str).Ok? <==> DatesCut(rows)
  {
    if |rows| > 0 {
      var init := rows[..|rows| - 1];
      BlocksOk(init, str);
      assert forall i :: 0 <= i < |init| ==> init[i] == rows[i];
    }
  }

  /**
   * The export has exactly one block per row with a quote, in row order:
   * block `k` belongs to the `k`-th such row and is headed by its case type
   * and the first ten characters of its timestamp. Rows without a quote
   * are skipped.
   */
  lemma {:induction false} BlocksValue(rows: seq<Row>, str: Value -> string)
    requires DatesCut(rows)
    ensures Blocks(rows, str).Ok?
    ensures var q := Filter(rows, HasQuote);
      var bs := Blocks(rows, str).value;
      |bs| == |q| && forall k :: 0 <= k < |q| ==> BlockMatches(q[k], bs[k], str)
  {
    BlocksOk(rows, str);
    if |rows| > 0 {
      var init := rows[..|rows| - 1];
      var row := rows[|rows| - 1];
      assert DatesCut(init) by {
        assert forall i :: 0 <= i < |init| ==> init[i] == rows[i];
      }
      BlocksValue(init, str);
      BlocksOk(init, str);
      FilterAppend(init, [row], HasQuote);
      assert init + [row] == rows;
      if HasQuote(row) {
        assert DateOf(row).Ok?;
        BlocksSnocQuote(rows, str);
        MatchSnoc(Filter(init, HasQuote), Blocks(init, str).value, row, str);
      } else {
        assert Blocks(rows, str) == Blocks(init, str);
      }
    }
  }

  /** The block of a row is the one its date gives. */
  predicate BlockMatches(row: Row, b: Block, str: Value -> string) {
    DateOf(row).Ok? && b == BlockOf(row, DateOf(row).value, str)
  }

  lemma BlocksSnocQuote(rows: seq<Row>, str: Value -> string)
    requires |rows| > 0 && Blocks(rows[..|rows| - 1], str).Ok?
    requires HasQuote(rows[|rows| - 1]) && DateOf(rows[|rows| - 1]).Ok?
    ensures Blocks(rows, str) ==
      Ok(Blocks(rows[..|rows| - 1], str).value + [BlockOf(rows[|rows| - 1], DateOf(rows[|rows| - 1]).value, str)])
  {
    var init := Blocks(rows[..|rows| - 1], str);
    var row := rows[|rows| - 1];
    var b := BlockOf(row, DateOf(row).value, str);
    assert Blocks(rows, str) == Ok(init.value + [b]);
  }

  lemma MatchSnoc(q: seq<Row>, bs: seq<Block>, row: Row, str: Value -> string)
    requires |bs| == |q| && forall k :: 0 <= k < |q| ==> BlockMatches(q[k], bs[k], str)
    requires DateOf(row).Ok?
    ensures var q' := q + [row];
      var bs' := bs + [BlockOf(row, DateOf(row).value, str)];
      |bs'| == |q'| && forall k :: 0 <= k < |q'| ==> BlockMatches(q'[k], bs'[k], str)
  {
    var q' := q + [row];
    var bs' := bs + [BlockOf(row, DateOf(row).value, str)];
    forall k | 0 <= k < |q'| ensures BlockMatches(q'[k], bs'[k], str) {
      if k < |q| {
        assert q'[k] == q[k] && bs'[k] == bs[k];
      }
    }
  }

  /** The Word download: offered with its label and blocks only when some block exists. */
  function WordDownload(quotes: seq<Row>, state: map<string, Value>, str: Value -> string): (r: Option<(string, seq<Block>)>)
    ensures r.Some? <==>
      (Blocks(ExportRows(quotes, SelRows(quotes, state, str)), str).Ok? &&
       |Blocks(ExportRows(quotes, SelRows(quotes, state, str)), str).value| > 0)
    ensures r.Some? ==> r.value.1 == Blocks(ExportRows(quotes, SelRows(quotes, state, str)), str).value
    ensures r.Some? ==> r.value.0 == WordLabel(quotes, SelRows(quotes, state, str), SelCount(quotes, state, str))
  {
    var sel := SelRows(quotes, state, str);
    var blocks := Blocks(ExportRows(quotes, sel), str);
    if blocks.Ok? && |blocks.value| > 0 then Some((WordLabel(quotes, sel, SelCount(quotes, state, str)), blocks.value))
    else None
  }

  /** With no row with a quote among the exported rows there is no Word button. */
  lemma NoQuoteNoDownload(quotes: seq<Row>, state: map<string, Value>, str: Value -> string)
    requires forall i :: 0 <= i < |quotes| ==> !HasQuote(quotes[i])
    ensures WordDownload(quotes, state, str) == None
  {
    var sel := SelRows(quotes, state, str);
    var rows := ExportRows(quotes, sel);
    assert forall i :: 0 <= i < |rows| ==> !HasQuote(rows[i]) by {
      forall i | 0 <= i < |rows| ensures !HasQuote(rows[i]) {
        assert rows[i] in quotes;
      }
    }
    FilterNoneKept(rows, HasQuote);
    BlocksValue(rows, str);
  }
}
