/**
 * `utils/queries.py`: the named queries of the portal. Each builder is the
 * request it sends (filters, ordering, window); the text-search escaper
 * and its meaning as an ILIKE pattern; the median of the metric cards; the
 * period windows; the language list; the testimonial status update.
 */
module Queries {
  import opened Wrappers
  import opened PyValue
  import opened Strings
  import opened Seqs
  import opened Postgrest
  import Database
  import Constants

  const AnalysisResults := "analysis_results"

  const QuoteColumns := "source_transcript_id, key_quote, case_type, emotional_tone, "
    + "quality_score, original_language, suggested_tags, analyzed_at, "
    + "testimonial_candidate, testimonial_type, verbatim_customer_language"

  const SearchColumns := "source_transcript_id, case_type, quality_score, emotional_tone, "
    + "outcome, analyzed_at, original_language, key_quote, summary, "
    + "primary_topic, suggested_tags, content_generation_flag, "
    + "testimonial_candidate, testimonial_type, confidence_score, "
    + "estimated_case_value_category"

  /** A list argument is truthy when given and non-empty. */
  predicate Given(xs: Option<seq<string>>) {
    xs.Some? && |xs.value| > 0
  }

  /** A text argument is truthy when given and non-empty. */
  predicate GivenText(s: Option<string>) {
    s.Some? && s.value != ""
  }

  function StrList(xs: seq<string>): Value {
    VList(Map(xs, (x: string) => VStr(x)))
  }

  /** `q.in_(col, xs)` when `xs` is truthy, otherwise nothing. */
  function InIfGiven(col: string, xs: Option<seq<string>>): seq<Pred> {
    if Given(xs) then [Cmp(InOp, col, StrList(xs.value))] else []
  }

  /** `q.<op>(col, s)` when `s` is truthy, otherwise nothing. */
  function CmpIfGiven(op: Op, col: string, s: Option<string>): seq<Pred> {
    if GivenText(s) then [Cmp(op, col, VStr(s.value))] else []
  }

  /** `.not_.is_("key_quote", "null").neq("key_quote", "")`. */
  const HasQuotePreds: seq<Pred> := [Cmp(NotIsOp, "key_quote", VStr("null")), Cmp(NeqOp, "key_quote", VStr(""))]

  /** `q.in_(col, xs)` if `xs` is truthy. */
  function WhereIn(q: Query, col: string, xs: Option<seq<string>>): (r: Query)
    ensures r == q.(preds := q.preds + InIfGiven(col, xs))
  {
    if Given(xs) then Where(q, Cmp(InOp, col, StrList(xs.value))) else q
  }

  /** `q.<op>(col, s)` if `s` is truthy. */
  function WhereText(q: Query, op: Op, col: string, s: Option<string>): (r: Query)
    ensures r == q.(preds := q.preds + CmpIfGiven(op, col, s))
  {
    if GivenText(s) then Where(q, Cmp(op, col, VStr(s.value))) else q
  }

  /** The filters `ps` if `cond` holds. */
  function When(cond: bool, ps: seq<Pred>): seq<Pred> {
    if cond then ps else []
  }

  /** Further filter calls made when `cond` holds. */
  function WhereIf(q: Query, cond: bool, ps: seq<Pred>): (r: Query)
    ensures r == q.(preds := q.preds + When(cond, ps))
  {
    if cond then q.(preds := q.preds + ps) else q
  }

  /** The window of the paged builders: a positive offset gives a range, otherwise a limit. */
  function PagedWindow(limit: int, offset: int): (w: Window)
    ensures offset > 0 ==> w == Range(offset, offset + limit - 1)
    ensures RequestedRows(w) == Some(if limit < 0 then 0 else limit)
  {
    if offset > 0 then Range(offset, offset + limit - 1) else Limit(limit)
  }

  // ---------------------------------------------------------------------
  // Quote bank

  datatype QuoteFilters = QuoteFilters(
    minQuality: int, maxQuality: int,
    caseTypes: Option<seq<string>>, tones: Option<seq<string>>, languages: Option<seq<string>>,
    testimonialOnly: bool,
    startDate: Option<string>, endDate: Option<string>)

  /** `fetch_quotes`. */
  function FetchQuotes(f: QuoteFilters, limit: int, offset: int): (r: Query)
    ensures r.table == AnalysisResults && r.select == QuoteColumns && !r.countExact
    ensures r.preds == QuotePreds(f)
    ensures r.orders == [Order("quality_score", true), Order("analyzed_at", true)]
    ensures r.window == PagedWindow(limit, offset)
  {
    var q := Query(AnalysisResults, QuoteColumns, false,
      [Cmp(NotIsOp, "key_quote", VStr("null")),
       Cmp(NeqOp, "key_quote", VStr("")),
       Cmp(GteOp, "quality_score", VInt(f.minQuality)),
       Cmp(LteOp, "quality_score", VInt(f.maxQuality))],
      [Order("quality_score", true), Order("analyzed_at", true)],
      Unbounded);
    var q := q.(window := if offset > 0 then Range(offset, offset + limit - 1) else Limit(limit));
    var q := WhereIn(q, "case_type", f.caseTypes);
    var q := WhereIn(q, "emotional_tone", f.tones);
    var q := WhereIn(q, "original_language", f.languages);
    var q := WhereIf(q, f.testimonialOnly, [Cmp(EqOp, "testimonial_candidate", VBool(true))]);
    var q := WhereText(q, GteOp, "analyzed_at", f.startDate);
    var q := WhereText(q, LteOp, "analyzed_at", f.endDate);
    q
  }

  /** `count_quotes`: the same filters, counted, with no ordering or window. */
  function CountQuotes(f: QuoteFilters): (r: Query)
    ensures r.table == AnalysisResults && r.select == "source_transcript_id" && r.countExact
    ensures r.preds == QuotePreds(f)
    ensures r.orders == [] && r.window == Unbounded
  {
    var q := Query(AnalysisResults, "source_transcript_id", true,
      [Cmp(NotIsOp, "key_quote", VStr("null")),
       Cmp(NeqOp, "key_quote", VStr("")),
       Cmp(GteOp, "quality_score", VInt(f.minQuality)),
       Cmp(LteOp, "quality_score", VInt(f.maxQuality))],
      [], Unbounded);
    var q := WhereIn(q, "case_type", f.caseTypes);
    var q := WhereIn(q, "emotional_tone", f.tones);
    var q := WhereIn(q, "original_language", f.languages);
    var q := WhereIf(q, f.testimonialOnly, [Cmp(EqOp, "testimonial_candidate", VBool(true))]);
    var q := WhereText(q, GteOp, "analyzed_at", f.startDate);
    var q := WhereText(q, LteOp, "analyzed_at", f.endDate);
    q
  }

  /** The quote filters, stated clause by clause. */
  function QuotePreds(f: QuoteFilters): (ps: seq<Pred>)
    ensures 4 <= |ps| && forall i :: 0 <= i < |ps| ==> ps[i].Cmp?
    ensures ps[0] == Cmp(NotIsOp, "key_quote", VStr("null")) && ps[1] == Cmp(NeqOp, "key_quote", VStr(""))
  {
    [Cmp(NotIsOp, "key_quote", VStr("null")),
     Cmp(NeqOp, "key_quote", VStr("")),
     Cmp(GteOp, "quality_score", VInt(f.minQuality)),
     Cmp(LteOp, "quality_score", VInt(f.maxQuality))]
    + InIfGiven("case_type", f.caseTypes)
    + InIfGiven("emotional_tone", f.tones)
    + InIfGiven("original_language", f.languages)
    + When(f.testimonialOnly, [Cmp(EqOp, "testimonial_candidate", VBool(true))])
    + CmpIfGiven(GteOp, "analyzed_at", f.startDate)
    + CmpIfGiven(LteOp, "analyzed_at", f.endDate)
  }

  /** The fetch and the count of the quote bank send the same filters. */
  lemma QuoteCountAgreesWithFetch(f: QuoteFilters, limit: int, offset: int)
    ensures FetchQuotes(f, limit, offset).preds == CountQuotes(f).preds == QuotePreds(f)
    ensures FetchQuotes(f, limit, offset).window == PagedWindow(limit, offset)
    ensures CountQuotes(f).countExact && CountQuotes(f).orders == [] && CountQuotes(f).window == Unbounded
  {
  }

  // ---------------------------------------------------------------------
  // Call search

  datatype SearchFilters = SearchFilters(
    textSearch: Option<string>,
    caseTypes: Option<seq<string>>,
    minQuality: int, maxQuality: int,
    startDate: Option<string>, endDate: Option<string>,
    languages: Option<seq<string>>, tones: Option<seq<string>>,
    hasQuote: bool, contentWorthy: bool)

  /** The characters the escaper protects, in the order it replaces them. */
  const Specials: seq<char> := ['\\', '%', '_', '(', ')', '.', ',']

  /**
   * The escaper of `search_calls` / `count_calls`: one `str.replace` per
   * special character, in the order of `specials`, each putting a backslash
   * in front of that character.
   */
  function ReplaceEach(s: string, specials: seq<char>): string
    decreases |specials|
  {
    if |specials| == 0 then s
    else ReplaceEach(ReplaceChar(s, specials[0], ['\\', specials[0]]), specials[1..])
  }

  function Escape(s: string): (r: string)
    ensures r == EscapeSpec(s)
  {
    EscapeIsPerCharacter(s);
    ReplaceEach(s, Specials)
  }

  /** One character escaped: a special gets one backslash in front, any other stays. */
  function EscChar(c: char): string {
    if c in Specials then ['\\', c] else [c]
  }

  /** Character-by-character escaping, the reference definition of the escaper. */
  function EscapeSpec(s: string): string {
    if |s| == 0 then "" else EscChar(s[0]) + EscapeSpec(s[1..])
  }

  /** Drop each escaping backslash, keeping the character after it. */
  function Unescape(t: string): string {
    if |t| == 0 then ""
    else if t[0] == '\\' && |t| >= 2 then [t[1]] + Unescape(t[2..])
    else [t[0]] + Unescape(t[1..])
  }

  /** `search_calls`. */
  function SearchCalls(f: SearchFilters, limit: int, offset: int): (r: Query)
    ensures r.table == AnalysisResults && r.select == SearchColumns && !r.countExact
    ensures r.preds == SearchPreds(f)
    ensures r.orders == [Order("analyzed_at", true)]
    ensures r.window == PagedWindow(limit, offset)
  {
    var q := Query(AnalysisResults, SearchColumns, false,
      [Cmp(GteOp, "quality_score", VInt(f.minQuality)),
       Cmp(LteOp, "quality_score", VInt(f.maxQuality))],
      [Order("analyzed_at", true)],
      Unbounded);
    var q := q.(window := if offset > 0 then Range(offset, offset + limit - 1) else Limit(limit));
    var q := q.(preds := q.preds + SearchIfGiven(f.textSearch));
    var q := WhereIn(q, "case_type", f.caseTypes);
    var q := WhereIn(q, "emotional_tone", f.tones);
    var q := WhereIn(q, "original_language", f.languages);
    var q := WhereText(q, GteOp, "analyzed_at", f.startDate);
    var q := WhereText(q, LteOp, "analyzed_at", f.endDate);
    var q := WhereIf(q, f.hasQuote, HasQuotePreds);
    var q := WhereIf(q, f.contentWorthy, [Cmp(EqOp, "content_generation_flag", VBool(true))]);
    q
  }

  /** `count_calls`. */
  function CountCalls(f: SearchFilters): (r: Query)
    ensures r.table == AnalysisResults && r.select == "source_transcript_id" && r.countExact
    ensures r.preds == SearchPreds(f)
    ensures r.orders == [] && r.window == Unbounded
  {
    var q := Query(AnalysisResults, "source_transcript_id", true,
      [Cmp(GteOp, "quality_score", VInt(f.minQuality)),
       Cmp(LteOp, "quality_score", VInt(f.maxQuality))],
      [], Unbounded);
    var q := q.(preds := q.preds + SearchIfGiven(f.textSearch));
    var q := WhereIn(q, "case_type", f.caseTypes);
    var q := WhereIn(q, "emotional_tone", f.tones);
    var q := WhereIn(q, "original_language", f.languages);
    var q := WhereText(q, GteOp, "analyzed_at", f.startDate);
    var q := WhereText(q, LteOp, "analyzed_at", f.endDate);
    var q := WhereIf(q, f.hasQuote, HasQuotePreds);
    var q := WhereIf(q, f.contentWorthy, [Cmp(EqOp, "content_generation_flag", VBool(true))]);
    q
  }

  /** `%safe%`: the searched text, escaped, anywhere in the column. */
  function SearchPattern(text: string): (p: string)
    ensures 2 <= |p| && p[0] == '%' && p[|p| - 1] == '%'
    ensures Unescape(p[1..|p| - 1]) == text
  {
    UnescapeEscape(text);
    var p := "%" + Escape(text) + "%";
    assert p[1..|p| - 1] == Escape(text);
    p
  }

  /** The columns the text search looks in. */
  const SearchedColumns: seq<string> := ["summary", "key_quote", "primary_topic"]

  /** The `.or_` filter of the text search: the escaped text between `%` wildcards, in each column. */
  function SearchPred(text: string): (p: Pred)
    ensures p.OrIlike? && PredCols(p) == ["summary", "key_quote", "primary_topic"]
    ensures p.OrIlike? && 2 <= |p.pattern| && Unescape(p.pattern[1..|p.pattern| - 1]) == text
  {
    OrIlike(SearchedColumns, SearchPattern(text))
  }

  /** The text search filter if the text is truthy. */
  function SearchIfGiven(text: Option<string>): seq<Pred> {
    if GivenText(text) then [SearchPred(text.value)] else []
  }

  /** The call-search filters, clause by clause. */
  function SearchPreds(f: SearchFilters): seq<Pred> {
    [Cmp(GteOp, "quality_score", VInt(f.minQuality)), Cmp(LteOp, "quality_score", VInt(f.maxQuality))]
    + SearchIfGiven(f.textSearch)
    + InIfGiven("case_type", f.caseTypes)
    + InIfGiven("emotional_tone", f.tones)
    + InIfGiven("original_language", f.languages)
    + CmpIfGiven(GteOp, "analyzed_at", f.startDate)
    + CmpIfGiven(LteOp, "analyzed_at", f.endDate)
    + When(f.hasQuote, HasQuotePreds)
    + When(f.contentWorthy, [Cmp(EqOp, "content_generation_flag", VBool(true))])
  }

  /** The fetch and the count of the call search send the same filters. */
  lemma CallCountAgreesWithSearch(f: SearchFilters, limit: int, offset: int)
    ensures SearchCalls(f, limit, offset).preds == CountCalls(f).preds == SearchPreds(f)
    ensures SearchCalls(f, limit, offset).window == PagedWindow(limit, offset)
    ensures CountCalls(f).countExact && CountCalls(f).orders == [] && CountCalls(f).window == Unbounded
  {
  }

  // ---------------------------------------------------------------------
  // Data explorer

  datatype ExplorerFilters = ExplorerFilters(
    caseTypes: Option<seq<string>>,
    minQuality: int, maxQuality: int,
    startDate: Option<string>, endDate: Option<string>,
    languages: Option<seq<string>>)

  /** `fetch_explorer_data`. */
  function FetchExplorerData(columns: seq<string>, f: ExplorerFilters, limit: int, offset: int): (r: Query)
    ensures r.table == AnalysisResults && r.select == Join(columns, ", ") && !r.countExact
    ensures r.preds == ExplorerPreds(f)
    ensures r.orders == [Order("analyzed_at", true)]
    ensures r.window == PagedWindow(limit, offset)
  {
    var q := Query(AnalysisResults, Join(columns, ", "), false,
      [Cmp(GteOp, "quality_score", VInt(f.minQuality)),
       Cmp(LteOp, "quality_score", VInt(f.maxQuality))],
      [Order("analyzed_at", true)],
      Unbounded);
    var q := q.(window := if offset > 0 then Range(offset, offset + limit - 1) else Limit(limit));
    var q := WhereIn(q, "case_type", f.caseTypes);
    var q := WhereIn(q, "original_language", f.languages);
    var q := WhereText(q, GteOp, "analyzed_at", f.startDate);
    var q := WhereText(q, LteOp, "analyzed_at", f.endDate);
    q
  }

  /** `count_explorer_rows`. */
  function CountExplorerRows(f: ExplorerFilters): (r: Query)
    ensures r.table == AnalysisResults && r.select == "source_transcript_id" && r.countExact
    ensures r.preds == ExplorerPreds(f)
    ensures r.orders == [] && r.window == Unbounded
  {
    var q := Query(AnalysisResults, "source_transcript_id", true,
      [Cmp(GteOp, "quality_score", VInt(f.minQuality)),
       Cmp(LteOp, "quality_score", VInt(f.maxQuality))],
      [], Unbounded);
    var q := WhereIn(q, "case_type", f.caseTypes);
    var q := WhereIn(q, "original_language", f.languages);
    var q := WhereText(q, GteOp, "analyzed_at", f.startDate);
    var q := WhereText(q, LteOp, "analyzed_at", f.endDate);
    q
  }

  /** The explorer filters, stated clause by clause. */
  function ExplorerPreds(f: ExplorerFilters): (ps: seq<Pred>)
    ensures 2 <= |ps| && forall i :: 0 <= i < |ps| ==> ps[i].Cmp?
    ensures ps[0] == Cmp(GteOp, "quality_score", VInt(f.minQuality)) && ps[1] == Cmp(LteOp, "quality_score", VInt(f.maxQuality))
  {
    [Cmp(GteOp, "quality_score", VInt(f.minQuality)), Cmp(LteOp, "quality_score", VInt(f.maxQuality))]
    + InIfGiven("case_type", f.caseTypes)
    + InIfGiven("original_language", f.languages)
    + CmpIfGiven(GteOp, "analyzed_at", f.startDate)
    + CmpIfGiven(LteOp, "analyzed_at", f.endDate)
  }

  /** The fetch and the count of the data explorer send the same filters. */
  lemma ExplorerCountAgreesWithFetch(columns: seq<string>, f: ExplorerFilters, limit: int, offset: int)
    ensures FetchExplorerData(columns, f, limit, offset).preds == CountExplorerRows(f).preds == ExplorerPreds(f)
    ensures FetchExplorerData(columns, f, limit, offset).window == PagedWindow(limit, offset)
    ensures CountExplorerRows(f).countExact && CountExplorerRows(f).orders == []
  {
  }

  // ---------------------------------------------------------------------
  // Properties of the builders

  /** Every row a quote query returns has a non-empty quote and a score within the bounds. */
  lemma QuoteRowsRespectBounds(f: QuoteFilters, row: Row)
    requires Matches(row, QuotePreds(f))
    ensures Col(row, "key_quote").VStr? && Col(row, "key_quote").s != ""
    ensures Compare(Col(row, "quality_score"), VInt(f.minQuality)) in {Some(0), Some(1)}
    ensures Compare(Col(row, "quality_score"), VInt(f.maxQuality)) in {Some(-1), Some(0)}
  {
    var ps := QuotePreds(f);
    assert ps[1] == Cmp(NeqOp, "key_quote", VStr("")) && Holds(row, ps[1]);
    assert ps[2] == Cmp(GteOp, "quality_score", VInt(f.minQuality)) && Holds(row, ps[2]);
    assert ps[3] == Cmp(LteOp, "quality_score", VInt(f.maxQuality)) && Holds(row, ps[3]);
  }

  /** An empty list filter is no filter: `[]` behaves like `None`. */
  lemma EmptyListIsNoFilter(f: QuoteFilters, s: SearchFilters, e: ExplorerFilters)
    ensures QuotePreds(f.(caseTypes := Some([]))) == QuotePreds(f.(caseTypes := None))
    ensures QuotePreds(f.(tones := Some([]))) == QuotePreds(f.(tones := None))
    ensures QuotePreds(f.(languages := Some([]))) == QuotePreds(f.(languages := None))
    ensures SearchPreds(s.(caseTypes := Some([]))) == SearchPreds(s.(caseTypes := None))
    ensures SearchPreds(s.(tones := Some([]))) == SearchPreds(s.(tones := None))
    ensures SearchPreds(s.(languages := Some([]))) == SearchPreds(s.(languages := None))
    ensures ExplorerPreds(e.(caseTypes := Some([]))) == ExplorerPreds(e.(caseTypes := None))
    ensures ExplorerPreds(e.(languages := Some([]))) == ExplorerPreds(e.(languages := None))
    ensures SearchPreds(s.(textSearch := Some(""))) == SearchPreds(s.(textSearch := None))
  {
  }

  /** A given list filter keeps exactly the rows whose column is one of the listed texts. */
  lemma InFilterMeaning(col: string, xs: seq<string>, row: Row)
    ensures Holds(row, Cmp(InOp, col, StrList(xs))) <==> Col(row, col).VStr? && Col(row, col).s in xs
  {
    var items := StrList(xs).items;
    if Col(row, col).VStr? && Col(row, col).s in xs {
      var k :| 0 <= k < |xs| && xs[k] == Col(row, col).s;
      assert items[k] in items;
      StrLtIrreflexive(xs[k]);
    }
  }

  // ---------------------------------------------------------------------
  // The escaper

  lemma {:induction false} ReplaceEachAppend(a: string, b: string, specials: seq<char>)
    ensures ReplaceEach(a + b, specials) == ReplaceEach(a, specials) + ReplaceEach(b, specials)
    decreases |specials|
  {
    if |specials| > 0 {
      var x := specials[0];
      ReplaceCharAppend(a, b, x, ['\\', x]);
      ReplaceEachAppend(ReplaceChar(a, x, ['\\', x]), ReplaceChar(b, x, ['\\', x]), specials[1..]);
    }
  }

  lemma EscapeAppend(a: string, b: string)
    ensures ReplaceEach(a + b, Specials) == ReplaceEach(a, Specials) + ReplaceEach(b, Specials)
  {
    ReplaceEachAppend(a, b, Specials);
  }

  lemma ReplaceCharSingle(c: char, from: char, to: string)
    ensures ReplaceChar([c], from, to) == if c == from then to else [c]
  {
    assert [c][..0] == [];
  }

  /** Replacements of characters that do not occur change nothing. */
  lemma {:induction false} ReplaceEachAbsent(s: string, specials: seq<char>)
    requires forall i :: 0 <= i < |specials| ==> specials[i] !in s
    ensures ReplaceEach(s, specials) == s
    decreases |specials|
  {
    if |specials| > 0 {
      ReplaceEachAbsent(s, specials[1..]);
    }
  }

  /**
   * With distinct specials and no backslash after the first, one character
   * comes out escaped exactly once: the backslash a step inserts is never
   * met by a later step.
   */
  lemma {:induction false} ReplaceEachOne(c: char, specials: seq<char>)
    requires NoDup(specials)
    requires forall i :: 1 <= i < |specials| ==> specials[i] != '\\'
    ensures ReplaceEach([c], specials) == if c in specials then ['\\', c] else [c]
    decreases |specials|
  {
    if |specials| > 0 {
      var x := specials[0];
      var rest := specials[1..];
      ReplaceCharSingle(c, x, ['\\', x]);
      assert forall i :: 0 <= i < |rest| ==> rest[i] == specials[i + 1];
      if c == x {
        forall i | 0 <= i < |rest| ensures rest[i] !in ['\\', c] {
          assert specials[i + 1] != specials[0];
        }
        ReplaceEachAbsent(['\\', c], rest);
      } else {
        ReplaceEachOne(c, rest);
        assert c in specials <==> c in rest;
      }
    }
  }

  /** The escaper applied to one character. */
  lemma EscapeOne(c: char)
    ensures ReplaceEach([c], Specials) == EscChar(c)
  {
    ReplaceEachOne(c, Specials);
  }

  /**
   * The replacement chain prefixes every special character with exactly one
   * backslash and leaves the others alone: because backslash is replaced
   * first, the backslashes the later steps insert are never doubled.
   */
  lemma {:induction false} EscapeIsPerCharacter(s: string)
    ensures ReplaceEach(s, Specials) == EscapeSpec(s)
  {
    if |s| > 0 {
      assert s == [s[0]] + s[1..];
      EscapeAppend([s[0]], s[1..]);
      EscapeOne(s[0]);
      EscapeIsPerCharacter(s[1..]);
    }
  }

  /** Replacing backslash last would double the backslash inserted before `%`. */
  lemma BackslashLastWouldDouble()
    ensures ReplaceChar(ReplaceChar("%", '%', "\\%"), '\\', "\\\\") == "\\\\%"
    ensures EscapeSpec("%") == "\\%"
  {
    ReplaceCharSingle('%', '%', "\\%");
    var t := "\\%";
    assert t == ['\\'] + ['%'];
    ReplaceCharAppend(['\\'], ['%'], '\\', "\\\\");
    ReplaceCharSingle('\\', '\\', "\\\\");
    ReplaceCharSingle('%', '\\', "\\\\");
    EscapePercent();
  }

  /** The escaper gives `%` one backslash. */
  lemma EscapePercent()
    ensures EscapeSpec("%") == "\\%"
  {
    assert EscapeSpec("%") == EscChar('%') + EscapeSpec("");
  }

  /** Dropping each escaping backslash recovers the input. */
  lemma {:induction false} UnescapeEscape(s: string)
    ensures Unescape(EscapeSpec(s)) == s
  {
    if |s| > 0 {
      UnescapeEscape(s[1..]);
      var e := EscapeSpec(s);
      var rest := EscapeSpec(s[1..]);
      if s[0] in Specials {
        assert e == ['\\', s[0]] + rest;
        assert e[2..] == rest;
      } else {
        assert e == [s[0]] + rest;
        assert e[1..] == rest;
      }
      assert s == [s[0]] + s[1..];
    }
  }

  /**
   * Under SQL `ILIKE` with backslash escapes, the escaped text followed by
   * `%` matches exactly the texts it is a prefix of, ignoring case.
   */
  lemma {:induction false} EscapedPrefixMatch(s: string, t: string)
    ensures Match(EscapeSpec(s) + "%", t, LowerChar) <==> IPrefix(s, t)
  {
    if |s| == 0 {
      assert EscapeSpec(s) + "%" == "%";
      MatchPercentAll(t, LowerChar);
      assert Lower(t[..0]) == Lower(s);
    } else {
      var c := s[0];
      var rest := EscapeSpec(s[1..]) + "%";
      var p := EscapeSpec(s) + "%";
      assert p == EscChar(c) + rest;
      if |t| == 0 {
        assert !IPrefix(s, t);
      } else {
        EscapedPrefixMatch(s[1..], t[1..]);
        if c in Specials {
          assert p[0] == '\\' && |p| >= 2 && p[1] == c && p[2..] == rest;
          assert Match(p, t, LowerChar) <==> LowerChar(c) == LowerChar(t[0]) && Match(rest, t[1..], LowerChar);
        } else {
          assert p[0] == c && p[1..] == rest;
          assert Match(p, t, LowerChar) <==> LowerChar(c) == LowerChar(t[0]) && Match(rest, t[1..], LowerChar);
        }
        IPrefixCons(s, t);
      }
    }
  }

  lemma IPrefixCons(s: string, t: string)
    requires |s| > 0 && |t| > 0
    ensures IPrefix(s, t) <==> LowerChar(s[0]) == LowerChar(t[0]) && IPrefix(s[1..], t[1..])
  {
    if |s| <= |t| {
      var a := Lower(t[..|s|]);
      var b := Lower(s);
      var a' := Lower(t[1..][..|s| - 1]);
      var b' := Lower(s[1..]);
      assert |a| == |b| == |s|;
      assert forall i :: 0 <= i < |s| - 1 ==> a'[i] == a[i + 1] && b'[i] == b[i + 1];
      if a == b {
        assert a' == b';
      }
      if LowerChar(s[0]) == LowerChar(t[0]) && a' == b' {
        assert forall i :: 0 <= i < |s| ==> a[i] == b[i] by {
          forall i | 0 <= i < |s| ensures a[i] == b[i] {
            if i > 0 {
              assert a'[i - 1] == b'[i - 1];
            }
          }
        }
      }
    }
  }

  /** The escaper puts no `*` into a text that has none. */
  lemma {:induction false} EscapeNoStar(s: string)
    requires '*' !in s
    ensures '*' !in EscapeSpec(s)
  {
    if |s| > 0 {
      assert forall i :: 0 <= i < |s[1..]| ==> s[1..][i] == s[i + 1];
      EscapeNoStar(s[1..]);
      assert '*' !in EscChar(s[0]);
    }
  }

  /**
   * For a search text without `*`, the pattern `%safe%` matches a text iff
   * the search text occurs in it, ignoring case.
   */
  lemma SearchPatternMeaning(text: string, t: string)
    requires '*' !in text
    ensures Ilike(SearchPattern(text), t) <==> IContains(text, t)
  {
    EscapeIsPerCharacter(text);
    EscapeNoStar(text);
    var q := EscapeSpec(text) + "%";
    assert SearchPattern(text) == "%" + q;
    WildcardsNoStar(SearchPattern(text));
    MatchLeadingPercent(q, t, LowerChar);
    forall i | 0 <= i <= |t| ensures Match(q, t[i..], LowerChar) <==> IPrefix(text, t[i..]) {
      EscapedPrefixMatch(text, t[i..]);
    }
  }

  /** The characters that end an unquoted value in PostgREST's or-text. */
  const OrDelimiters: set<char> := {',', ')'}

  /** A search text the or-text carries as one plain value. */
  predicate OrSafe(text: string) {
    forall c :: c in text ==> c !in OrDelimiters
  }

  /**
   * The text search keeps a row iff the text occurs, ignoring case, in its
   * summary, quote or topic: for a search text without `*`, and without the
   * `,` and `)` that end a value in the or-text.
   */
  lemma SearchPredMeaning(text: string, row: Row)
    requires '*' !in text && OrSafe(text)
    ensures Holds(row, SearchPred(text)) <==>
      exists c :: c in SearchedColumns && Col(row, c).VStr? && IContains(text, Col(row, c).s)
  {
    forall c | c in SearchedColumns && Col(row, c).VStr?
      ensures Ilike(SearchPattern(text), Col(row, c).s) <==> IContains(text, Col(row, c).s)
    {
      SearchPatternMeaning(text, Col(row, c).s);
    }
  }

  /** A character the escaper and `LIKE` both leave alone, `*` excepted. */
  predicate Plain(c: char) {
    c !in Specials && c != '*'
  }

  /** The search pattern of a text without special characters is the text between two `%`. */
  lemma PlainSearchPattern(text: string)
    requires forall i :: 0 <= i < |text| ==> text[i] !in Specials
    ensures SearchPattern(text) == "%" + text + "%"
  {
    NoSpecialsEscape(text);
  }

  /** A pattern opening with plain characters matches a text opening with the same ones iff the rests match. */
  lemma {:induction false} MatchLiteralPrefix(u: string, rest: string, t: string, fold: char -> char)
    requires forall i :: 0 <= i < |u| ==> Plain(u[i])
    ensures Match(u + rest, u + t, fold) <==> Match(rest, t, fold)
  {
    if |u| == 0 {
      assert u + rest == rest && u + t == t;
    } else {
      assert (u + rest)[0] == u[0] && (u + rest)[1..] == u[1..] + rest;
      assert (u + t)[0] == u[0] && (u + t)[1..] == u[1..] + t;
      MatchLiteralPrefix(u[1..], rest, t, fold);
    }
  }

  /**
   * PostgREST reads the `*` the escaper leaves as a wildcard: a search for
   * `u*v` keeps every text `u`, anything, `v`.
   */
  lemma StarIsWildcard(u: string, v: string, x: string)
    requires forall i :: 0 <= i < |u| ==> Plain(u[i])
    requires forall i :: 0 <= i < |v| ==> Plain(v[i])
    ensures Ilike(SearchPattern(u + "*" + v), u + x + v)
  {
    StarPatternShape(u, v);
    StarPatternMatches(u, v, x);
  }

  /** The value PostgREST passes on for a search for `u*v`: `%u%v%`. */
  lemma StarPatternShape(u: string, v: string)
    requires forall i :: 0 <= i < |u| ==> Plain(u[i])
    requires forall i :: 0 <= i < |v| ==> Plain(v[i])
    ensures Wildcards(SearchPattern(u + "*" + v)) == "%" + (u + ("%" + v + "%"))
  {
    StarSearchPattern(u, v);
    WildcardsStarShape(u, v);
    assert "%" + v + "%" == "%" + (v + "%");
  }

  lemma StarSearchPattern(u: string, v: string)
    requires forall i :: 0 <= i < |u| ==> Plain(u[i])
    requires forall i :: 0 <= i < |v| ==> Plain(v[i])
    ensures SearchPattern(u + "*" + v) == "%" + (u + ("*" + (v + "%")))
  {
    PlainStarText(u, v);
    PlainSearchPattern(u + "*" + v);
    Regroup("%", u, "*", v, "%");
  }

  /** `Wildcards` turns the one `*` between two plain texts into `%`. */
  lemma WildcardsStarShape(u: string, v: string)
    requires forall i :: 0 <= i < |u| ==> Plain(u[i])
    requires forall i :: 0 <= i < |v| ==> Plain(v[i])
    ensures Wildcards("%" + (u + ("*" + (v + "%")))) == "%" + (u + ("%" + (v + "%")))
  {
    var p := "%" + (u + ("*" + (v + "%")));
    var w := "%" + (u + ("%" + (v + "%")));
    assert |Wildcards(p)| == |w|;
    forall i | 0 <= i < |w| ensures Wildcards(p)[i] == w[i] {
      if i == 0 || i == |u| + 1 || i == |w| - 1 {
      } else if i <= |u| {
        assert (u + ("*" + (v + "%")))[i - 1] == u[i - 1];
        assert (u + ("%" + (v + "%")))[i - 1] == u[i - 1];
        assert Plain(u[i - 1]);
      } else {
        var k := i - |u| - 2;
        assert (v + "%")[k] == v[k];
        assert ("*" + (v + "%"))[k + 1] == v[k];
        assert ("%" + (v + "%"))[k + 1] == v[k];
        assert Plain(v[k]);
      }
    }
  }

  lemma PlainStarText(u: string, v: string)
    requires forall i :: 0 <= i < |u| ==> Plain(u[i])
    requires forall i :: 0 <= i < |v| ==> Plain(v[i])
    ensures forall i :: 0 <= i < |u + "*" + v| ==> (u + "*" + v)[i] !in Specials
  {
    assert '*' !in Specials;
  }

  lemma Regroup<T>(a: seq<T>, b: seq<T>, c: seq<T>, d: seq<T>, e: seq<T>)
    ensures a + (b + c + d) + e == a + (b + (c + (d + e)))
  {
  }

  /** `%u%v%` matches `u`, anything, `v`. */
  lemma StarPatternMatches(u: string, v: string, x: string)
    requires forall i :: 0 <= i < |u| ==> Plain(u[i])
    requires forall i :: 0 <= i < |v| ==> Plain(v[i])
    ensures Match("%" + (u + ("%" + v + "%")), u + x + v, LowerChar)
  {
    var q := "%" + v + "%";
    var t := u + (x + v);
    assert u + x + v == t;
    MatchPercentAll("", LowerChar);
    MatchLiteralPrefix(v, "%", "", LowerChar);
    assert v + "" == v;
    assert Match(v + "%", (x + v)[|x|..], LowerChar) by { assert (x + v)[|x|..] == v; }
    MatchLeadingPercent(v + "%", x + v, LowerChar);
    assert "%" + (v + "%") == q;
    MatchLiteralPrefix(u, q, x + v, LowerChar);
    assert Match(u + q, t[0..], LowerChar) by { assert t[0..] == t; }
    MatchLeadingPercent(u + q, t, LowerChar);
  }

  /** A text holding `*` occurs in no text without `*`, so the wildcard reading keeps more than the literal one. */
  lemma StarNotContained(text: string, t: string)
    requires '*' in text && '*' !in t
    ensures !IContains(text, t)
  {
    var k :| 0 <= k < |text| && text[k] == '*';
    forall i | 0 <= i <= |t| ensures !IPrefix(text, t[i..]) {
      if |text| <= |t[i..]| {
        assert Lower(t[i..][..|text|])[k] == LowerChar(t[i + k]) != '*';
        assert Lower(text)[k] == '*';
      }
    }
  }

  /** A text without special characters is left as it is by the escaper. */
  lemma {:induction false} NoSpecialsEscape(s: string)
    requires forall i :: 0 <= i < |s| ==> s[i] !in Specials
    ensures EscapeSpec(s) == s
  {
    if |s| > 0 {
      assert forall i :: 0 <= i < |s[1..]| ==> s[1..][i] == s[i + 1];
      NoSpecialsEscape(s[1..]);
      assert s == [s[0]] + s[1..];
    }
  }

  /** A search for `*` alone keeps every text. */
  lemma LoneStarMatchesAll(t: string)
    ensures Ilike(SearchPattern("*"), t)
  {
    StarPatternShape("", "");
    assert "" + "*" + "" == "*";
    StarPatternMatches("", "", t);
    assert "" + t + "" == t;
  }

  lemma Join3(a: string, b: string, c: string, sep: string)
    ensures Join([a, b, c], sep) == a + sep + b + sep + c
  {
    var xs := [a, b, c];
    assert xs[1..] == [b, c];
    assert [b, c][1..] == [c];
    assert Join([b, c], sep) == b + sep + c;
    assert Join(xs, sep) == a + sep + (b + sep + c);
  }

  /** The text `.or_` receives: one `col.ilike.%safe%` term per searched column. */
  lemma SearchFilterText(text: string)
    ensures OrFilterText(SearchedColumns, SearchPattern(text)) ==
      "summary.ilike." + SearchPattern(text) + "," +
      "key_quote.ilike." + SearchPattern(text) + "," +
      "primary_topic.ilike." + SearchPattern(text)
  {
    SearchedText(SearchPattern(text));
  }

  lemma SearchedText(p: string)
    ensures OrFilterText(SearchedColumns, p) ==
      "summary.ilike." + p + "," + "key_quote.ilike." + p + "," + "primary_topic.ilike." + p
  {
    assert "summary" + ".ilike." == "summary.ilike." && "key_quote" + ".ilike." == "key_quote.ilike.";
    assert "primary_topic" + ".ilike." == "primary_topic.ilike.";
    ThreeColumnsText("summary", "key_quote", "primary_topic", p);
  }

  /** The `.or_` text over three columns. */
  lemma ThreeColumnsText(c0: string, c1: string, c2: string, p: string)
    ensures OrFilterText([c0, c1, c2], p) == c0 + ".ilike." + p + "," + (c1 + ".ilike.") + p + "," + (c2 + ".ilike.") + p
  {
    var ts := Terms([c0, c1, c2], p);
    assert ts == [c0 + ".ilike." + p, c1 + ".ilike." + p, c2 + ".ilike." + p];
    JoinThreeTerms(c0 + ".ilike.", c1 + ".ilike.", c2 + ".ilike.", p);
  }

  lemma JoinThreeTerms(a: string, b: string, c: string, p: string)
    ensures Join([a + p, b + p, c + p], ",") == a + p + "," + b + p + "," + c + p
  {
    Join3(a + p, b + p, c + p, ",");
    assert a + p + "," + (b + p) == a + p + "," + b + p;
    assert a + p + "," + b + p + "," + (c + p) == a + p + "," + b + p + "," + c + p;
  }

  // ---------------------------------------------------------------------
  // Metric cards

  /** `sorted(scores)[len(scores) // 2] if scores else 0`. */
  function Median(scores: seq<int>): (r: int)
    ensures |scores| == 0 ==> r == 0
    ensures |scores| > 0 ==> r in multiset(scores)
  {
    if |scores| == 0 then 0
    else
      var t := SortAsc(scores);
      assert t[|scores| / 2] in multiset(t);
      t[|scores| / 2]
  }

  /** How many scores are below `m` (or, when not `strict`, at most `m`). */
  function Rank(s: seq<int>, m: int, strict: bool): nat {
    if |s| == 0 then 0
    else Rank(s[..|s| - 1], m, strict) + (if (if strict then s[|s| - 1] < m else s[|s| - 1] <= m) then 1 else 0)
  }

  lemma {:induction false} RankAppend(a: seq<int>, b: seq<int>, m: int, strict: bool)
    ensures Rank(a + b, m, strict) == Rank(a, m, strict) + Rank(b, m, strict)
    decreases |b|
  {
    if |b| == 0 {
      assert a + b == a;
    } else {
      assert (a + b)[..|a + b| - 1] == a + b[..|b| - 1];
      RankAppend(a, b[..|b| - 1], m, strict);
    }
  }

  lemma RankSingle(x: int, m: int, strict: bool)
    ensures Rank([x], m, strict) == if (if strict then x < m else x <= m) then 1 else 0
  {
    assert [x][..0] == [];
  }

  /** Taking one score out of the list takes its contribution out of the rank. */
  lemma RankRemove(b: seq<int>, i: nat, m: int, strict: bool)
    requires i < |b|
    ensures Rank(b, m, strict) == Rank(b[..i] + b[i + 1..], m, strict) + Rank([b[i]], m, strict)
  {
    assert b == (b[..i] + [b[i]]) + b[i + 1..];
    RankAppend(b[..i] + [b[i]], b[i + 1..], m, strict);
    RankAppend(b[..i], [b[i]], m, strict);
    RankAppend(b[..i], b[i + 1..], m, strict);
  }

  lemma MultisetRemove(b: seq<int>, i: nat)
    requires i < |b|
    ensures multiset(b[..i] + b[i + 1..]) == multiset(b) - multiset{b[i]}
  {
    assert b == b[..i] + [b[i]] + b[i + 1..];
  }

  /** A rank depends only on the scores, not on their order. */
  lemma {:induction false} RankPermutation(a: seq<int>, b: seq<int>, m: int, strict: bool)
    requires multiset(a) == multiset(b)
    ensures Rank(a, m, strict) == Rank(b, m, strict)
    decreases |a|
  {
    if |a| == 0 {
      assert |b| == |multiset(b)| == 0;
    } else {
      var x := a[|a| - 1];
      var a' := a[..|a| - 1];
      assert a == a' + [x];
      assert multiset(a') == multiset(a) - multiset{x};
      assert x in multiset(b);
      var i :| 0 <= i < |b| && b[i] == x;
      MultisetRemove(b, i);
      RankPermutation(a', b[..i] + b[i + 1..], m, strict);
      RankRemove(b, i, m, strict);
      RankAppend(a', [x], m, strict);
    }
  }

  lemma {:induction false} RankBounds(s: seq<int>, m: int, strict: bool)
    ensures Rank(s, m, strict) <= |s|
    ensures strict && (forall i :: 0 <= i < |s| ==> s[i] >= m) ==> Rank(s, m, strict) == 0
    ensures !strict && (forall i :: 0 <= i < |s| ==> s[i] <= m) ==> Rank(s, m, strict) == |s|
  {
    if |s| > 0 {
      RankBounds(s[..|s| - 1], m, strict);
    }
  }

  /** In an ascending list at most `k` elements are below its `k`-th. */
  lemma SortedRankBelow(t: seq<int>, k: nat)
    requires SortedAsc(t) && k < |t|
    ensures Rank(t, t[k], true) <= k
  {
    var m := t[k];
    var lo, hi := t[..k], t[k..];
    assert t == lo + hi;
    forall i | 0 <= i < |hi| ensures hi[i] >= m {
      assert hi[i] == t[k + i];
    }
    RankAppend(lo, hi, m, true);
    RankBounds(lo, m, true);
    RankBounds(hi, m, true);
    assert Rank(hi, m, true) == 0;
  }

  /** In an ascending list more than `k` elements are at most its `k`-th. */
  lemma SortedRankAtMost(t: seq<int>, k: nat)
    requires SortedAsc(t) && k < |t|
    ensures Rank(t, t[k], false) > k
  {
    var m := t[k];
    var lo, hi := t[..k + 1], t[k + 1..];
    TakeDrop(t, k + 1);
    RankAppend(lo, hi, m, false);
    RankBounds(lo, m, false);
  }

  /**
   * The median is one of the scores, at most half of the scores lie below it
   * and more than half are at most it: for an even count it is the upper of
   * the two middle scores.
   */
  lemma MedianIsMiddle(scores: seq<int>)
    requires |scores| > 0
    ensures Median(scores) in scores
    ensures Rank(scores, Median(scores), true) <= |scores| / 2
    ensures Rank(scores, Median(scores), false) > |scores| / 2
  {
    var t := SortAsc(scores);
    var k := |scores| / 2;
    assert t[k] in multiset(t);
    SortedRankBelow(t, k);
    SortedRankAtMost(t, k);
    RankPermutation(scores, t, t[k], true);
    RankPermutation(scores, t, t[k], false);
  }

  /** An empty score list gives 0. */
  lemma MedianOfNothing()
    ensures Median([]) == 0
  {
  }

  /** `count or 0`. */
  function OrZero(count: Option<int>): (r: int)
    ensures count.None? ==> r == 0
    ensures count.Some? ==> r == count.value
  {
    match count
    case None => 0
    case Some(n) => if n == 0 then 0 else n
  }

  const Day := 86400

  /** The four requests of a metric window: quotes, testimonials, content-worthy calls, quality scores. */
  datatype MetricQueries = MetricQueries(quotes: Query, testimonials: Query, content: Query, quality: Query)

  function Counted(preds: seq<Pred>): Query {
    Query(AnalysisResults, "source_transcript_id", true, preds, [], Unbounded)
  }

  /** `get_weekly_metric_counts`: everything analysed at or after `cutoff`. */
  function CurrentPeriod(cutoff: string): (r: MetricQueries)
    ensures forall q :: q in [r.quotes, r.testimonials, r.content, r.quality] ==>
      q.table == AnalysisResults && q.window == Unbounded && Cmp(GteOp, "analyzed_at", VStr(cutoff)) in q.preds
    ensures r.quotes.countExact && r.testimonials.countExact && r.content.countExact
    ensures r.quality.select == "quality_score" && !r.quality.countExact
  {
    var since := Cmp(GteOp, "analyzed_at", VStr(cutoff));
    MetricQueries(
      Counted([Cmp(NotIsOp, "key_quote", VStr("null")), Cmp(NeqOp, "key_quote", VStr("")), since]),
      Counted([Cmp(EqOp, "testimonial_candidate", VBool(true)), since]),
      Counted([Cmp(EqOp, "content_generation_flag", VBool(true)), since]),
      Query(AnalysisResults, "quality_score", false, [Cmp(NotIsOp, "quality_score", VStr("null")), since], [], Unbounded))
  }

  /** `get_prior_period_metrics`: analysed in `[cutoffPrior, cutoffCurrent)`. */
  function PriorPeriod(cutoffPrior: string, cutoffCurrent: string): (r: MetricQueries)
    ensures forall q :: q in [r.quotes, r.testimonials, r.content, r.quality] ==>
      q.table == AnalysisResults && q.window == Unbounded &&
      Cmp(GteOp, "analyzed_at", VStr(cutoffPrior)) in q.preds && Cmp(LtOp, "analyzed_at", VStr(cutoffCurrent)) in q.preds
    ensures r.quotes.countExact && r.testimonials.countExact && r.content.countExact
    ensures r.quality.select == "quality_score" && !r.quality.countExact
  {
    var since := Cmp(GteOp, "analyzed_at", VStr(cutoffPrior));
    var before := Cmp(LtOp, "analyzed_at", VStr(cutoffCurrent));
    MetricQueries(
      Counted([Cmp(NotIsOp, "key_quote", VStr("null")), since, before]),
      Counted([Cmp(EqOp, "testimonial_candidate", VBool(true)), since, before]),
      Counted([Cmp(EqOp, "content_generation_flag", VBool(true)), since, before]),
      Query(AnalysisResults, "quality_score", false,
        [Cmp(NotIsOp, "quality_score", VStr("null")), since, before], [], Unbounded))
  }

  /** The two cutoffs, from the clock reading `now` (seconds) and the ISO rendering `iso`. */
  function Cutoffs(now: int, days: int, iso: int -> string): (string, string) {
    (iso(now - 2 * days * Day), iso(now - days * Day))
  }

  /** An ISO rendering orders as the times it renders. */
  ghost predicate OrderPreserving(iso: int -> string) {
    forall a, b :: a < b <==> StrLt(iso(a), iso(b))
  }

  /** A row stamped at time `t` lies in the prior window iff `now - 2·days ≤ t < now - days`. */
  lemma PriorWindowIsHalfOpen(now: int, days: int, iso: int -> string, t: int, row: Row)
    requires OrderPreserving(iso)
    requires Col(row, "analyzed_at") == VStr(iso(t))
    ensures var (prior, current) := Cutoffs(now, days, iso);
      Holds(row, Cmp(GteOp, "analyzed_at", VStr(prior))) && Holds(row, Cmp(LtOp, "analyzed_at", VStr(current)))
      <==> now - 2 * days * Day <= t < now - days * Day
  {
    var (prior, current) := Cutoffs(now, days, iso);
    var a, b := now - 2 * days * Day, now - days * Day;
    assert t < a <==> StrLt(iso(t), iso(a));
    assert t < b <==> StrLt(iso(t), iso(b));
    assert a < t <==> StrLt(iso(a), iso(t));
    if iso(t) == iso(a) {
      StrLtIrreflexive(iso(t));
    }
    if iso(t) == iso(b) {
      StrLtIrreflexive(iso(t));
    }
  }

  /** The prior quote count drops only NULL quotes; the current count also drops empty ones. */
  lemma QuoteCountsDiffer(cutoffPrior: string, cutoffCurrent: string, row: Row)
    ensures Holds(row, PriorPeriod(cutoffPrior, cutoffCurrent).quotes.preds[0]) <==> Col(row, "key_quote") != VNone
    ensures Matches(row, CurrentPeriod(cutoffCurrent).quotes.preds) ==>
      Col(row, "key_quote").VStr? && Col(row, "key_quote").s != ""
    ensures Col(row, "key_quote") == VStr("") ==>
      !Matches(row, CurrentPeriod(cutoffCurrent).quotes.preds) &&
      (Matches(row, PriorPeriod(cutoffPrior, cutoffCurrent).quotes.preds) <==>
        Holds(row, Cmp(GteOp, "analyzed_at", VStr(cutoffPrior))) && Holds(row, Cmp(LtOp, "analyzed_at", VStr(cutoffCurrent))))
  {
    CurrentQuotePreds(cutoffCurrent);
    PriorQuotePreds(cutoffPrior, cutoffCurrent);
    QuoteCountFilters(cutoffPrior, cutoffCurrent, row);
  }

  /** What the two quote counts' filters say of one row. */
  lemma QuoteCountFilters(cutoffPrior: string, cutoffCurrent: string, row: Row)
    ensures var cur := [Cmp(NotIsOp, "key_quote", VStr("null")), Cmp(NeqOp, "key_quote", VStr("")),
                        Cmp(GteOp, "analyzed_at", VStr(cutoffCurrent))];
      var since, before := Cmp(GteOp, "analyzed_at", VStr(cutoffPrior)), Cmp(LtOp, "analyzed_at", VStr(cutoffCurrent));
      var pri := [Cmp(NotIsOp, "key_quote", VStr("null")), since, before];
      (Holds(row, pri[0]) <==> Col(row, "key_quote") != VNone) &&
      (Matches(row, cur) ==> Col(row, "key_quote").VStr? && Col(row, "key_quote").s != "") &&
      (Col(row, "key_quote") == VStr("") ==>
        !Matches(row, cur) && (Matches(row, pri) <==> Holds(row, since) && Holds(row, before)))
  {
    var kq := Col(row, "key_quote");
    var cur := [Cmp(NotIsOp, "key_quote", VStr("null")), Cmp(NeqOp, "key_quote", VStr("")),
                Cmp(GteOp, "analyzed_at", VStr(cutoffCurrent))];
    var pri := [Cmp(NotIsOp, "key_quote", VStr("null")), Cmp(GteOp, "analyzed_at", VStr(cutoffPrior)),
                Cmp(LtOp, "analyzed_at", VStr(cutoffCurrent))];
    assert Holds(row, cur[1]) <==> kq.VStr? && kq.s != "";
    MatchesThree(row, cur);
    MatchesThree(row, pri);
  }

  /** The three filters of the current period's quote count. */
  lemma CurrentQuotePreds(cutoff: string)
    ensures CurrentPeriod(cutoff).quotes.preds ==
      [Cmp(NotIsOp, "key_quote", VStr("null")), Cmp(NeqOp, "key_quote", VStr("")), Cmp(GteOp, "analyzed_at", VStr(cutoff))]
  {
  }

  /** The three filters of the prior period's quote count. */
  lemma PriorQuotePreds(cutoffPrior: string, cutoffCurrent: string)
    ensures PriorPeriod(cutoffPrior, cutoffCurrent).quotes.preds ==
      [Cmp(NotIsOp, "key_quote", VStr("null")), Cmp(GteOp, "analyzed_at", VStr(cutoffPrior)),
       Cmp(LtOp, "analyzed_at", VStr(cutoffCurrent))]
  {
  }

  /** A row matches three filters when it satisfies each of them. */
  lemma MatchesThree(row: Row, preds: seq<Pred>)
    requires |preds| == 3
    ensures Matches(row, preds) <==> Holds(row, preds[0]) && Holds(row, preds[1]) && Holds(row, preds[2])
  {
    assert preds == [preds[0], preds[1], preds[2]];
  }

  // ---------------------------------------------------------------------
  // Languages, testimonial pipeline

  /** The cleaned value of one raw language. */
  function CleanOf(v: string): string {
    Constants.CleanLanguage(Some(v))
  }

  /**
   * The list `get_languages` builds from the raw values: each non-empty
   * cleaned value the first time it appears, in order.
   */
  function Languages(raw: seq<string>, clean: string -> string): (r: seq<string>)
    ensures NoDup(r)
    ensures "" !in r
    ensures forall x :: x in r <==> x != "" && exists i :: 0 <= i < |raw| && clean(raw[i]) == x
  {
    if |raw| == 0 then []
    else
      var init := Languages(raw[..|raw| - 1], clean);
      var c := clean(raw[|raw| - 1]);
      assert forall i :: 0 <= i < |raw| - 1 ==> raw[..|raw| - 1][i] == raw[i];
      if c != "" && c !in init then init + [c] else init
  }

  /** `get_languages`. */
  method GetLanguages(raw: seq<string>) returns (cleaned: seq<string>)
    ensures cleaned == Languages(raw, CleanOf)
  {
    var seen: set<string> := {};
    cleaned := [];
    var i := 0;
    while i < |raw|
      invariant 0 <= i <= |raw|
      invariant cleaned == Languages(raw[..i], CleanOf)
      invariant forall x :: x in seen <==> x in cleaned
    {
      assert raw[..i + 1][..i] == raw[..i];
      var c := Constants.CleanLanguage(Some(raw[i]));
      assert c == CleanOf(raw[i]);
      if c != "" && c !in seen {
        seen := seen + {c};
        cleaned := cleaned + [c];
      }
      i := i + 1;
    }
    assert raw[..|raw|] == raw;
  }

  /** The same list, written as the composition of clean, drop empty, and deduplicate. */
  lemma {:induction false} LanguagesIsDedupOfCleaned(raw: seq<string>, clean: string -> string)
    ensures Languages(raw, clean) == Dedup(Filter(Map(raw, clean), NonEmpty))
  {
    if |raw| > 0 {
      var p := raw[..|raw| - 1];
      LanguagesIsDedupOfCleaned(p, clean);
      var m := Map(raw, clean);
      assert m[..|m| - 1] == Map(p, clean);
      var f := Filter(m, NonEmpty);
      var c := clean(raw[|raw| - 1]);
      if c != "" {
        assert f[..|f| - 1] == Filter(Map(p, clean), NonEmpty);
      }
    }
  }

  predicate NonEmpty(c: string) {
    c != ""
  }

  /** `get_testimonial_pipeline`. */
  function PipelineQuery(status: Option<string>, testimonialType: Option<string>): (q: Query)
    ensures q.table == "testimonial_pipeline" && q.select == "*"
    ensures q.orders == [Order("quality_score", true)] && q.window == Unbounded
    ensures q.preds == CmpIfGiven(EqOp, "status", status) + CmpIfGiven(EqOp, "testimonial_type", testimonialType)
  {
    var q := OrderBy(From("testimonial_pipeline", "*", false), "quality_score", true);
    var q := if GivenText(status) then Where(q, Cmp(EqOp, "status", VStr(status.value))) else q;
    var q := if GivenText(testimonialType) then Where(q, Cmp(EqOp, "testimonial_type", VStr(testimonialType.value))) else q;
    q
  }

  /** The payload of `update_testimonial_status`. */
  function StatusData(newStatus: string, now: string, updatedBy: string, notes: Option<string>): (d: seq<(string, Value)>)
    ensures |d| == (if notes.Some? then 4 else 3)
    ensures d[..3] == [("status", VStr(newStatus)), ("status_updated_at", VStr(now)), ("status_updated_by", VStr(updatedBy))]
    ensures notes.Some? ==> d[3] == ("notes", VStr(notes.value))
  {
    [("status", VStr(newStatus)), ("status_updated_at", VStr(now)), ("status_updated_by", VStr(updatedBy))]
    + (if notes.Some? then [("notes", VStr(notes.value))] else [])
  }

  /** `update_testimonial_status`: the update of one pipeline row; `now` is the clock's ISO reading. */
  method UpdateTestimonialStatus(id: string, newStatus: string, updatedBy: string, notes: Option<string>, now: string)
    returns (u: Database.Update)
    ensures u.table == "testimonial_pipeline"
    ensures u.data == StatusData(newStatus, now, updatedBy, notes)
    ensures u.preds == [Cmp(EqOp, "source_transcript_id", VStr(id))]
  {
    var data := [("status", VStr(newStatus)), ("status_updated_at", VStr(now)), ("status_updated_by", VStr(updatedBy))];
    if notes.Some? {
      data := data + [("notes", VStr(notes.value))];
    }
    u := Database.UpdateRow("testimonial_pipeline", data, [("source_transcript_id", VStr(id))]);
  }

  /** The updater name defaults to `"portal"`; empty notes are still written. */
  const DefaultUpdatedBy := "portal"

  lemma EmptyNotesAreWritten(newStatus: string, now: string)
    ensures |StatusData(newStatus, now, DefaultUpdatedBy, Some(""))| == 4
    ensures |StatusData(newStatus, now, DefaultUpdatedBy, None)| == 3
  {
  }
}
