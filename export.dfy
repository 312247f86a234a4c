/**
 * `utils/export.py`: the clipboard text of a quote card. The CSV and Word
 * downloads are file generation by pandas and python-docx and are not
 * modelled.
 */
module Export {
  import opened Wrappers
  import opened Strings

  /** Python truthiness of an optional text argument. */
  predicate Present(s: Option<string>) {
    s.Some? && s.value != ""
  }

  /** `f'"{quote}"'`. */
  function Quoted(quote: string): (r: string)
    ensures |r| == |quote| + 2 && r[0] == '"' && r[|r| - 1] == '"' && r[1..|r| - 1] == quote
  {
    "\"" + quote + "\""
  }

  function CaseTypeItem(caseType: string): string { "Case type: " + caseType }
  function ToneItem(tone: string): string { "Tone: " + tone }
  function QualityItem(quality: int): string { "Quality: " + IntToString(quality) + "/100" }
  function DateItem(date: string): string { "Date: " + date }

  /** 1 for a given argument, 0 for a missing one. */
  function Flag(given: bool): nat { if given then 1 else 0 }

  /**
   * The meta items, in the fixed order case type, tone, quality, date: one
   * item per given argument and nothing else, each at the index given by the
   * number of given arguments before it.
   */
  function MetaItems(caseType: Option<string>, tone: Option<string>, quality: Option<int>, date: Option<string>): (r: seq<string>)
    ensures |r| <= 4
    ensures |r| == Flag(Present(caseType)) + Flag(Present(tone)) + Flag(quality.Some?) + Flag(Present(date))
    ensures Present(tone) ==> r[Flag(Present(caseType))] == ToneItem(tone.value)
    ensures quality.Some? ==> r[Flag(Present(caseType)) + Flag(Present(tone))] == QualityItem(quality.value)
    ensures Present(date) ==>
      r[Flag(Present(caseType)) + Flag(Present(tone)) + Flag(quality.Some?)] == DateItem(date.value)
    ensures r == [] <==> !Present(caseType) && !Present(tone) && quality.None? && !Present(date)
    ensures Present(caseType) ==> r[0] == CaseTypeItem(caseType.value)
    ensures Present(date) ==> r[|r| - 1] == DateItem(date.value)
    ensures quality.Some? ==> QualityItem(quality.value) in r
    ensures Present(tone) ==> ToneItem(tone.value) in r
  {
    (if Present(caseType) then [CaseTypeItem(caseType.value)] else []) +
    (if Present(tone) then [ToneItem(tone.value)] else []) +
    (if quality.Some? then [QualityItem(quality.value)] else []) +
    (if Present(date) then [DateItem(date.value)] else [])
  }

  /** `format_quote_for_clipboard`. */
  function FormatQuoteForClipboard(quote: string, caseType: Option<string>, tone: Option<string>,
                                   quality: Option<int>, date: Option<string>): (r: string)
    ensures |r| >= |quote| + 2 && r[..|quote| + 2] == Quoted(quote)
    ensures MetaItems(caseType, tone, quality, date) == [] ==> r == Quoted(quote)
    ensures MetaItems(caseType, tone, quality, date) != [] ==>
      r[|quote| + 2..] == "\n" + Join(MetaItems(caseType, tone, quality, date), " | ")
  {
    var meta := MetaItems(caseType, tone, quality, date);
    var parts := [Quoted(quote)] + (if |meta| > 0 then [Join(meta, " | ")] else []);
    JoinTwo(Quoted(quote), Join(meta, " | "), "\n");
    Join(parts, "\n")
  }

  lemma JoinTwo(a: string, b: string, sep: string)
    ensures Join([a], sep) == a
    ensures Join([a, b], sep) == a + sep + b
  {
    assert [a, b][1..] == [b];
  }

  /** A quality of 0 is still shown, an empty case type is not. */
  lemma ZeroQualityShown(quote: string)
    ensures FormatQuoteForClipboard(quote, Some(""), None, Some(0), None) == Quoted(quote) + "\nQuality: 0/100"
  {
    ZeroQualityMeta();
    var item := "Quality: 0/100";
    assert Join([item], " | ") == item;
    var r := FormatQuoteForClipboard(quote, Some(""), None, Some(0), None);
    PrefixThenRest(r, Quoted(quote), "\n" + item);
  }

  /** The meta items of an empty case type and a quality of 0: the quality alone. */
  lemma ZeroQualityMeta()
    ensures MetaItems(Some(""), None, Some(0), None) == ["Quality: 0/100"]
  {
    assert IntToString(0) == "0" by {
      assert NatToString(0) == [Digit(0)];
    }
    var meta := MetaItems(Some(""), None, Some(0), None);
    assert !Present(Some("")) && !Present(None);
    assert |meta| == 1 && meta[0] == QualityItem(0);
    assert QualityItem(0) == "Quality: 0/100";
  }

  /** A text is its first part followed by the rest. */
  lemma PrefixThenRest(r: string, head: string, rest: string)
    requires |r| >= |head| && r[..|head|] == head && r[|head|..] == rest
    ensures r == head + rest
  {
    assert r == r[..|head|] + r[|head|..];
  }

  /** The text before the first line break is the quoted quote, when the quote has no line break itself. */
  lemma FirstLineIsQuote(quote: string, caseType: Option<string>, tone: Option<string>,
                         quality: Option<int>, date: Option<string>)
    requires '\n' !in quote
    ensures var r := FormatQuoteForClipboard(quote, caseType, tone, quality, date);
      Split(r, '\n')[0] == Quoted(quote)
  {
    var r := FormatQuoteForClipboard(quote, caseType, tone, quality, date);
    var q := Quoted(quote);
    QuotedNoBreak(quote);
    ClipboardAfterQuote(quote, caseType, tone, quality, date);
    SplitFirst(q, r[|q|..], '\n');
    assert q + r[|q|..] == r;
  }

  lemma QuotedNoBreak(quote: string)
    requires '\n' !in quote
    ensures '\n' !in Quoted(quote)
  {
    var q := Quoted(quote);
    assert forall i :: 1 <= i < |q| - 1 ==> q[i] == quote[i - 1];
  }

  /** After the quoted quote comes nothing or a line break. */
  lemma ClipboardAfterQuote(quote: string, caseType: Option<string>, tone: Option<string>,
                            quality: Option<int>, date: Option<string>)
    ensures var r := FormatQuoteForClipboard(quote, caseType, tone, quality, date);
      var rest := r[|quote| + 2..];
      r == Quoted(quote) + rest && (|rest| == 0 || rest[0] == '\n')
  {
    var r := FormatQuoteForClipboard(quote, caseType, tone, quality, date);
    var rest := r[|quote| + 2..];
    PrefixThenRest(r, Quoted(quote), rest);
    var meta := MetaItems(caseType, tone, quality, date);
    if meta != [] {
      assert rest == "\n" + Join(meta, " | ");
    }
  }
}
