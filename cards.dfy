/**
 * `components/cards.py`: the value logic behind the cards — which values
 * count as real, the badge class of a quality band, the tag line, the
 * truncations, the list filtering of detail fields — and the speaker
 * segmentation of a transcript into chat messages. The HTML itself is not
 * modelled.
 */
module Cards {
  import opened Wrappers
  import opened PyValue
  import opened Strings
  import opened Seqs
  import Constants

  // ---------------------------------------------------------------------
  // Values and badges

  /** The texts `_has_real_value` treats as empty after `.strip().lower()`. */
  const EmptyTexts: set<string> := {"", "none", "null", "n/a"}

  /** `_has_real_value`: not `None`, not an empty-looking text, not an empty list. */
  predicate HasRealValue(v: Value)
    ensures HasRealValue(v) ==> !v.VNone?
    ensures v.VStr? && HasRealValue(v) ==> Strip(v.s) != ""
    ensures v.VList? ==> (HasRealValue(v) <==> Truthy(v))
    ensures v.VInt? || v.VBool? || v.VFloat? || v.VDict? ==> HasRealValue(v)
  {
    match v
    case VNone => false
    case VStr(s) => Lower(Strip(s)) !in EmptyTexts
    case VList(items) => |items| > 0
    case _ => true
  }

  /**
   * A value without a real value is a falsy sentinel, but not the other way
   * round: `"false"` is a sentinel with a real value, and `0`, `False` and
   * `{}` all count as real values.
   */
  lemma RealValueAgainstSentinel(v: Value)
    requires !v.VList? && !v.VDict?
    ensures !HasRealValue(v) ==> Constants.IsFalsySentinel(v) == Ok(true)
    ensures HasRealValue(VStr("false")) && Constants.IsFalsySentinel(VStr("false")) == Ok(true)
    ensures HasRealValue(VInt(0)) && HasRealValue(VBool(false)) && HasRealValue(VDict([]))
    ensures !HasRealValue(VList([])) && HasRealValue(VList([VNone]))
  {
    StripNoSpace("false");
    LowerNoUpper("false");
  }

  /** The badge class of a quality band name. */
  function QualityBadgeClass(bandName: string): (r: string)
    ensures r in Constants.BadgeClasses
    ensures bandName in {"POOR", "NEEDS IMPROVEMENT"} <==> r == "wb-badge-error"
    ensures bandName == "ADEQUATE" <==> r == "wb-badge-warning"
    ensures bandName in {"STRONG", "EXCEPTIONAL"} <==> r == "wb-badge-success"
  {
    if bandName == "POOR" || bandName == "NEEDS IMPROVEMENT" then "wb-badge-error"
    else if bandName == "ADEQUATE" then "wb-badge-warning"
    else if bandName == "STRONG" || bandName == "EXCEPTIONAL" then "wb-badge-success"
    else "wb-badge-info"
  }

  /** The quality pill of an integer score: red below 60, amber to 74, green to 100, info outside. */
  lemma ScoreBadge(n: int, parseFloat: string -> Option<real>)
    ensures var c := QualityBadgeClass(Constants.QualityBand(VInt(n), parseFloat).0);
      && (0 <= n <= 59 ==> c == "wb-badge-error")
      && (60 <= n <= 74 ==> c == "wb-badge-warning")
      && (75 <= n <= 100 ==> c == "wb-badge-success")
      && (n < 0 || n > 100 ==> c == "wb-badge-info")
  {
    if 0 <= n <= 100 {
      ScoreBadgeInRange(n, parseFloat);
    } else {
      Constants.GapsAndOutOfRange(n as real, parseFloat);
      assert Constants.QualityBand(VInt(n), parseFloat) == Constants.QualityBand(VFloat(n as real), parseFloat);
    }
  }

  /** The band name of an integer score from 0 to 100. */
  lemma ScoreBadgeInRange(n: int, parseFloat: string -> Option<real>)
    requires 0 <= n <= 100
    ensures var k := if n <= 29 then 0 else if n <= 59 then 1 else if n <= 74 then 2 else if n <= 89 then 3 else 4;
      Constants.QualityBand(VInt(n), parseFloat).0 == Constants.QualityBands[k].name
  {
    Constants.IntegerScoresCovered(n, parseFloat);
    var i :| && 0 <= i < |Constants.QualityBands|
             && Constants.InBand(n as real, Constants.QualityBands[i])
             && Constants.QualityBand(VInt(n), parseFloat) == (Constants.QualityBands[i].name, Constants.QualityBands[i].color);
    var k := if n <= 29 then 0 else if n <= 59 then 1 else if n <= 74 then 2 else if n <= 89 then 3 else 4;
    assert Constants.InBand(n as real, Constants.QualityBands[k]);
    Constants.BandsDisjoint(n as real);
    assert i == k;
  }

  // ---------------------------------------------------------------------
  // Tags and truncation

  /** The texts of a list whose items are all texts. */
  function ItemTexts(items: seq<Value>): (r: Option<seq<string>>)
    ensures r.Some? <==> forall i :: 0 <= i < |items| ==> items[i].VStr?
    ensures r.Some? ==> |r.value| == |items| && forall i :: 0 <= i < |items| ==> r.value[i] == items[i].s
  {
    if |items| == 0 then Some([])
    else
      var rest := ItemTexts(items[1..]);
      assert forall i :: 1 <= i < |items| ==> items[i] == items[1..][i - 1];
      if items[0].VStr? && rest.Some? then Some([items[0].s] + rest.value) else None
  }

  /** The one-character texts of a text, as iterating over a `str` yields them. */
  function Chars(s: string): (r: seq<string>)
    ensures |r| == |s| && forall i :: 0 <= i < |s| ==> r[i] == [s[i]]
  {
    if |s| == 0 then [] else [[s[0]]] + Chars(s[1..])
  }

  /**
   * The tag line of a card: `suggested_tags or []`, JSON-parsed when it is
   * text (a parse failure gives `[]`), then `", ".join(tags[:5])` when the
   * result is truthy. Joining a list with a non-text item, or slicing a
   * number or an object, raises.
   */
  function TagLine(suggested: Value, parseJson: string -> Option<Value>): (r: Result<string>)
    ensures suggested.VList? && (forall i :: 0 <= i < |suggested.items| ==> suggested.items[i].VStr?) ==>
      r == Ok(Join(ItemTexts(Prefix(suggested.items, 5)).value, ", "))
    ensures !Truthy(suggested) ==> r == Ok("")
    ensures suggested.VStr? && suggested.s != "" && parseJson(suggested.s).None? ==> r == Ok("")
    ensures suggested.VStr? && suggested.s != "" && parseJson(suggested.s).Some? ==>
      var tags := parseJson(suggested.s).value;
      tags.VList? && (forall i :: 0 <= i < |tags.items| ==> tags.items[i].VStr?) ==>
        r == Ok(Join(ItemTexts(Prefix(tags.items, 5)).value, ", "))
  {
    var tags := if Truthy(suggested) then suggested else VList([]);
    var tags := if tags.VStr? then parseJson(tags.s).GetOr(VList([])) else tags;
    if !Truthy(tags) then Ok("")
    else
      match tags
      case VList(items) =>
        var shown := ItemTexts(Prefix(items, 5));
        if shown.Some? then Ok(Join(shown.value, ", ")) else Err(TypeError("sequence item: expected str instance"))
      case VStr(s) => Ok(Join(Chars(Prefix(s, 5)), ", "))
      case VDict(_) => Err(TypeError("unhashable type: 'slice'"))
      case _ => Err(TypeError("object is not subscriptable"))
  }

  /** Of a list of text tags at most the first five are shown, in order. */
  lemma TagLineShowsFirstFive(tags: seq<string>, parseJson: string -> Option<Value>)
    ensures var items := seq(|tags|, i requires 0 <= i < |tags| => VStr(tags[i]));
      TagLine(VList(items), parseJson) == Ok(Join(tags[..if |tags| < 5 then |tags| else 5], ", "))
  {
    var items := seq(|tags|, i requires 0 <= i < |tags| => VStr(tags[i]));
    var k := if |tags| < 5 then |tags| else 5;
    assert Prefix(items, 5) == items[..k];
    assert ItemTexts(items[..k]).value == tags[..k];
  }

  /** `s[:n] + ("..." if len(s) > n else "")`. */
  function Truncate(s: string, n: nat): (r: string)
    ensures |s| <= n ==> r == s
    ensures |s| > n ==> |r| == n + 3 && r[..n] == s[..n] && r[n..] == "..."
  {
    if |s| > n then s[..n] + "..." else s
  }

  /** `sid[:12] if sid else ""`: the id label of a card. */
  function ShortId(sid: string): (r: string)
    ensures |r| == if |sid| < 12 then |sid| else 12
    ensures r == sid[..|r|]
  {
    Prefix(sid, 12)
  }

  // ---------------------------------------------------------------------
  // Detail fields

  /** What `_render_field` draws for a value. */
  datatype FieldView =
    | Dash
    | Bullets(items: seq<Value>)
    | Entries(entries: seq<(string, Value)>)
    | PlainValue(v: Value)

  /** Neither a list nor a dict. */
  predicate Flat(v: Value) {
    !v.VList? && !v.VDict?
  }

  /** No item is a list or a dict. */
  predicate AllFlat(items: seq<Value>) {
    forall i :: 0 <= i < |items| ==> Flat(items[i])
  }

  lemma AllFlatCons(items: seq<Value>)
    requires |items| > 0
    ensures AllFlat(items) <==> Flat(items[0]) && AllFlat(items[1..])
  {
    assert forall i :: 1 <= i < |items| ==> items[i] == items[1..][i - 1];
  }

  /** `not is_falsy_sentinel(v)`, for a value the sentinel test accepts. */
  predicate IsReal(v: Value) {
    Constants.IsFalsySentinel(v) == Ok(false)
  }

  /** An object entry whose value is real. */
  predicate RealEntry(e: (string, Value)) {
    IsReal(e.1)
  }

  /**
   * `[item for item in value if not is_falsy_sentinel(item)]`: every item that
   * is not a falsy sentinel, in order; a nested list or dict raises.
   */
  function KeepReal(items: seq<Value>): (r: Result<seq<Value>>)
    ensures r.Ok? <==> AllFlat(items)
    ensures r.Ok? ==> |r.value| <= |items|
    ensures r.Ok? ==> r.value == Filter(items, IsReal)
  {
    if |items| == 0 then Ok([])
    else
      var head := Constants.IsFalsySentinel(items[0]);
      var rest := KeepReal(items[1..]);
      AllFlatCons(items);
      if head.Err? then Err(head.error)
      else if rest.Err? then Err(rest.error)
      else
        FilterCons(items, IsReal);
        Ok((if head.value then [] else [items[0]]) + rest.value)
  }

  /** A list of nothing but sentinels keeps nothing. */
  lemma KeepRealAllSentinels(items: seq<Value>)
    requires forall i :: 0 <= i < |items| ==> Constants.IsFalsySentinel(items[i]) == Ok(true)
    ensures KeepReal(items) == Ok([])
  {
    FilterNoneKept(items, IsReal);
  }

  /**
   * The entries of an object whose value is not a falsy sentinel, every one of
   * them in key order; a value that is a list or dict raises.
   */
  function KeepRealEntries(entries: seq<(string, Value)>): (r: Result<seq<(string, Value)>>)
    ensures r.Ok? <==> forall i :: 0 <= i < |entries| ==> Flat(entries[i].1)
    ensures r.Ok? ==> forall e :: e in r.value ==> e in entries && Constants.IsFalsySentinel(e.1) == Ok(false)
    ensures r.Ok? ==> r.value == Filter(entries, RealEntry)
  {
    if |entries| == 0 then Ok([])
    else
      var head := Constants.IsFalsySentinel(entries[0].1);
      var rest := KeepRealEntries(entries[1..]);
      assert forall i :: 1 <= i < |entries| ==> entries[i] == entries[1..][i - 1];
      if head.Err? then Err(head.error)
      else if rest.Err? then Err(rest.error)
      else
        FilterCons(entries, RealEntry);
        Ok((if head.value then [] else [entries[0]]) + rest.value)
  }

  /** What a JSON field is drawn from: a text parsed as JSON, or as it is when it does not parse. */
  function Decoded(value: Value, parseJson: string -> Option<Value>): Value {
    if value.VStr? && parseJson(value.s).Some? then parseJson(value.s).value else value
  }

  /**
   * `_render_field(label, value, is_json)`: `None` is a dash; a JSON list is
   * the bullet list of its real items, a dash when none is left; an object
   * is the list of its real entries; any other value, and text that does not
   * parse, is shown as it is.
   */
  function RenderField(value: Value, isJson: bool, parseJson: string -> Option<Value>): (r: Result<FieldView>)
    ensures value.VNone? ==> r == Ok(Dash)
    ensures !isJson && !value.VNone? ==> r == Ok(PlainValue(value))
    ensures r.Ok? && r.value.Bullets? ==>
      |r.value.items| > 0 && forall v :: v in r.value.items ==> Constants.IsFalsySentinel(v) == Ok(false)
    ensures isJson && !value.VNone? ==>
      var v := Decoded(value, parseJson);
      (v.VList? ==>
        (r.Ok? <==> AllFlat(v.items)) &&
        (r.Ok? ==> r.value == if Filter(v.items, IsReal) == [] then Dash else Bullets(Filter(v.items, IsReal)))) &&
      (v.VDict? ==>
        (r.Ok? <==> forall i :: 0 <= i < |v.entries| ==> Flat(v.entries[i].1)) &&
        (r.Ok? ==> r.value == Entries(Filter(v.entries, RealEntry)))) &&
      (Flat(v) ==> r == Ok(PlainValue(v)))
    ensures isJson && value.VStr? && parseJson(value.s).None? ==> r == Ok(PlainValue(value))
  {
    if value.VNone? then Ok(Dash)
    else if !isJson then Ok(PlainValue(value))
    else
      var v := Decoded(value, parseJson);
      match v
      case VList(items) =>
        (match KeepReal(items)
         case Err(e) => Err(e)
         case Ok(kept) => if |kept| == 0 then Ok(Dash) else Ok(Bullets(kept)))
      case VDict(entries) =>
        (match KeepRealEntries(entries)
         case Err(e) => Err(e)
         case Ok(kept) => Ok(Entries(kept)))
      case _ => Ok(PlainValue(v))
  }

  /** A JSON list of nothing but sentinels is drawn as a dash. */
  lemma AllSentinelsIsDash(items: seq<Value>, parseJson: string -> Option<Value>)
    requires forall i :: 0 <= i < |items| ==> items[i] == VNone || items[i] == VStr("")
    ensures RenderField(VList(items), true, parseJson) == Ok(Dash)
  {
    forall i | 0 <= i < |items| ensures Constants.IsFalsySentinel(items[i]) == Ok(true) {
      BlankIsSentinel(items[i]);
    }
    KeepRealAllSentinels(items);
    DashWhenNothingKept(items, parseJson);
  }

  lemma BlankIsSentinel(v: Value)
    requires v == VNone || v == VStr("")
    ensures Constants.IsFalsySentinel(v) == Ok(true)
  {
    if v == VStr("") {
      EmptyTextIsSentinel();
    }
  }

  lemma EmptyTextIsSentinel()
    ensures Constants.IsFalsySentinel(VStr("")) == Ok(true)
  {
    assert Strip("") == "" && Lower("") == "";
    assert "" in Constants.SentinelTexts;
  }

  lemma DashWhenNothingKept(items: seq<Value>, parseJson: string -> Option<Value>)
    requires KeepReal(items) == Ok([])
    ensures RenderField(VList(items), true, parseJson) == Ok(Dash)
  {
  }

  // ---------------------------------------------------------------------
  // Transcript segmentation

  datatype Role = Assistant | User

  /** What the transcript view draws, in order: context captions and chat messages. */
  datatype Event = Caption(text: string) | Message(role: Role, text: string)

  /** The first index from `i` on that is not whitespace (`\s*`). */
  function SkipSpaces(s: string, i: nat): (j: nat)
    requires i <= |s|
    ensures i <= j <= |s| && (j < |s| ==> !IsSpace(s[j]))
    decreases |s| - i
  {
    if i < |s| && IsSpace(s[i]) then SkipSpaces(s, i + 1) else i
  }

  /** The first index from `i` on that is not an ASCII digit (`\d*`). */
  function SkipDigits(s: string, i: nat): (j: nat)
    requires i <= |s|
    ensures i <= j <= |s|
    decreases |s| - i
  {
    if i < |s| && '0' <= s[i] <= '9' then SkipDigits(s, i + 1) else i
  }

  predicate IsDigit(c: char) {
    '0' <= c <= '9'
  }

  /**
   * `s` opens with the label `word\s*:` (with `withNumber`, `word\s*\d*\s*:`),
   * ignoring case, ending at `e`: the word, spaces up to `a`, digits up to `b`
   * (none without `withNumber`), spaces, and the colon at `e - 1`.
   */
  predicate LabelShape(s: string, word: string, withNumber: bool, a: nat, b: nat, e: nat) {
    IPrefix(word, s) && |word| <= a <= b < e <= |s| && s[e - 1] == ':' &&
    (forall k :: |word| <= k < a ==> IsSpace(s[k])) &&
    (forall k :: a <= k < b ==> IsDigit(s[k])) &&
    (forall k :: b <= k < e - 1 ==> IsSpace(s[k])) &&
    (!withNumber ==> a == b)
  }

  /** Where a label matching at the start of `s` ends, if one does. */
  function LabelEnd(s: string, word: string, withNumber: bool): (r: Option<nat>)
    ensures r.Some? ==> |word| < r.value <= |s| && s[r.value - 1] == ':' && IPrefix(word, s)
    ensures r.Some? ==> exists a, b :: LabelShape(s, word, withNumber, a, b, r.value)
  {
    if !IPrefix(word, s) then None
    else
      var a := SkipSpaces(s, |word|);
      var b := if withNumber then SkipDigits(s, a) else a;
      var j := if withNumber then SkipSpaces(s, b) else a;
      if j < |s| && s[j] == ':' then
        SkippedRuns(s, word, withNumber, a, b, j);
        Some(j + 1)
      else None
  }

  lemma SkippedRuns(s: string, word: string, withNumber: bool, a: nat, b: nat, j: nat)
    requires IPrefix(word, s) && a == SkipSpaces(s, |word|)
    requires b == (if withNumber then SkipDigits(s, a) else a)
    requires j == (if withNumber then SkipSpaces(s, b) else a)
    requires j < |s| && s[j] == ':'
    ensures LabelShape(s, word, withNumber, a, b, j + 1)
  {
    SpacesSkipped(s, |word|);
    DigitsSkipped(s, a);
    if withNumber {
      SpacesSkipped(s, b);
    }
  }

  lemma {:induction false} SpacesSkipped(s: string, i: nat)
    requires i <= |s|
    ensures forall k :: i <= k < SkipSpaces(s, i) ==> IsSpace(s[k])
    decreases |s| - i
  {
    if i < |s| && IsSpace(s[i]) {
      SpacesSkipped(s, i + 1);
    }
  }

  lemma {:induction false} DigitsSkipped(s: string, i: nat)
    requires i <= |s|
    ensures forall k :: i <= k < SkipDigits(s, i) ==> IsDigit(s[k])
    ensures SkipDigits(s, i) < |s| ==> !IsDigit(s[SkipDigits(s, i)])
    decreases |s| - i
  {
    if i < |s| && IsDigit(s[i]) {
      DigitsSkipped(s, i + 1);
    }
  }

  /** A run of spaces ending on a character that is not one is skipped exactly. */
  lemma {:induction false} SkipSpacesRun(s: string, i: nat, j: nat)
    requires i <= j < |s| && !IsSpace(s[j])
    requires forall k :: i <= k < j ==> IsSpace(s[k])
    ensures SkipSpaces(s, i) == j
    decreases j - i
  {
    if i < j {
      SkipSpacesRun(s, i + 1, j);
    }
  }

  /** A run of digits ending on a character that is not one is skipped exactly. */
  lemma {:induction false} SkipDigitsRun(s: string, i: nat, j: nat)
    requires i <= j < |s| && !IsDigit(s[j])
    requires forall k :: i <= k < j ==> IsDigit(s[k])
    ensures SkipDigits(s, i) == j
    decreases j - i
  {
    if i < j {
      SkipDigitsRun(s, i + 1, j);
    }
  }

  /** A label matches at the start of `s` ending at `e` exactly when `s` has the label's shape up to `e`. */
  lemma LabelEndIff(s: string, word: string, withNumber: bool, e: nat)
    ensures LabelEnd(s, word, withNumber) == Some(e) <==> exists a, b :: LabelShape(s, word, withNumber, a, b, e)
  {
    if exists a, b :: LabelShape(s, word, withNumber, a, b, e) {
      var a, b :| LabelShape(s, word, withNumber, a, b, e);
      if a < b {
        SkipSpacesRun(s, |word|, a);
        SkipDigitsRun(s, a, b);
        SkipSpacesRun(s, b, e - 1);
      } else {
        SkipSpacesRun(s, |word|, e - 1);
        if withNumber {
          SkipDigitsRun(s, e - 1, e - 1);
          SkipSpacesRun(s, e - 1, e - 1);
        }
      }
    }
  }

  /** Alternative `i` is the first of `words` that matches at the start of `s`. */
  predicate FirstMatchAt(s: string, words: seq<(string, bool)>, i: int) {
    0 <= i < |words| && LabelEnd(s, words[i].0, words[i].1).Some? &&
    forall j :: 0 <= j < i ==> LabelEnd(s, words[j].0, words[j].1).None?
  }

  /** No alternative of `words` matches at the start of `s`. */
  predicate NoneMatch(s: string, words: seq<(string, bool)>) {
    forall i :: 0 <= i < |words| ==> LabelEnd(s, words[i].0, words[i].1).None?
  }

  /**
   * A pattern whose alternatives are tried in order: the end of the first
   * alternative that matches, `None` when none does.
   */
  function FirstLabel(s: string, words: seq<(string, bool)>): (r: Option<nat>)
    ensures r.Some? ==> 0 < r.value <= |s|
    ensures forall i :: FirstMatchAt(s, words, i) ==> r == LabelEnd(s, words[i].0, words[i].1)
    ensures r.None? <==> NoneMatch(s, words)
  {
    if |words| == 0 then None
    else
      assert forall i :: 1 <= i < |words| ==> words[i] == words[1..][i - 1];
      match LabelEnd(s, words[0].0, words[0].1)
      case Some(e) => Some(e)
      case None =>
        assert forall i :: 1 <= i < |words| && FirstMatchAt(s, words, i) ==> FirstMatchAt(s, words[1..], i - 1);
        FirstLabel(s, words[1..])
  }

  /** `(?:Agent|Representative|Rep|Operator|Receptionist)\s*:`. */
  const AgentWords: seq<(string, bool)> :=
    [("agent", false), ("representative", false), ("rep", false), ("operator", false), ("receptionist", false)]

  /** `(?:Caller|Customer|Client|Speaker\s*\d*)\s*:`. */
  const CallerWords: seq<(string, bool)> :=
    [("caller", false), ("customer", false), ("client", false), ("speaker", true)]

  /**
   * The role a line opens, with its text once the label is removed and the
   * rest stripped; `None` for a line without a label. The agent pattern is
   * tried first; within a pattern the first matching alternative decides.
   */
  function LineRole(line: string): (r: Option<(Role, string)>)
    ensures forall i :: FirstMatchAt(Strip(line), AgentWords, i) ==>
      var e := LabelEnd(Strip(line), AgentWords[i].0, AgentWords[i].1).value;
      r == Some((Assistant, Strip(Strip(line)[e..])))
    ensures NoneMatch(Strip(line), AgentWords) ==> forall i :: FirstMatchAt(Strip(line), CallerWords, i) ==>
      var e := LabelEnd(Strip(line), CallerWords[i].0, CallerWords[i].1).value;
      r == Some((User, Strip(Strip(line)[e..])))
    ensures r.None? <==> NoneMatch(Strip(line), AgentWords) && NoneMatch(Strip(line), CallerWords)
    ensures FirstLabel(Strip(line), AgentWords).Some? ==>
      var e := FirstLabel(Strip(line), AgentWords).value;
      r == Some((Assistant, Strip(Strip(line)[e..])))
    ensures FirstLabel(Strip(line), AgentWords).None? && FirstLabel(Strip(line), CallerWords).Some? ==>
      var e := FirstLabel(Strip(line), CallerWords).value;
      r == Some((User, Strip(Strip(line)[e..])))
    ensures r.None? <==> FirstLabel(Strip(line), AgentWords).None? && FirstLabel(Strip(line), CallerWords).None?
    ensures r.Some? ==> |r.value.1| < |Strip(line)|
  {
    var s := Strip(line);
    match FirstLabel(s, AgentWords)
    case Some(e) => Some((Assistant, Strip(s[e..])))
    case None =>
      match FirstLabel(s, CallerWords)
      case Some(e) => Some((User, Strip(s[e..])))
      case None => None
  }

  /** The walk's state: the role of the open message, its lines, and what was drawn so far. */
  datatype Chat = Chat(role: Option<Role>, lines: seq<string>, events: seq<Event>)

  /** The message an open segment draws when it is closed, if its text is not blank. */
  function Closed(role: Role, lines: seq<string>): seq<Event> {
    var text := Strip(Join(lines, "\n"));
    if text != "" then [Message(role, text)] else []
  }

  /** `flush()`. */
  function Flush(c: Chat): seq<Event> {
    if c.role.Some? && |c.lines| > 0 then c.events + Closed(c.role.value, c.lines) else c.events
  }

  /** One line of the walk. */
  function Step(c: Chat, line: string, classify: string -> Option<(Role, string)>): (r: Chat)
    ensures |c.events| <= |r.events| && r.events[..|c.events|] == c.events
    ensures classify(line).Some? ==> r.role == Some(classify(line).value.0) && r.lines == [classify(line).value.1]
    ensures classify(line).None? ==> r.role == c.role
  {
    match classify(line)
    case Some((role, rest)) => Chat(Some(role), [rest], Flush(c))
    case None =>
      if c.role.Some? then c.(lines := c.lines + [line])
      else if Strip(line) != "" then c.(events := c.events + [Caption(Strip(line))])
      else c
  }

  /** The state after walking `lines` in order. */
  function Walk(lines: seq<string>, classify: string -> Option<(Role, string)>): (r: Chat)
    ensures r.role.None? ==> r.lines == []
    ensures r.role.Some? ==> |r.lines| > 0
  {
    if |lines| == 0 then Chat(None, [], []) else Step(Walk(lines[..|lines| - 1], classify), lines[|lines| - 1], classify)
  }

  lemma WalkAt(lines: seq<string>, i: nat, classify: string -> Option<(Role, string)>)
    requires i < |lines|
    ensures Walk(lines[..i + 1], classify) == Step(Walk(lines[..i], classify), lines[i], classify)
  {
    assert lines[..i + 1][..i] == lines[..i];
  }

  /** What `_render_chat_transcript` draws for a transcript. */
  function TranscriptEvents(transcript: string): seq<Event> {
    Flush(Walk(Split(transcript, '\n'), LineRole))
  }

  /** `_render_chat_transcript`: walk the lines, flushing the open message at each label and at the end. */
  method RenderChatTranscript(transcript: string) returns (events: seq<Event>)
    ensures events == TranscriptEvents(transcript)
  {
    var lines := Split(transcript, '\n');
    var role: Option<Role> := None;
    var text: seq<string> := [];
    events := [];
    var i := 0;
    while i < |lines|
      invariant 0 <= i <= |lines|
      invariant Chat(role, text, events) == Walk(lines[..i], LineRole)
    {
      WalkAt(lines, i, LineRole);
      role, text, events := VisitLine(role, text, events, lines[i]);
      i := i + 1;
    }
    assert lines[..|lines|] == lines;
    if role.Some? && |text| > 0 {
      events := events + Closed(role.value, text);
    }
  }

  /** The body of the loop over the lines. */
  method VisitLine(role: Option<Role>, text: seq<string>, events: seq<Event>, line: string)
    returns (role': Option<Role>, text': seq<string>, events': seq<Event>)
    ensures Chat(role', text', events') == Step(Chat(role, text, events), line, LineRole)
  {
    role', text', events' := role, text, events;
    var labelled := LineRole(line);
    if labelled.Some? {
      if role.Some? && |text| > 0 {
        events' := events + Closed(role.value, text);
      }
      role' := Some(labelled.value.0);
      text' := [labelled.value.1];
    } else if role.Some? {
      text' := text + [line];
    } else if Strip(line) != "" {
      events' := events + [Caption(Strip(line))];
    }
  }

  /**
   * The reference reading of a transcript: each labelled line opens a
   * segment holding its own text and every unlabelled line up to the next
   * label.
   */
  function Segments(lines: seq<string>, classify: string -> Option<(Role, string)>): (segs: seq<(Role, seq<string>)>)
    ensures |segs| <= |lines|
  {
    if |lines| == 0 then []
    else
      var init := Segments(lines[..|lines| - 1], classify);
      var line := lines[|lines| - 1];
      match classify(line)
      case Some((role, rest)) => init + [(role, [rest])]
      case None =>
        if |init| == 0 then init
        else init[..|init| - 1] + [(init[|init| - 1].0, init[|init| - 1].1 + [line])]
  }

  /** The captions: the non-blank unlabelled lines before the first label, stripped. */
  function Captions(lines: seq<string>, classify: string -> Option<(Role, string)>): seq<Event> {
    if |lines| == 0 then []
    else
      var init := Captions(lines[..|lines| - 1], classify);
      var line := lines[|lines| - 1];
      if |Segments(lines[..|lines| - 1], classify)| == 0 && classify(line).None? && Strip(line) != "" then init + [Caption(Strip(line))]
      else init
  }

  /** The messages of a list of segments: one per segment whose text is not blank. */
  function Messages(segs: seq<(Role, seq<string>)>): seq<Event> {
    if |segs| == 0 then [] else Messages(segs[..|segs| - 1]) + Closed(segs[|segs| - 1].0, segs[|segs| - 1].1)
  }

  /** The state the reference reading predicts: captions, then the closed segments, with the last one open. */
  function Expected(lines: seq<string>, classify: string -> Option<(Role, string)>): Chat {
    var segs := Segments(lines, classify);
    if |segs| == 0 then Chat(None, [], Captions(lines, classify))
    else Chat(Some(segs[|segs| - 1].0), segs[|segs| - 1].1, Captions(lines, classify) + Messages(segs[..|segs| - 1]))
  }

  /** Closing the predicted open segment yields the captions and the messages of all segments. */
  lemma FlushExpected(lines: seq<string>, classify: string -> Option<(Role, string)>)
    ensures Flush(Expected(lines, classify)) == Captions(lines, classify) + Messages(Segments(lines, classify))
  {
    var segs := Segments(lines, classify);
    var caps := Captions(lines, classify);
    if |segs| > 0 {
      SegmentsNonEmpty(lines, classify);
      assert Expected(lines, classify) ==
        Chat(Some(segs[|segs| - 1].0), segs[|segs| - 1].1, caps + Messages(segs[..|segs| - 1]));
      FlushLast(segs, caps);
    } else {
      assert Expected(lines, classify) == Chat(None, [], caps);
    }
  }

  /** Closing the last segment, which holds a line, appends its message. */
  lemma FlushLast(segs: seq<(Role, seq<string>)>, caps: seq<Event>)
    requires |segs| > 0 && |segs[|segs| - 1].1| > 0
    ensures Flush(Chat(Some(segs[|segs| - 1].0), segs[|segs| - 1].1, caps + Messages(segs[..|segs| - 1]))) ==
      caps + Messages(segs)
  {
    var n := |segs| - 1;
    assert Messages(segs) == Messages(segs[..n]) + Closed(segs[n].0, segs[n].1);
  }

  /** The walk is the reference reading. */
  lemma {:induction false} WalkIsSegments(lines: seq<string>, classify: string -> Option<(Role, string)>)
    ensures Walk(lines, classify) == Expected(lines, classify)
  {
    if |lines| > 0 {
      var init := lines[..|lines| - 1];
      var line := lines[|lines| - 1];
      WalkIsSegments(init, classify);
      var segs := Segments(init, classify);
      assert Walk(lines, classify) == Step(Walk(init, classify), line, classify);
      match classify(line)
      case Some((role, rest)) =>
        FlushExpected(init, classify);
        var segs' := segs + [(role, [rest])];
        assert Segments(lines, classify) == segs';
        assert segs'[..|segs'| - 1] == segs;
        assert Captions(lines, classify) == Captions(init, classify);
      case None =>
        if |segs| > 0 {
          var last := segs[|segs| - 1];
          var segs' := segs[..|segs| - 1] + [(last.0, last.1 + [line])];
          assert Segments(lines, classify) == segs';
          assert segs'[..|segs'| - 1] == segs[..|segs| - 1];
          assert Captions(lines, classify) == Captions(init, classify);
        }
    }
  }

  /** Every segment holds at least its label line. */
  lemma {:induction false} SegmentsNonEmpty(lines: seq<string>, classify: string -> Option<(Role, string)>)
    ensures forall i :: 0 <= i < |Segments(lines, classify)| ==> |Segments(lines, classify)[i].1| > 0
  {
    if |lines| > 0 {
      SegmentsNonEmpty(lines[..|lines| - 1], classify);
    }
  }

  /** The drawn events are the captions followed by the messages of all segments. */
  lemma TranscriptIsSegments(transcript: string)
    ensures var lines := Split(transcript, '\n');
      TranscriptEvents(transcript) == Captions(lines, LineRole) + Messages(Segments(lines, LineRole))
  {
    var lines := Split(transcript, '\n');
    WalkIsSegments(lines, LineRole);
    FlushExpected(lines, LineRole);
  }
}
