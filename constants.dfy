/**
 * `utils/constants.py`: the quality-band table, tone badges, the sentinel
 * test for values hidden from display, language cleaning, `humanize`, and
 * the column groups of the data explorer.
 */
module Constants {
  import opened Wrappers
  import opened PyValue
  import opened Strings

  datatype Band = Band(name: string, low: int, high: int, color: string)

  /** `QUALITY_BANDS`, in dictionary order. */
  const QualityBands: seq<Band> := [
    Band("POOR", 0, 29, "#E17055"),
    Band("NEEDS IMPROVEMENT", 30, 59, "#FDCB6E"),
    Band("ADEQUATE", 60, 74, "#F9CA24"),
    Band("STRONG", 75, 89, "#00B894"),
    Band("EXCEPTIONAL", 90, 100, "#D4A03C")
  ]

  const NotApplicable: (string, string) := ("N/A", "#6B7280")

  predicate InBand(x: real, b: Band) {
    b.low as real <= x <= b.high as real
  }

  /** The first band of `bands` whose closed range holds `x`. */
  function FirstBand(x: real, bands: seq<Band>): (r: Option<Band>)
    ensures r.Some? ==> r.value in bands && InBand(x, r.value)
    ensures r.None? <==> forall b :: b in bands ==> !InBand(x, b)
  {
    if |bands| == 0 then None
    else if InBand(x, bands[0]) then Some(bands[0])
    else
      assert forall b :: b in bands <==> b == bands[0] || b in bands[1..] by {
        assert bands == [bands[0]] + bands[1..];
      }
      FirstBand(x, bands[1..])
  }

  /**
   * `float(score)`: numbers and booleans convert, text goes through the
   * parser `parseFloat`, anything else fails.
   */
  function ToFloat(score: Value, parseFloat: string -> Option<real>): (r: Option<real>)
    ensures score.VInt? ==> r == Some(score.i as real)
    ensures score.VFloat? ==> r == Some(score.r)
    ensures score.VBool? ==> r == Some(if score.b then 1.0 else 0.0)
    ensures score.VStr? ==> r == parseFloat(score.s)
    ensures score.VNone? || score.VList? || score.VDict? ==> r.None?
  {
    match score
    case VInt(i) => Some(i as real)
    case VFloat(r) => Some(r)
    case VBool(b) => Some(if b then 1.0 else 0.0)
    case VStr(s) => parseFloat(s)
    case _ => None
  }

  /** `quality_band(score)`: the name and colour of the band holding the score, else N/A. */
  function QualityBand(score: Value, parseFloat: string -> Option<real>): (r: (string, string))
    ensures score.VNone? ==> r == NotApplicable
    ensures r != NotApplicable <==>
      ToFloat(score, parseFloat).Some? && exists b :: b in QualityBands && InBand(ToFloat(score, parseFloat).value, b)
    ensures r != NotApplicable ==>
      exists b :: b in QualityBands && InBand(ToFloat(score, parseFloat).value, b) && r == (b.name, b.color)
  {
    match ToFloat(score, parseFloat)
    case None => NotApplicable
    case Some(x) =>
      match FirstBand(x, QualityBands)
      case None => NotApplicable
      case Some(b) => (b.name, b.color)
  }

  /** No score lies in two bands. */
  lemma BandsDisjoint(x: real)
    ensures forall i, j :: 0 <= i < j < |QualityBands| ==> !(InBand(x, QualityBands[i]) && InBand(x, QualityBands[j]))
  {
  }

  /** Every integer score from 0 to 100 gets exactly one band, and it is the band holding the score. */
  lemma {:induction false} IntegerScoresCovered(n: int, parseFloat: string -> Option<real>)
    requires 0 <= n <= 100
    ensures QualityBand(VInt(n), parseFloat) != NotApplicable
    ensures exists i ::
      && 0 <= i < |QualityBands|
      && InBand(n as real, QualityBands[i])
      && QualityBand(VInt(n), parseFloat) == (QualityBands[i].name, QualityBands[i].color)
  {
    var i := if n <= 29 then 0 else if n <= 59 then 1 else if n <= 74 then 2 else if n <= 89 then 3 else 4;
    assert InBand(n as real, QualityBands[i]);
    assert QualityBands[i] in QualityBands;
    BandsDisjoint(n as real);
  }

  /** Scores in a gap between bands, such as 29.5, and scores outside 0..100 get N/A. */
  lemma GapsAndOutOfRange(x: real, parseFloat: string -> Option<real>)
    requires (29.0 < x < 30.0) || (59.0 < x < 60.0) || (74.0 < x < 75.0) || (89.0 < x < 90.0) || x < 0.0 || x > 100.0
    ensures QualityBand(VFloat(x), parseFloat) == NotApplicable
  {
  }

  /** `TONE_BADGE_MAP`. */
  const ToneBadges: seq<(string, string)> := [
    ("distressed", "wb-badge-error"),
    ("angry", "wb-badge-error"),
    ("fearful", "wb-badge-error"),
    ("frustrated", "wb-badge-error"),
    ("anxious", "wb-badge-warning"),
    ("confused", "wb-badge-warning"),
    ("skeptical", "wb-badge-warning"),
    ("hopeful", "wb-badge-success"),
    ("grateful", "wb-badge-success"),
    ("relieved", "wb-badge-success"),
    ("neutral", "wb-badge-info"),
    ("calm", "wb-badge-info"),
    ("neutral_calm", "wb-badge-info")
  ]

  const BadgeClasses: set<string> := {"wb-badge-error", "wb-badge-warning", "wb-badge-success", "wb-badge-info"}

  /** Lookup in an association list with a default. */
  function Lookup(table: seq<(string, string)>, key: string, default: string): (r: string)
    ensures (exists i :: 0 <= i < |table| && table[i].0 == key) ==>
      exists i :: 0 <= i < |table| && table[i] == (key, r)
    ensures (forall i :: 0 <= i < |table| ==> table[i].0 != key) ==> r == default
  {
    if |table| == 0 then default
    else if table[0].0 == key then table[0].1
    else
      var r := Lookup(table[1..], key, default);
      assert forall i :: 1 <= i < |table| ==> table[i] == table[1..][i - 1];
      r
  }

  /** `get_badge_class(tone)`. */
  function GetBadgeClass(tone: Option<string>): (r: string)
    ensures r in BadgeClasses
    ensures tone.None? || tone.value == "" ==> r == "wb-badge-info"
    ensures tone.Some? && tone.value != "" ==>
      r == Lookup(ToneBadges, Strip(Lower(tone.value)), "wb-badge-info")
  {
    if tone.None? || tone.value == "" then "wb-badge-info"
    else
      var r := Lookup(ToneBadges, Strip(Lower(tone.value)), "wb-badge-info");
      ToneBadgesInClasses();
      r
  }

  lemma ToneBadgesInClasses()
    ensures forall i :: 0 <= i < |ToneBadges| ==> ToneBadges[i].1 in BadgeClasses
  {
    forall i | 0 <= i < |ToneBadges| ensures ToneBadges[i].1 in BadgeClasses {
      var c := ToneBadges[i].1;
      assert c == "wb-badge-error" || c == "wb-badge-warning" || c == "wb-badge-success" || c == "wb-badge-info";
    }
  }

  /** The text members of `_FALSY_SENTINELS`. */
  const RawSentinelTexts: set<string> := {"", "none", "null", "n/a", "false", "None", "N/A"}

  /** The sentinel texts after `.strip().lower()`. */
  const SentinelTexts: set<string> := {"", "none", "null", "n/a", "false"}

  /**
   * `is_falsy_sentinel(value)`. Numbers and booleans are never sentinels;
   * `None` is; text is when its stripped, lower-cased form is a sentinel
   * text; a list or dict cannot be looked up in the sentinel set and raises.
   */
  function IsFalsySentinel(v: Value): (r: Result<bool>)
    ensures r.Err? <==> v.VList? || v.VDict?
    ensures v.VInt? || v.VFloat? || v.VBool? ==> r == Ok(false)
    ensures v.VNone? ==> r == Ok(true)
    ensures v.VStr? ==> r == Ok(Lower(Strip(v.s)) in SentinelTexts)
  {
    match v
    case VInt(_) => Ok(false)
    case VFloat(_) => Ok(false)
    case VBool(_) => Ok(false)
    case VNone => Ok(true)
    case VStr(s) =>
      RawSentinelsAreNormal(s);
      Ok(s in RawSentinelTexts || Lower(Strip(s)) in SentinelTexts)
    case VList(_) => Err(TypeError("unhashable type: 'list'"))
    case VDict(_) => Err(TypeError("unhashable type: 'dict'"))
  }

  /** A member of the sentinel set is already unchanged by `.strip().lower()` up to case. */
  lemma RawSentinelsAreNormal(s: string)
    ensures s in RawSentinelTexts ==> Lower(Strip(s)) in SentinelTexts
  {
    if s == "None" {
      NormalisedText("None", "none");
    } else if s == "N/A" {
      NormalisedText("N/A", "n/a");
    } else if s in SentinelTexts {
      StripNoSpace(s);
      LowerNoUpper(s);
    }
  }

  lemma NormalisedText(s: string, t: string)
    requires forall i :: 0 <= i < |s| ==> !IsSpace(s[i])
    requires Lower(s) == t
    ensures Lower(Strip(s)) == t
  {
    StripNoSpace(s);
  }

  /** Zero and `False` are values, `" NULL "` is a sentinel. */
  lemma SentinelExamples()
    ensures IsFalsySentinel(VInt(0)) == Ok(false)
    ensures IsFalsySentinel(VBool(false)) == Ok(false)
    ensures IsFalsySentinel(VStr(" NULL ")) == Ok(true)
  {
    var s := " NULL ";
    assert s[1..] == "NULL ";
    StripNoSpace("NULL");
    assert LStripBy(s, IsSpace) == LStripBy("NULL ", IsSpace) == "NULL ";
    assert "NULL "[..4] == "NULL";
    assert RStripBy("NULL ", IsSpace) == RStripBy("NULL", IsSpace) == "NULL";
    assert Lower("NULL") == "null";
  }

  /** The file separator U+001C is whitespace to `strip`, so it hides a sentinel as a space does. */
  lemma SeparatorHidesSentinel()
    ensures IsFalsySentinel(VStr("\U{001C}null")) == Ok(true)
  {
    var n := "null";
    assert forall i :: 0 <= i < |n| ==> !IsSpace(n[i]);
    StripLeadingSpace('\U{001C}', n);
    assert ['\U{001C}'] + n == "\U{001C}null";
    assert Lower(n) == n;
  }

  /** `clean_language(val)`: quotes are stripped first, then whitespace. */
  function CleanLanguage(val: Option<string>): (r: string)
    ensures val.None? || val.value == "" ==> r == ""
    ensures |r| > 0 ==> !IsSpace(r[0]) && !IsSpace(r[|r| - 1])
    ensures val.Some? ==> |r| <= |val.value|
  {
    if val.None? || val.value == "" then ""
    else Strip(StripChar(val.value, '\''))
  }

  /**
   * Quotes are stripped before whitespace, so whitespace around the quotes
   * keeps them: `" 'en' "` cleans to `"'en'"` while `"'en'"` cleans to `en`.
   */
  lemma CleanLanguageQuotesInsideSpaces(w: string)
    requires forall i :: 0 <= i < |w| ==> !IsSpace(w[i]) && w[i] != '\''
    ensures CleanLanguage(Some(" '" + w + "' ")) == "'" + w + "'"
    ensures CleanLanguage(Some("'" + w + "'")) == w
  {
    SpacedQuotes(w);
    BareQuotes(w);
    CleanLanguageOfText(" '" + w + "' ");
    CleanLanguageOfText("'" + w + "'");
  }

  lemma CleanLanguageOfText(v: string)
    requires v != ""
    ensures CleanLanguage(Some(v)) == Strip(StripChar(v, '\''))
  {
  }

  lemma SpacedQuotes(w: string)
    requires forall i :: 0 <= i < |w| ==> !IsSpace(w[i]) && w[i] != '\''
    ensures Strip(StripChar(" '" + w + "' ", '\'')) == "'" + w + "'"
  {
    var q := "'" + w + "'";
    var s := " " + q + " ";
    assert s == " '" + w + "' ";
    assert s[0] == ' ' && s[|s| - 1] == ' ';
    StripCharKeeps(s, '\'');
    var l := q + " ";
    assert s[1..] == l;
    assert s[1] == q[0] == '\'';
    LStripOne(s, IsSpace);
    assert l[|l| - 2] == q[|q| - 1] == '\'';
    RStripOne(l, IsSpace);
    assert l[..|l| - 1] == q;
  }

  lemma BareQuotes(w: string)
    requires forall i :: 0 <= i < |w| ==> !IsSpace(w[i]) && w[i] != '\''
    ensures Strip(StripChar("'" + w + "'", '\'')) == w
  {
    var q := "'" + w + "'";
    assert q[0] == '\'' && q[|q| - 1] == '\'';
    assert forall i :: 0 < i < |q| - 1 ==> q[i] == w[i - 1];
    assert q[1..|q| - 1] == w;
    StripCharPair(q, '\'');
    StripNoSpace(w);
  }

  /** `str.title()` on one character, given the character before it (if any). */
  function TitleChar(prev: Option<char>, c: char): char {
    if prev.Some? && IsLetter(prev.value) then LowerChar(c) else UpperChar(c)
  }

  /** The character before position `i`, if any. */
  function Prev(s: string, i: nat): Option<char>
    requires i < |s|
  {
    if i == 0 then None else Some(s[i - 1])
  }

  /** `s.title()` over ASCII: a letter is upper-cased after a non-letter and lower-cased after a letter. */
  function Title(s: string): (r: string)
    ensures |r| == |s|
    ensures forall i :: 0 <= i < |s| ==> r[i] == TitleChar(Prev(s, i), s[i])
  {
    if |s| == 0 then ""
    else
      var n := |s| - 1;
      var p := s[..n];
      var t := Title(p);
      var r := t + [TitleChar(Prev(s, n), s[n])];
      assert forall i :: 0 <= i < |s| ==> r[i] == TitleChar(Prev(s, i), s[i]) by {
        forall i | 0 <= i < |s| ensures r[i] == TitleChar(Prev(s, i), s[i]) {
          if i < n {
            assert r[i] == t[i] == TitleChar(Prev(p, i), p[i]);
            assert p[i] == s[i];
            assert i > 0 ==> p[i - 1] == s[i - 1];
            assert Prev(p, i) == Prev(s, i);
          } else {
            assert r[i] == TitleChar(Prev(s, n), s[n]);
          }
        }
      }
      r
  }

  /** A character of `snake_str.replace("_", " ")`. */
  function Unscored(c: char): char {
    if c == '_' then ' ' else c
  }

  /**
   * Position `i` of `r` is that of `humanize(s)`: the unscored character,
   * title-cased after the unscored character before it.
   */
  predicate HumanizedAt(s: string, r: string, i: int) {
    0 <= i < |s| && i < |r| &&
    r[i] == TitleChar(if i == 0 then None else Some(Unscored(s[i - 1])), Unscored(s[i]))
  }

  /**
   * `humanize(snake_str)`: underscores become spaces, then title case, so
   * every letter at the start or after a non-letter is upper case and every
   * letter after a letter is lower case.
   */
  function Humanize(s: string): (r: string)
    ensures |r| == |s|
    ensures '_' !in r
    ensures forall i :: 0 <= i < |s| && s[i] == '_' ==> r[i] == ' '
    ensures forall i :: 0 <= i < |s| && s[i] != '_' ==> LowerChar(r[i]) == LowerChar(s[i])
    ensures forall i :: 0 <= i < |s| ==> HumanizedAt(s, r, i)
  {
    var spaced := ReplaceChar(s, '_', " ");
    ReplaceCharSameLength(s, '_', ' ');
    var r := Title(spaced);
    HumanizeChars(s, spaced, r);
    r
  }

  lemma HumanizeChars(s: string, spaced: string, r: string)
    requires |spaced| == |s| == |r|
    requires forall i :: 0 <= i < |s| ==> spaced[i] == if s[i] == '_' then ' ' else s[i]
    requires forall i :: 0 <= i < |s| ==> r[i] == TitleChar(Prev(spaced, i), spaced[i])
    ensures '_' !in r
    ensures forall i :: 0 <= i < |s| && s[i] == '_' ==> r[i] == ' '
    ensures forall i :: 0 <= i < |s| && s[i] != '_' ==> LowerChar(r[i]) == LowerChar(s[i])
    ensures forall i :: 0 <= i < |s| ==> HumanizedAt(s, r, i)
  {
    forall i | 0 <= i < |s|
      ensures r[i] != '_'
      ensures s[i] == '_' ==> r[i] == ' '
      ensures s[i] != '_' ==> LowerChar(r[i]) == LowerChar(s[i])
      ensures HumanizedAt(s, r, i)
    {
      TitleCharCase(Prev(spaced, i), spaced[i]);
      assert spaced[i] == Unscored(s[i]);
      assert i > 0 ==> spaced[i - 1] == Unscored(s[i - 1]);
    }
  }

  /**
   * Two lower-case words joined by `_` become two capitalised words joined
   * by a space, as `snake_case` becomes `Snake Case`.
   */
  lemma HumanizeTwoWords(a: string, b: string)
    requires |a| > 0 && |b| > 0
    requires forall i :: 0 <= i < |a| ==> 'a' <= a[i] <= 'z'
    requires forall i :: 0 <= i < |b| ==> 'a' <= b[i] <= 'z'
    ensures Humanize(a + "_" + b) == [UpperChar(a[0])] + a[1..] + " " + [UpperChar(b[0])] + b[1..]
  {
    TitledTwoWords(a, b, a + "_" + b, Humanize(a + "_" + b));
  }

  /** A text that title-cases `a_b` position by position is `A b` with both words capitalised. */
  lemma TitledTwoWords(a: string, b: string, s: string, r: string)
    requires |a| > 0 && |b| > 0
    requires forall i :: 0 <= i < |a| ==> 'a' <= a[i] <= 'z'
    requires forall i :: 0 <= i < |b| ==> 'a' <= b[i] <= 'z'
    requires s == a + "_" + b && |r| == |s|
    requires forall i :: 0 <= i < |s| ==> HumanizedAt(s, r, i)
    ensures r == [UpperChar(a[0])] + a[1..] + " " + [UpperChar(b[0])] + b[1..]
  {
    var e := [UpperChar(a[0])] + a[1..] + " " + [UpperChar(b[0])] + b[1..];
    var n := |a|;
    forall i | 0 <= i < |s| ensures r[i] == e[i] {
      assert HumanizedAt(s, r, i);
      if i == 0 {
        assert s[0] == a[0] && e[0] == UpperChar(a[0]);
      } else if i < n {
        assert s[i] == a[i] && s[i - 1] == a[i - 1] && e[i] == a[i];
      } else if i == n {
        assert s[i] == '_' && e[i] == ' ';
      } else if i == n + 1 {
        assert s[i] == b[0] && s[i - 1] == '_' && e[i] == UpperChar(b[0]);
      } else {
        assert s[i] == b[i - n - 1] && s[i - 1] == b[i - n - 2] && e[i] == b[i - n - 1];
      }
    }
  }

  /** Title-casing changes only the case of a letter. */
  lemma TitleCharCase(prev: Option<char>, c: char)
    ensures LowerChar(TitleChar(prev, c)) == LowerChar(c)
    ensures TitleChar(prev, c) == '_' <==> c == '_'
    ensures c == ' ' ==> TitleChar(prev, c) == ' '
  {
  }

  /** Replacing a character by a single character keeps the length and the other positions. */
  lemma {:induction false} ReplaceCharSameLength(s: string, from: char, to: char)
    ensures |ReplaceChar(s, from, [to])| == |s|
    ensures forall i :: 0 <= i < |s| ==> ReplaceChar(s, from, [to])[i] == if s[i] == from then to else s[i]
  {
    if |s| > 0 {
      ReplaceCharSameLength(s[..|s| - 1], from, to);
    }
  }

  /** `COLUMN_GROUPS` of the data explorer, in dictionary order. */
  const ColumnGroups: seq<(string, seq<string>)> := [
    ("Core", ["source_transcript_id", "case_type", "quality_score",
              "emotional_tone", "outcome", "analyzed_at"]),
    ("Quality Sub-Scores", ["quality_sub_scores"]),
    ("Agent Scores", ["agent_empathy_score", "agent_education_quality",
                      "agent_objection_handling", "agent_closing_effectiveness"]),
    ("Case Assessment", ["liability_clarity", "injury_severity", "documentation_quality",
                         "estimated_case_value_low", "estimated_case_value_high"]),
    ("Objection Taxonomy", ["objection_categories", "mid_call_dropout_moment", "conversion_driver",
                            "drop_off_reason", "agent_intervention_that_worked", "moment_that_closed"]),
    ("Language & Culture", ["reading_level_estimate", "communication_style", "spanglish_detected",
                            "colloquialisms", "cultural_markers", "family_references",
                            "verbatim_customer_language"]),
    ("CX Intelligence", ["questions_repeated_by_attorney", "attorney_used_prior_info",
                         "handoff_wait_time_mentioned", "attorney_sentiment", "attorney_rejection_reason",
                         "testimonial_candidate", "testimonial_type", "review_request_eligible"]),
    ("Content Mining", ["common_questions_asked", "misunderstandings", "education_calming_moment",
                        "process_confusion_points", "other_brands_mentioned", "competitive_comparison",
                        "category_confusion", "ad_or_creative_referenced",
                        "ad_promise_vs_reality_mismatch", "repeated_questions_from_caller"]),
    ("Emotional Arc", ["opening_emotional_state", "mid_call_emotional_shift", "end_state_emotion"]),
    ("Metadata", ["prompt_version_used", "confidence_score", "validation_passed", "api_cost",
                  "input_tokens", "output_tokens", "analysis_type"])
  ]

  /** `TESTIMONIAL_STATUSES`. */
  const TestimonialStatuses: seq<string> := ["flagged", "contacted", "scheduled", "recorded", "published", "declined"]

  /** `TESTIMONIAL_TYPES`. */
  const TestimonialTypes: seq<string> := ["not_suitable", "high_value_long_form", "quantity_short_form"]
}
