/**
 * `components/filters.py`: what the sidebar filter widgets hand to the
 * query builders, the Clear-all-filters button, and the arithmetic of the
 * quality-band legend.
 */
module Filters {
  import opened Wrappers
  import opened PyValue
  import opened Strings
  import opened Ui
  import Constants

  /** `selected or None` of the multiselect wrappers. */
  function SelectedOrNone(selected: seq<string>): (r: Option<seq<string>>)
    ensures r.None? <==> |selected| == 0
    ensures r.Some? ==> r.value == selected && |r.value| > 0
  {
    if |selected| > 0 then Some(selected) else None
  }

  /** `text if text else None` of `text_search_filter`. */
  function TextSearch(text: string): (r: Option<string>)
    ensures r.None? <==> text == ""
    ensures r.Some? ==> r.value == text && r.value != ""
  {
    if text != "" then Some(text) else None
  }

  /** The time of day `date_range_filter` appends to the end date. */
  const EndOfDay: string := "T23:59:59"

  /**
   * `date_range_filter`: the start as its ISO date, the end as its ISO date
   * followed by the last second of that day.
   */
  function DateRange(startIso: string, endIso: string): (r: (string, string))
    ensures r.0 == startIso
    ensures |r.1| == |endIso| + 9 && r.1[..|endIso|] == endIso && r.1[|endIso|..] == EndOfDay
  {
    (startIso, endIso + EndOfDay)
  }

  lemma {:induction false} StrLtSharedPrefix(p: string, x: string, y: string)
    ensures StrLt(p + x, p + y) <==> StrLt(x, y)
  {
    if |p| == 0 {
      assert p + x == x && p + y == y;
    } else {
      assert (p + x)[0] == (p + y)[0];
      assert (p + x)[1..] == p[1..] + x;
      assert (p + y)[1..] == p[1..] + y;
      StrLtSharedPrefix(p[1..], x, y);
    }
  }

  /**
   * In text order, a timestamp of the end day no later than 23:59:59 is at
   * most the end bound, and a timestamp of any later day (of the same
   * format) is above it.
   */
  lemma EndBoundCoversEndDay(endIso: string, clock: string, laterDay: string, rest: string)
    requires StrLe(clock, "23:59:59")
    requires |laterDay| == |endIso| && StrLt(endIso, laterDay)
    ensures StrLe(endIso + "T" + clock, DateRange("", endIso).1)
    ensures StrLt(DateRange("", endIso).1, laterDay + rest)
  {
    assert DateRange("", endIso).1 == endIso + ("T" + "23:59:59");
    assert endIso + "T" + clock == endIso + ("T" + clock);
    StrLtSharedPrefix(endIso, "T" + clock, "T" + "23:59:59");
    StrLtSharedPrefix("T", clock, "23:59:59");
    PrefixOrderExtends(endIso, laterDay, EndOfDay, rest);
  }

  /** Two texts of equal length keep their order whatever follows them. */
  lemma {:induction false} PrefixOrderExtends(a: string, b: string, x: string, y: string)
    requires |a| == |b| && StrLt(a, b)
    ensures StrLt(a + x, b + y)
  {
    if a[0] == b[0] {
      assert (a + x)[1..] == a[1..] + x;
      assert (b + y)[1..] == b[1..] + y;
      PrefixOrderExtends(a[1..], b[1..], x, y);
    }
  }

  /** The key of the Clear button of a prefix. */
  function ClearKey(keyPrefix: string): string {
    "clear_filters_" + keyPrefix
  }

  /** Whether Clear deletes key `k`. */
  predicate Cleared(k: string, keyPrefix: string) {
    StartsWith(k, keyPrefix) && k != ClearKey(keyPrefix)
  }

  /** The state Clear leaves: every key of the prefix is gone except the button's own. */
  function AfterClear(state: map<string, Value>, keyPrefix: string): (r: map<string, Value>)
    ensures forall k :: k in r <==> k in state && !Cleared(k, keyPrefix)
    ensures forall k :: k in r ==> r[k] == state[k]
  {
    map k | k in state && !Cleared(k, keyPrefix) :: state[k]
  }

  /** `clear_filters`: on a click, delete the prefix's keys one by one, then rerun. */
  method ClearFilters(s: Session, keyPrefix: string, clicked: bool)
    modifies s
    ensures s.params == old(s.params)
    ensures clicked ==> s.state == AfterClear(old(s.state), keyPrefix)
    ensures !clicked ==> s.state == old(s.state)
  {
    if clicked {
      var clearKey := ClearKey(keyPrefix);
      var keys := s.state.Keys;
      ghost var start := s.state;
      while keys != {}
        invariant keys <= start.Keys
        invariant s.params == old(s.params)
        invariant s.state == map k | k in start && (k in keys || !Cleared(k, keyPrefix)) :: start[k]
        decreases keys
      {
        var k :| k in keys;
        if StartsWith(k, keyPrefix) && k != clearKey {
          s.state := map j | j in s.state && j != k :: s.state[j];
        }
        keys := keys - {k};
      }
    }
  }

  /** Clearing twice is clearing once; keys outside the prefix, and the button's own, survive. */
  lemma ClearIdempotent(state: map<string, Value>, keyPrefix: string)
    ensures AfterClear(AfterClear(state, keyPrefix), keyPrefix) == AfterClear(state, keyPrefix)
    ensures ClearKey(keyPrefix) in state ==> ClearKey(keyPrefix) in AfterClear(state, keyPrefix)
    ensures forall k :: k in state && !StartsWith(k, keyPrefix) ==> k in AfterClear(state, keyPrefix)
  {
  }

  /** A band name of at most 12 characters as is, else its first 12 right-stripped plus `.`. */
  function ShortLabel(name: string): (r: string)
    ensures |name| <= 12 ==> r == name
    ensures |name| > 12 ==> 1 <= |r| <= 13 && r[|r| - 1] == '.' && r[..|r| - 1] == name[..|r| - 1]
    ensures |name| > 12 ==>
      var k := |r| - 1;
      (k > 0 ==> !IsSpace(name[k - 1])) && forall i :: k <= i < 12 ==> IsSpace(name[i])
  {
    if |name| <= 12 then name else RStripBy(name[..12], IsSpace) + "."
  }

  /** The short labels of the legend: only `NEEDS IMPROVEMENT` is cut. */
  lemma LegendLabels()
    ensures ShortLabel("POOR") == "POOR" && ShortLabel("EXCEPTIONAL") == "EXCEPTIONAL"
    ensures ShortLabel("NEEDS IMPROVEMENT") == "NEEDS IMPROV."
  {
    var twelve := "NEEDS IMPROVEMENT"[..12];
    assert twelve == "NEEDS IMPROV";
    assert !IsSpace(twelve[11]);
    assert RStripBy(twelve, IsSpace) == twelve;
  }

  /** The value of one hexadecimal digit. */
  function HexDigit(c: char): Option<nat> {
    if '0' <= c <= '9' then Some(c as int - '0' as int)
    else if 'a' <= c <= 'f' then Some(c as int - 'a' as int + 10)
    else if 'A' <= c <= 'F' then Some(c as int - 'A' as int + 10)
    else None
  }

  function Pow16(n: nat): nat {
    if n == 0 then 1 else 16 * Pow16(n - 1)
  }

  /**
   * `int(s, 16)` on the two-character slices of a colour: a non-empty run of
   * hexadecimal digits. The whitespace, sign, `0x` prefix and `_` separators
   * Python also accepts are rejected here.
   */
  function ParseHex(s: string): (r: Option<nat>)
    ensures r.Some? ==> r.value < Pow16(|s|)
    ensures r.Some? <==> |s| > 0 && forall i :: 0 <= i < |s| ==> HexDigit(s[i]).Some?
  {
    if |s| == 0 then None
    else if |s| == 1 then HexDigit(s[0])
    else
      var init := ParseHex(s[..|s| - 1]);
      var last := HexDigit(s[|s| - 1]);
      assert forall i :: 0 <= i < |s| - 1 ==> s[..|s| - 1][i] == s[i];
      if init.Some? && last.Some? then Some(16 * init.value + last.value) else None
  }

  /** A digit's value, with 0 for a character that is not a digit. */
  function DigitValue(c: char): nat {
    match HexDigit(c)
    case Some(d) => d
    case None => 0
  }

  /** The positional value of a run of digits, most significant first. */
  function HexValue(s: string): nat
    decreases |s|
  {
    if |s| == 0 then 0 else DigitValue(s[0]) * Pow16(|s| - 1) + HexValue(s[1..])
  }

  /** One place shift of a positional sum. */
  lemma ShiftPlace(a: nat, p: nat, h: nat, d: nat)
    ensures a * (16 * p) + (16 * h + d) == 16 * (a * p + h) + d
  {
  }

  /** Appending a digit shifts the value one place and adds the digit. */
  lemma {:induction false} HexValueSnoc(s: string, c: char)
    ensures HexValue(s + [c]) == 16 * HexValue(s) + DigitValue(c)
    decreases |s|
  {
    if |s| > 0 {
      var sc := s + [c];
      assert sc[0] == s[0];
      assert sc[1..] == s[1..] + [c];
      HexValueSnoc(s[1..], c);
      var a, p, h := DigitValue(s[0]), Pow16(|s| - 1), HexValue(s[1..]);
      assert HexValue(sc) == a * Pow16(|s|) + (16 * h + DigitValue(c));
      ShiftPlace(a, p, h, DigitValue(c));
    } else {
      assert s + [c] == [c];
      assert [c][1..] == [];
    }
  }

  /** What `ParseHex` reads is the positional value of the digits. */
  lemma {:induction false} ParseHexValue(s: string)
    ensures ParseHex(s).Some? ==> ParseHex(s).value == HexValue(s)
    decreases |s|
  {
    if |s| == 1 {
      assert s[1..] == [];
    } else if |s| > 1 {
      var init := s[..|s| - 1];
      ParseHexValue(init);
      HexValueSnoc(init, s[|s| - 1]);
      assert init + [s[|s| - 1]] == s;
    }
  }

  predicate IsHash(c: char) {
    c == '#'
  }

  /** `r, g, b` of the legend: the colour without its `#`, read two digits at a time. */
  function HexRgb(color: string): (r: Option<(nat, nat, nat)>)
    ensures r.Some? ==> r.value.0 <= 255 && r.value.1 <= 255 && r.value.2 <= 255
  {
    var hc := LStripBy(color, IsHash);
    var rr := ParseHex(PySlice(hc, 0, 2));
    var gg := ParseHex(PySlice(hc, 2, 4));
    var bb := ParseHex(PySlice(hc, 4, 6));
    if rr.Some? && gg.Some? && bb.Some? then Some((rr.value, gg.value, bb.value)) else None
  }

  /** Every band colour of the table reads as three components. */
  lemma BandColoursParse()
    ensures forall b :: b in Constants.QualityBands ==> HexRgb(b.color).Some?
  {
    forall b | b in Constants.QualityBands ensures HexRgb(b.color).Some? {
      ColourParses(b.color);
    }
  }

  lemma ColourParses(color: string)
    requires |color| == 7 && color[0] == '#'
    requires forall i :: 1 <= i < 7 ==> HexDigit(color[i]).Some?
    ensures HexRgb(color).Some?
  {
    var hc := LStripBy(color, IsHash);
    assert color[1] != '#';
    assert |hc| == 6;
    assert hc == color[1..];
    assert hc[..2] == color[1..3] && hc[2..4] == color[3..5] && hc[4..6] == color[5..7];
  }
}
