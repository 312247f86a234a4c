/**
 * `app_pages/7_Call_Data_Explorer.py`: the column groups chosen with check
 * boxes, merged without repeats; the page reset when the filters change;
 * and the cell formatting of the explorer table.
 */
module CallDataExplorer {
  import opened Wrappers
  import opened PyValue
  import opened Strings
  import opened Seqs
  import opened Ui
  import Constants

  /** A group's check box: the value the user set, else on for `"Core"` only. */
  function IsActive(toggles: map<string, bool>, group: string): (on: bool)
    ensures group in toggles ==> on == toggles[group]
    ensures group !in toggles ==> (on <==> group == "Core")
  {
    if group in toggles then toggles[group] else group == "Core"
  }

  /** The columns of the active groups, concatenated in group order (`columns.extend`). */
  function ActiveColumns(groups: seq<(string, seq<string>)>, toggles: map<string, bool>): (columns: seq<string>)
    ensures (forall i :: 0 <= i < |groups| ==> !IsActive(toggles, groups[i].0)) ==> columns == []
    ensures |groups| > 0 && IsActive(toggles, groups[|groups| - 1].0) ==>
      var last := groups[|groups| - 1].1;
      |last| <= |columns| && columns[|columns| - |last|..] == last
  {
    if |groups| == 0 then []
    else
      var last := groups[|groups| - 1];
      ActiveColumns(groups[..|groups| - 1], toggles) + (if IsActive(toggles, last.0) then last.1 else [])
  }

  /** The column list the page queries: the active columns, each kept at its first occurrence. */
  function SelectedColumns(groups: seq<(string, seq<string>)>, toggles: map<string, bool>): (columns: seq<string>)
    ensures NoDup(columns)
    ensures forall c :: c in columns <==> c in ActiveColumns(groups, toggles)
  {
    Dedup(ActiveColumns(groups, toggles))
  }

  /** The two loops: extend by every active group, then drop repeats with a `seen` set. */
  method SelectColumns(groups: seq<(string, seq<string>)>, toggles: map<string, bool>) returns (columns: seq<string>)
    ensures columns == SelectedColumns(groups, toggles)
  {
    var all: seq<string> := [];
    var i := 0;
    while i < |groups|
      invariant 0 <= i <= |groups|
      invariant all == ActiveColumns(groups[..i], toggles)
    {
      assert groups[..i + 1][..i] == groups[..i];
      if IsActive(toggles, groups[i].0) {
        all := all + groups[i].1;
      }
      i := i + 1;
    }
    assert groups[..|groups|] == groups;
    columns := DedupInOrder(all);
  }

  /** A column is active exactly when some active group lists it. */
  lemma {:induction false} ActiveColumnsMembers(groups: seq<(string, seq<string>)>, toggles: map<string, bool>, c: string)
    ensures c in ActiveColumns(groups, toggles) <==>
      exists i :: 0 <= i < |groups| && IsActive(toggles, groups[i].0) && c in groups[i].1
  {
    if |groups| > 0 {
      var n := |groups| - 1;
      var init := groups[..n];
      ActiveColumnsMembers(init, toggles, c);
      assert forall i :: 0 <= i < n ==> init[i] == groups[i];
      var tail := if IsActive(toggles, groups[n].0) then groups[n].1 else [];
      assert ActiveColumns(groups, toggles) == ActiveColumns(init, toggles) + tail;
      if c in ActiveColumns(init, toggles) {
        var i :| 0 <= i < n && IsActive(toggles, init[i].0) && c in init[i].1;
        assert IsActive(toggles, groups[i].0) && c in groups[i].1;
      } else if c in tail {
        assert IsActive(toggles, groups[n].0) && c in groups[n].1;
      } else {
        forall i | 0 <= i < |groups| && IsActive(toggles, groups[i].0) ensures c !in groups[i].1 {
          if i < n {
            assert init[i] == groups[i];
          }
        }
      }
    }
  }

  /**
   * The selected columns have no repeats, are exactly the columns of the
   * active groups, and keep the order of their first occurrence.
   */
  lemma SelectedColumnsFacts(groups: seq<(string, seq<string>)>, toggles: map<string, bool>, c: string)
    ensures NoDup(SelectedColumns(groups, toggles))
    ensures c in SelectedColumns(groups, toggles) <==>
      exists i :: 0 <= i < |groups| && IsActive(toggles, groups[i].0) && c in groups[i].1
    ensures var all := ActiveColumns(groups, toggles);
      forall i, j :: 0 <= i < j < |SelectedColumns(groups, toggles)| ==>
        FirstIndex(all, SelectedColumns(groups, toggles)[i]) < FirstIndex(all, SelectedColumns(groups, toggles)[j])
  {
    ActiveColumnsMembers(groups, toggles, c);
    DedupFirstOccurrenceOrder(ActiveColumns(groups, toggles));
  }

  /** A list without repeats is its own de-duplication. */
  lemma {:induction false} DedupNoDup<T(!new)>(s: seq<T>)
    requires NoDup(s)
    ensures Dedup(s) == s
  {
    if |s| > 0 {
      var init := s[..|s| - 1];
      assert NoDup(init);
      DedupNoDup(init);
      assert s[|s| - 1] !in init;
      assert s == init + [s[|s| - 1]];
    }
  }

  /** When only the first group is on, its columns are the whole list. */
  lemma {:induction false} OnlyFirstActive(groups: seq<(string, seq<string>)>, toggles: map<string, bool>)
    requires |groups| > 0 && IsActive(toggles, groups[0].0)
    requires forall i :: 1 <= i < |groups| ==> !IsActive(toggles, groups[i].0)
    ensures ActiveColumns(groups, toggles) == groups[0].1
  {
    if |groups| > 1 {
      var init := groups[..|groups| - 1];
      assert forall i :: 1 <= i < |init| ==> init[i] == groups[i];
      OnlyFirstActive(init, toggles);
    } else {
      assert groups[..0] == [];
    }
  }

  /** With untouched check boxes the table shows the `Core` columns, in their order. */
  lemma DefaultIsCore()
    ensures SelectedColumns(Constants.ColumnGroups, map[]) == Constants.ColumnGroups[0].1
  {
    var groups := Constants.ColumnGroups;
    OnlyCoreByDefault();
    OnlyFirstActive(groups, map[]);
    CoreColumnsDistinct();
    DedupNoDup(groups[0].1);
  }

  /** Only the first group is called `Core`, so it alone is on by default. */
  lemma OnlyCoreByDefault()
    ensures IsActive(map[], Constants.ColumnGroups[0].0)
    ensures forall i :: 1 <= i < |Constants.ColumnGroups| ==> !IsActive(map[], Constants.ColumnGroups[i].0)
  {
    var groups := Constants.ColumnGroups;
    assert forall i :: 1 <= i < |groups| ==> groups[i].0 != "Core";
  }

  /** The `Core` group lists no column twice. */
  lemma CoreColumnsDistinct()
    ensures NoDup(Constants.ColumnGroups[0].1)
  {
  }

  /** Every group lists some column, so the page stops exactly when no group is on. */
  lemma NoColumnsIffNoGroup(toggles: map<string, bool>)
    ensures SelectedColumns(Constants.ColumnGroups, toggles) == [] <==>
      forall i :: 0 <= i < |Constants.ColumnGroups| ==> !IsActive(toggles, Constants.ColumnGroups[i].0)
  {
    var groups := Constants.ColumnGroups;
    assert forall i :: 0 <= i < |groups| ==> |groups[i].1| > 0;
    var sel := SelectedColumns(groups, toggles);
    if sel == [] {
      forall i | 0 <= i < |groups| ensures !IsActive(toggles, groups[i].0) {
        ActiveColumnsMembers(groups, toggles, groups[i].1[0]);
      }
    } else {
      var c := sel[0];
      ActiveColumnsMembers(groups, toggles, c);
    }
  }

  /** How the page begins: it stops without columns, otherwise resets the page when the filters changed. */
  datatype Start = NoColumns | Ready(columns: seq<string>)

  method ExplorerStart(s: Session, toggles: map<string, bool>, filterKey: string) returns (r: Start)
    modifies s
    ensures s.params == old(s.params)
    ensures r == NoColumns <==> SelectedColumns(Constants.ColumnGroups, toggles) == []
    ensures r == NoColumns ==> s.state == old(s.state)
    ensures r.Ready? ==>
      r.columns == SelectedColumns(Constants.ColumnGroups, toggles) &&
      s.state == AfterReset(old(s.state), "ex_page", "ex_page_filter_hash", filterKey)
  {
    var columns := SelectColumns(Constants.ColumnGroups, toggles);
    if columns == [] {
      return NoColumns;
    }
    ResetPageOnFilterChange(s, "ex_page", "ex_page_filter_hash", filterKey);
    r := Ready(columns);
  }

  /** A table cell: lists and objects as JSON text, NULL as an em dash, anything else as is. */
  function DisplayCell(v: Value, dumps: Value -> string): (r: Value)
    ensures v.VNone? ==> r == VStr("—")
    ensures (v.VList? || v.VDict?) ==> r == VStr(dumps(v))
    ensures !(v.VNone? || v.VList? || v.VDict?) ==> r == v
  {
    match v
    case VList(_) => VStr(dumps(v))
    case VDict(_) => VStr(dumps(v))
    case VNone => VStr("—")
    case _ => v
  }

  /** The id column of the table: a text longer than 8 becomes its first 8 characters and an ellipsis. */
  function ShortTranscriptId(v: Value): (r: Value)
    ensures v.VStr? && |v.s| > 8 ==> r == VStr(v.s[..8] + "…")
    ensures !(v.VStr? && |v.s| > 8) ==> r == v
    ensures r.VStr? ==> |r.s| <= 9 || r == v
  {
    if v.VStr? && |v.s| > 8 then VStr(v.s[..8] + "…") else v
  }

  /** A shortened id keeps the first 8 characters and grows no longer than 9. */
  lemma ShortIdIsPrefix(id: string)
    ensures var r := ShortTranscriptId(VStr(id));
      r.VStr? && |r.s| <= 9 && (|id| <= 8 ==> r.s == id) && (|id| > 8 ==> r.s[..8] == id[..8])
  {
  }

  /** The abbreviations of the sub-scores, in the order they are listed. */
  const SubScoreLabels: seq<(string, string)> :=
    [("case_potential", "Case"), ("narrative_quality", "Narr"), ("agent_performance", "Agent"), ("completeness", "Compl")]

  /** `d.get(k) is not None`. */
  predicate Present(entries: seq<(string, Value)>, key: string) {
    DictGet(entries, key).Some? && !DictGet(entries, key).value.VNone?
  }

  /** The number of listed keys that are present. */
  function PresentCount(entries: seq<(string, Value)>, labels: seq<(string, string)>): (n: nat)
    ensures n <= |labels|
  {
    if |labels| == 0 then 0
    else (if Present(entries, labels[0].0) then 1 else 0) + PresentCount(entries, labels[1..])
  }

  /**
   * `f"{label}:{v}"` for every listed key present, in list order: one part per
   * present key and nothing else, the part of `labels[j]` at the index given
   * by the number of present keys before it.
   */
  function SubScoreParts(entries: seq<(string, Value)>, labels: seq<(string, string)>, show: Value -> string): (r: seq<string>)
    ensures |r| <= |labels|
    ensures |r| == 0 <==> forall j :: 0 <= j < |labels| ==> !Present(entries, labels[j].0)
    ensures |labels| > 0 && Present(entries, labels[0].0) ==>
      r[0] == labels[0].1 + ":" + show(DictGet(entries, labels[0].0).value)
    ensures |r| == PresentCount(entries, labels)
  {
    if |labels| == 0 then []
    else
      var rest := SubScoreParts(entries, labels[1..], show);
      assert forall j :: 1 <= j < |labels| ==> labels[j] == labels[1..][j - 1];
      if Present(entries, labels[0].0) then [labels[0].1 + ":" + show(DictGet(entries, labels[0].0).value)] + rest
      else rest
  }

  /**
   * The parts keep the order of the list: the part of a present `labels[j]`
   * sits at the index given by the number of present keys before it.
   */
  lemma {:induction false} SubScorePartsOrder(entries: seq<(string, Value)>, labels: seq<(string, string)>, show: Value -> string)
    ensures forall j :: 0 <= j < |labels| && Present(entries, labels[j].0) ==>
      PresentCount(entries, labels[..j]) < |SubScoreParts(entries, labels, show)| &&
      SubScoreParts(entries, labels, show)[PresentCount(entries, labels[..j])] == PartOf(entries, labels[j], show)
  {
    if |labels| > 0 {
      var r := SubScoreParts(entries, labels, show);
      var rest := SubScoreParts(entries, labels[1..], show);
      SubScorePartsOrder(entries, labels[1..], show);
      var head := if Present(entries, labels[0].0) then 1 else 0;
      assert r == (if head == 1 then [PartOf(entries, labels[0], show)] else []) + rest;
      forall j | 0 <= j < |labels| && Present(entries, labels[j].0)
        ensures PresentCount(entries, labels[..j]) < |r| && r[PresentCount(entries, labels[..j])] == PartOf(entries, labels[j], show)
      {
        if j > 0 {
          assert labels[j] == labels[1..][j - 1];
          assert labels[..j][0] == labels[0] && labels[..j][1..] == labels[1..][..j - 1];
          assert PresentCount(entries, labels[..j]) == head + PresentCount(entries, labels[1..][..j - 1]);
        } else {
          assert PresentCount(entries, labels[..0]) == 0;
        }
      }
    }
  }

  /**
   * `_fmt_sub_scores`: an em dash or NULL stays a dash; a text is parsed as JSON
   * (left as is when it is not JSON); anything that is not an object, and an
   * object with none of the four keys, is left as is.
   */
  function FmtSubScores(val: Value, parseJson: string -> Option<Value>, show: Value -> string): (r: Value)
    ensures val == VStr("—") || val.VNone? ==> r == VStr("—")
    ensures !(val == VStr("—") || val.VNone? || val.VStr? || val.VDict?) ==> r == val
    ensures val.VDict? ==>
      (r == val <==> forall j :: 0 <= j < |SubScoreLabels| ==> !Present(val.entries, SubScoreLabels[j].0))
    ensures val.VDict? && r != val ==> r == VStr(Join(SubScoreParts(val.entries, SubScoreLabels, show), " | "))
    ensures val.VStr? && val != VStr("—") ==>
      match parseJson(val.s)
      case Some(VDict(e)) =>
        if exists j :: 0 <= j < |SubScoreLabels| && Present(e, SubScoreLabels[j].0)
        then r == VStr(Join(SubScoreParts(e, SubScoreLabels, show), " | "))
        else r == val
      case _ => r == val
  {
    if val == VStr("—") || val.VNone? then VStr("—")
    else
      var d := if val.VStr? then parseJson(val.s) else Some(val);
      if d.None? || !d.value.VDict? then val
      else
        var parts := SubScoreParts(d.value.entries, SubScoreLabels, show);
        if |parts| > 0 then VStr(Join(parts, " | ")) else val
  }

  /** With all four scores present the cell lists them in the fixed order. */
  lemma AllFourSubScores(entries: seq<(string, Value)>, show: Value -> string)
    requires Present(entries, "case_potential") && Present(entries, "narrative_quality")
    requires Present(entries, "agent_performance") && Present(entries, "completeness")
    ensures SubScoreParts(entries, SubScoreLabels, show) ==
      ["Case:" + show(DictGet(entries, "case_potential").value),
       "Narr:" + show(DictGet(entries, "narrative_quality").value),
       "Agent:" + show(DictGet(entries, "agent_performance").value),
       "Compl:" + show(DictGet(entries, "completeness").value)]
  {
    var l := SubScoreLabels;
    assert l[0] == ("case_potential", "Case") && l[1] == ("narrative_quality", "Narr");
    assert l[2] == ("agent_performance", "Agent") && l[3] == ("completeness", "Compl");
    assert "Case" + ":" == "Case:" && "Narr" + ":" == "Narr:";
    assert "Agent" + ":" == "Agent:" && "Compl" + ":" == "Compl:";
    AllPresentParts(entries, l, show);
    var r := SubScoreParts(entries, l, show);
    var c := "Case:" + show(DictGet(entries, "case_potential").value);
    var n := "Narr:" + show(DictGet(entries, "narrative_quality").value);
    var a := "Agent:" + show(DictGet(entries, "agent_performance").value);
    var p := "Compl:" + show(DictGet(entries, "completeness").value);
    assert r[0] == c by { assert r[0] == PartOf(entries, l[0], show); }
    assert r[1] == n by { assert r[1] == PartOf(entries, l[1], show); }
    assert r[2] == a by { assert r[2] == PartOf(entries, l[2], show); }
    assert r[3] == p by { assert r[3] == PartOf(entries, l[3], show); }
    SeqOfFour(r, c, n, a, p);
  }

  /** A sequence of four given elements is their display. */
  lemma SeqOfFour<T>(r: seq<T>, a: T, b: T, c: T, d: T)
    requires |r| == 4 && r[0] == a && r[1] == b && r[2] == c && r[3] == d
    ensures r == [a, b, c, d]
  {
  }

  /** The part a present key contributes, `""` for an absent one. */
  function PartOf(entries: seq<(string, Value)>, lab: (string, string), show: Value -> string): string {
    if Present(entries, lab.0) then lab.1 + ":" + show(DictGet(entries, lab.0).value) else ""
  }

  /** When every key is present, each label gives its part, in list order. */
  lemma {:induction false} AllPresentParts(entries: seq<(string, Value)>, labels: seq<(string, string)>, show: Value -> string)
    requires forall j :: 0 <= j < |labels| ==> Present(entries, labels[j].0)
    ensures |SubScoreParts(entries, labels, show)| == |labels|
    ensures forall k :: 0 <= k < |labels| ==> SubScoreParts(entries, labels, show)[k] == PartOf(entries, labels[k], show)
  {
    if |labels| > 0 {
      AllPresentParts(entries, labels[1..], show);
    }
  }

  /** The select box label: `(x or "unknown")[:n] + suffix`, cut whatever the id's length. */
  function CallLabel(id: Option<string>, n: nat, suffix: string): (r: string)
    ensures |r| <= n + |suffix|
    ensures var shown := if id.None? || id.value == "" then "unknown" else id.value;
      r == Prefix(shown, n) + suffix
  {
    var shown := if id.None? || id.value == "" then "unknown" else id.value;
    Prefix(shown, n) + suffix
  }

  /** The label of this page: 8 characters and an ellipsis. */
  function ExplorerLabel(id: Option<string>): (r: string)
    ensures |r| <= 9
  {
    CallLabel(id, 8, "…")
  }

  /** A missing id reads as the start of `unknown`. */
  lemma MissingIdLabel()
    ensures ExplorerLabel(None) == "unknown…"
  {
    assert Prefix("unknown", 8) == "unknown";
  }

  /** `df["quality_score"] == 0`: pandas compares numerically, so `False` and `0.0` match too. */
  function IsZeroQuality(row: Row): (zero: bool)
    ensures zero ==> "quality_score" in row && !Truthy(row["quality_score"])
    ensures "quality_score" in row && row["quality_score"] == VInt(0) ==> zero
  {
    "quality_score" in row && row["quality_score"] in {VInt(0), VFloat(0.0), VBool(false)}
  }

  /**
   * The zero-quality notice: the number of such rows, shown only when the
   * frame has a `quality_score` column and some row matches.
   */
  function ZeroQualityNotice(rows: seq<Row>, hasColumn: bool): (r: Option<nat>)
    ensures r.Some? ==> hasColumn && r.value > 0
    ensures r.Some? ==> r.value == |Filter(rows, IsZeroQuality)|
    ensures r.None? ==> !hasColumn || forall i :: 0 <= i < |rows| ==> !IsZeroQuality(rows[i])
  {
    CountWhereIsFilterLength(rows, IsZeroQuality);
    var n := CountWhere(rows, IsZeroQuality);
    if hasColumn && n > 0 then Some(n)
    else
      assert forall i :: 0 <= i < |rows| ==> !IsZeroQuality(rows[i]) || rows[i] in Filter(rows, IsZeroQuality);
      None
  }
}
