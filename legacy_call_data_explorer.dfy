/**
 * `pages/4_Call_Data_Explorer.py`, the older explorer page: the same column
 * groups as the newer page, but no page reset, no row count (so the pager
 * never knows the last page) and a longer call label.
 */
module LegacyCallDataExplorer {
  import opened Wrappers
  import opened Strings
  import opened Ui
  import Constants
  import Pagination
  import CallDataExplorer

  /** The number of rows fetched per page (`limit=50`, the pager's default size). */
  const PageSize := 50

  /** The page's start: the same column loops, and a stop when no group is on; nothing is written. */
  method LegacyStart(toggles: map<string, bool>) returns (r: CallDataExplorer.Start)
    ensures r == CallDataExplorer.NoColumns <==>
      forall i :: 0 <= i < |Constants.ColumnGroups| ==> !CallDataExplorer.IsActive(toggles, Constants.ColumnGroups[i].0)
    ensures r.Ready? ==> r.columns == CallDataExplorer.SelectedColumns(Constants.ColumnGroups, toggles)
    ensures r.Ready? ==> NoDupColumns(r.columns)
  {
    var columns := CallDataExplorer.SelectColumns(Constants.ColumnGroups, toggles);
    CallDataExplorer.NoColumnsIffNoGroup(toggles);
    CallDataExplorer.SelectedColumnsFacts(Constants.ColumnGroups, toggles, "");
    if columns == [] {
      return CallDataExplorer.NoColumns;
    }
    r := CallDataExplorer.Ready(columns);
  }

  predicate NoDupColumns(columns: seq<string>) {
    forall i, j :: 0 <= i < j < |columns| ==> columns[i] != columns[j]
  }

  /**
   * `paginated_controls(total_label="rows", key="ex_page")` without a count:
   * the page count is unknown, so the stored page is used as is and only
   * Previous can ever rerun the script.
   */
  method LegacyPage(s: Session, prevClicked: bool, nextClicked: bool) returns (out: Pagination.Outcome)
    requires "ex_page" in s.state ==> s.state["ex_page"].VInt?
    modifies s
    ensures s.params == old(s.params)
    ensures var page := Pagination.StoredPage(old(s.state), "ex_page");
      if prevClicked && page != 0 then
        out == Pagination.Rerun && s.state == old(s.state)["ex_page" := PyValue.VInt(Pagination.Max(0, page - 1))]
      else
        out == Pagination.Shown(page * PageSize, page) && s.state == old(s.state)
  {
    out := Pagination.PaginatedControls(s, PageSize, "ex_page", None, prevClicked, nextClicked);
  }

  /** Without a count the pager never clamps and never enables Next, whatever the page. */
  lemma NextNeverEnabled(stored: int)
    ensures Pagination.TotalPages(None, PageSize) == None
    ensures Pagination.ClampPage(stored, Pagination.TotalPages(None, PageSize)) == stored
    ensures Pagination.IsLastPage(stored, Pagination.TotalPages(None, PageSize))
  {
  }

  /** The select box label of this page: 16 characters and three dots. */
  function LegacyLabel(id: Option<string>): (r: string)
    ensures 3 <= |r| <= 19 && r[|r| - 3..] == "..."
    ensures id.Some? && |id.value| >= 16 ==> r == id.value[..16] + "..."
    ensures id.Some? && 0 < |id.value| < 16 ==> r == id.value + "..."
  {
    CallDataExplorer.CallLabel(id, 16, "...")
  }

  /** A missing or empty id reads as `unknown...`. */
  lemma LegacyMissingIdLabel(id: Option<string>)
    requires id.None? || id.value == ""
    ensures LegacyLabel(id) == "unknown..."
  {
    assert Prefix("unknown", 16) == "unknown";
  }
}
