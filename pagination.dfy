/**
 * `components/pagination.py`: the page arithmetic of `paginated_controls`
 * and its Previous / Next buttons, which store the new page in
 * `st.session_state[key]` and rerun the script.
 */
module Pagination {
  import opened Wrappers
  import opened PyValue
  import opened Strings
  import opened Ui

  /** `math.ceil(a / b)` for a non-zero divisor. */
  function CeilDiv(a: int, b: int): (r: int)
    requires b != 0
    ensures b > 0 ==> (r - 1) * b < a <= r * b
    ensures b < 0 ==> r * b <= a < (r - 1) * b
  {
    if b > 0 then -((-a) / b) else -(a / (-b))
  }

  /** `total_pages`: defined only for a given, positive count and a non-zero page size. */
  function TotalPages(totalCount: Option<int>, pageSize: int): (r: Option<int>)
    ensures r.Some? <==> totalCount.Some? && totalCount.value > 0 && pageSize != 0
    ensures r.Some? && pageSize > 0 ==>
      r.value >= 1 && (r.value - 1) * pageSize < totalCount.value <= r.value * pageSize
  {
    if totalCount.Some? && totalCount.value > 0 && pageSize != 0 then Some(CeilDiv(totalCount.value, pageSize))
    else None
  }

  function Max(a: int, b: int): int {
    if a >= b then a else b
  }

  function Min(a: int, b: int): int {
    if a <= b then a else b
  }

  /** `min(page, max(0, total_pages - 1))` when the page count is known. */
  function ClampPage(stored: int, totalPages: Option<int>): (page: int)
    ensures totalPages.None? ==> page == stored
    ensures totalPages.Some? ==> page <= stored && page <= Max(0, totalPages.value - 1)
    ensures totalPages.Some? && stored >= 0 ==> page >= 0
    ensures totalPages.Some? && stored <= totalPages.value - 1 ==> page == stored
  {
    if totalPages.Some? then Min(stored, Max(0, totalPages.value - 1)) else stored
  }

  /** `is_last_page`: Next is disabled without a page count or on the last page. */
  function IsLastPage(page: int, totalPages: Option<int>): (last: bool)
    ensures !last <==> totalPages.Some? && page + 1 < totalPages.value
  {
    totalPages.None? || page >= totalPages.value - 1
  }

  /** The stored page, `st.session_state.get(key, 0)`. */
  function StoredPage(state: map<string, Value>, key: string): (page: int)
    requires key in state ==> state[key].VInt?
    ensures key in state ==> state[key] == VInt(page)
    ensures key !in state ==> page == 0
  {
    if key in state then state[key].i else 0
  }

  /** The three digits of `k`, zero-padded. */
  function Pad3(k: nat): (r: string)
    requires k < 1000
    ensures |r| == 3
  {
    [Digit(k / 10 / 10), Digit(k / 10 % 10), Digit(k % 10)]
  }

  /** `f"{n:,}"`: the decimal digits in groups of three separated by commas. */
  function Thousands(n: nat): (r: string)
    ensures |r| > 0
  {
    if n < 1000 then NatToString(n) else Thousands(n / 1000) + "," + Pad3(n % 1000)
  }

  /** The text between the two buttons. */
  function InfoText(totalLabel: string, totalCount: Option<int>, totalPages: Option<int>, page: int): (r: string)
    ensures totalCount == Some(0) ==> r == "0 " + totalLabel
    ensures totalCount != Some(0) ==> |r| > 5 && r[..5] == "Page "
  {
    if totalCount.Some? && totalCount.value == 0 then "0 " + totalLabel
    else
      var head := "Page " + IntToString(page + 1);
      if totalCount.Some? && totalPages.Some? then
        var count := if totalCount.value >= 0 then Thousands(totalCount.value) else IntToString(totalCount.value);
        head + (" of " + IntToString(totalPages.value) + " &middot; " + count) + (" " + totalLabel)
      else head
  }

  /**
   * The shape of the info text: a zero count is shown alone, any other text
   * starts with the page number, and with both totals it ends with the label.
   */
  lemma InfoTextShape(totalLabel: string, totalCount: Option<int>, totalPages: Option<int>, page: int)
    ensures var r := InfoText(totalLabel, totalCount, totalPages, page);
      (totalCount == Some(0) ==> r == "0 " + totalLabel) &&
      (totalCount != Some(0) ==>
        var head := "Page " + IntToString(page + 1);
        |head| <= |r| && r[..|head|] == head) &&
      (totalCount.Some? && totalCount.value != 0 && totalPages.Some? ==>
        |totalLabel| < |r| && r[|r| - |totalLabel| - 1..] == " " + totalLabel) &&
      ((totalCount.None? || totalPages.None?) && totalCount != Some(0) ==> r == "Page " + IntToString(page + 1))
  {
    if totalCount != Some(0) {
      var head := "Page " + IntToString(page + 1);
      if totalCount.Some? && totalPages.Some? {
        var count := if totalCount.value >= 0 then Thousands(totalCount.value) else IntToString(totalCount.value);
        Concat3Ends(head, " of " + IntToString(totalPages.value) + " &middot; " + count, " " + totalLabel);
      } else {
        assert head[..|head|] == head;
      }
    }
  }

  /** A text joined from three parts starts with the first and ends with the last. */
  lemma Concat3Ends(a: string, b: string, c: string)
    ensures (a + b + c)[..|a|] == a
    ensures (a + b + c)[|a + b + c| - |c|..] == c
  {
    assert (a + b + c)[..|a|] == a;
    assert (a + b + c)[|a + b + c| - |c|..] == c;
  }

  /** What the page sees after `paginated_controls`: a rerun after a click, or the offset and page. */
  datatype Outcome = Rerun | Shown(offset: int, page: int)

  /**
   * `paginated_controls`. A click on an enabled button stores the new page
   * and reruns; Previous is drawn first, so it wins when both are reported.
   * Without a click the stored page is left alone, even when the clamp
   * moved the page shown.
   */
  method PaginatedControls(s: Session, pageSize: int, key: string, totalCount: Option<int>,
                           prevClicked: bool, nextClicked: bool)
    returns (out: Outcome)
    requires key in s.state ==> s.state[key].VInt?
    modifies s
    ensures s.params == old(s.params)
    ensures var page := ClampPage(StoredPage(old(s.state), key), TotalPages(totalCount, pageSize));
      if prevClicked && page != 0 then
        out == Rerun && s.state == old(s.state)[key := VInt(Max(0, page - 1))]
      else if nextClicked && !IsLastPage(page, TotalPages(totalCount, pageSize)) then
        out == Rerun && s.state == old(s.state)[key := VInt(page + 1)]
      else
        out == Shown(page * pageSize, page) && s.state == old(s.state)
  {
    var page := if key in s.state then s.state[key].i else 0;
    var totalPages := TotalPages(totalCount, pageSize);
    if totalPages.Some? {
      page := Min(page, Max(0, totalPages.value - 1));
    }
    var isLastPage := totalPages.None? || page >= totalPages.value - 1;
    if prevClicked && page != 0 {
      s.state := s.state[key := VInt(Max(0, page - 1))];
      return Rerun;
    }
    if nextClicked && !isLastPage {
      s.state := s.state[key := VInt(page + 1)];
      return Rerun;
    }
    out := Shown(page * pageSize, page);
  }

  /** With a page count the page shown lies in `[0, total_pages - 1]` and its offset is not negative. */
  lemma PageInRange(stored: int, totalCount: Option<int>, pageSize: int)
    requires stored >= 0 && pageSize > 0
    requires TotalPages(totalCount, pageSize).Some?
    ensures var tp := TotalPages(totalCount, pageSize).value;
      var page := ClampPage(stored, Some(tp));
      0 <= page <= tp - 1 && 0 <= page * pageSize < totalCount.value
  {
    var tp := TotalPages(totalCount, pageSize).value;
    var page := ClampPage(stored, Some(tp));
    assert page <= tp - 1;
    assert page * pageSize <= (tp - 1) * pageSize;
  }

  /** 95 rows of 20 make 5 pages; a stored page 10 shows page 4 at offset 80. */
  lemma NinetyFiveRows()
    ensures TotalPages(Some(95), 20) == Some(5)
    ensures ClampPage(10, Some(5)) == 4 && 4 * 20 == 80
  {
    assert CeilDiv(95, 20) == 5;
  }

  /**
   * Next is enabled only below the last page, so the page it stores is still
   * a page; without a count (or with a zero count) it is never enabled.
   */
  lemma NextStaysInRange(page: int, totalCount: Option<int>, pageSize: int)
    ensures !IsLastPage(page, TotalPages(totalCount, pageSize)) ==>
      page + 1 <= TotalPages(totalCount, pageSize).value - 1
    ensures totalCount.None? || totalCount.value == 0 ==> IsLastPage(page, TotalPages(totalCount, pageSize))
  {
  }

  /** A zero count shows `0 <label>` instead of a page number. */
  lemma ZeroCountText(totalLabel: string, totalPages: Option<int>, page: int)
    ensures InfoText(totalLabel, Some(0), totalPages, page) == "0 " + totalLabel
  {
  }

  lemma ThreeDigits(n: nat)
    ensures n / 10 / 10 / 10 == n / 1000
    ensures n % 1000 / 10 / 10 == n / 10 / 10 % 10
    ensures n % 1000 / 10 % 10 == n / 10 % 10
    ensures n % 1000 % 10 == n % 10
  {
  }

  /** The last three digits of a number of at least 1000. */
  lemma NatToStringSplit(n: nat)
    requires n >= 1000
    ensures NatToString(n) == NatToString(n / 1000) + Pad3(n % 1000)
  {
    var n1 := n / 10;
    var n2 := n1 / 10;
    ThreeDigits(n);
    assert NatToString(n) == NatToString(n1) + [Digit(n % 10)];
    assert NatToString(n1) == NatToString(n2) + [Digit(n1 % 10)];
    assert NatToString(n2) == NatToString(n2 / 10) + [Digit(n2 % 10)];
  }

  /** Dropping the separators gives back the plain decimal text. */
  lemma {:induction false} ThousandsDigits(n: nat)
    ensures ReplaceChar(Thousands(n), ',', "") == NatToString(n)
  {
    if n >= 1000 {
      ThousandsDigits(n / 1000);
      NatToStringSplit(n);
      var head := Thousands(n / 1000);
      ReplaceCharAppend(head + ",", Pad3(n % 1000), ',', "");
      ReplaceCharAppend(head, ",", ',', "");
      assert ReplaceChar(",", ',', "") == "" by {
        assert ","[..0] == [];
      }
      assert forall i :: 0 <= i < 3 ==> Pad3(n % 1000)[i] in "0123456789";
    } else {
      assert forall i :: 0 <= i < |NatToString(n)| ==> NatToString(n)[i] in "0123456789" by {
        DigitsOnly(n);
      }
    }
  }

  lemma {:induction false} DigitsOnly(n: nat)
    ensures forall i :: 0 <= i < |NatToString(n)| ==> NatToString(n)[i] in "0123456789"
  {
    if n >= 10 {
      DigitsOnly(n / 10);
    }
  }
}
