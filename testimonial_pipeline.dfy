/**
 * `app_pages/8_Testimonial_Pipeline.py`: the kanban board of testimonial
 * candidates. Items are put into one column per active status or into the
 * declined list; a card moves one step along the status chain, can be
 * declined while still early in the chain, and a declined item can be
 * restored to the start.
 */
module TestimonialPipeline {
  import opened Wrappers
  import opened PyValue
  import opened Strings
  import opened Seqs
  import Queries
  import Database
  import Postgrest
  import Cards

  /** `KANBAN_STATUSES`, the columns of the board in display order. */
  const KanbanStatuses: seq<string> := ["flagged", "contacted", "scheduled", "recorded", "published"]

  /** `NEXT_STATUS.get(status)`. */
  function NextStatus(status: string): (r: Option<string>)
    ensures r.Some? <==> status in ["flagged", "contacted", "scheduled", "recorded"]
  {
    if status == "flagged" then Some("contacted")
    else if status == "contacted" then Some("scheduled")
    else if status == "scheduled" then Some("recorded")
    else if status == "recorded" then Some("published")
    else None
  }

  /**
   * The chain is linear: each column but the last moves to the column to
   * its right, the last one and `declined` have no successor, and no move
   * leads back to `flagged` or to `declined`.
   */
  lemma NextStatusChain(status: string)
    ensures forall i :: 0 <= i < 4 ==> NextStatus(KanbanStatuses[i]) == Some(KanbanStatuses[i + 1])
    ensures NextStatus("published") == None && NextStatus("declined") == None
    ensures NextStatus(status).Some? ==> NextStatus(status).value in KanbanStatuses[1..]
  {
  }

  /** Four moves take a flagged item to published. */
  lemma FourStepsToPublished()
    ensures NextStatus(NextStatus(NextStatus(NextStatus("flagged").value).value).value) == Some("published")
  {
  }

  /** The select boxes: `"All"` applies no filter. */
  function Choice(selected: string): (r: Option<string>)
    ensures r.None? <==> selected == "All"
    ensures r.Some? ==> r.value == selected
  {
    if selected == "All" then None else Some(selected)
  }

  /** The pipeline query of the page for the two select boxes. */
  function BoardQuery(statusChoice: string, typeChoice: string): (q: Postgrest.Query)
    ensures statusChoice == "All" && typeChoice == "All" ==> q.preds == []
    ensures q == Queries.PipelineQuery(Choice(statusChoice), Choice(typeChoice))
  {
    Queries.PipelineQuery(Choice(statusChoice), Choice(typeChoice))
  }

  /** `item.get("status", "flagged")`. */
  function StatusOf(item: Row): (status: Value)
    ensures "status" in item ==> status == item["status"]
    ensures "status" !in item ==> status == VStr("flagged")
  {
    Get(item, "status", VStr("flagged"))
  }

  /** Where the bucketing loop puts an item. */
  datatype Place = Declined | Column(status: string) | Dropped

  function PlaceOf(item: Row): (p: Place)
    ensures p.Column? ==> p.status in KanbanStatuses
  {
    var s := StatusOf(item);
    if s == VStr("declined") then Declined
    else if s.VStr? && s.s in KanbanStatuses then Column(s.s)
    else Dropped
  }

  /**
   * An item without a status counts as flagged; a NULL or unknown status
   * puts it nowhere, since neither equals `declined` nor is a column.
   */
  lemma PlaceCases(item: Row)
    ensures "status" !in item ==> PlaceOf(item) == Column("flagged")
    ensures "status" in item && item["status"] == VNone ==> PlaceOf(item) == Dropped
    ensures "status" in item && item["status"].VStr? && item["status"].s !in KanbanStatuses + ["declined"] ==>
      PlaceOf(item) == Dropped
  {
  }

  /** The items the loop appends to one place, in their order. */
  function ItemsAt(items: seq<Row>, p: Place): (at: seq<Row>)
    ensures |at| <= |items|
    ensures forall item :: item in at <==> item in items && PlaceOf(item) == p
  {
    Filter(items, (item: Row) => PlaceOf(item) == p)
  }

  /** The board after the loop: every column starts empty and receives its items. */
  function Board(items: seq<Row>): (board: map<string, seq<Row>>)
    ensures forall s :: s in board <==> s in KanbanStatuses
    ensures forall s, item :: s in board && item in board[s] ==> item in items && StatusOf(item) == VStr(s)
    ensures forall s, item :: s in board && item in items && StatusOf(item) == VStr(s) ==> item in board[s]
  {
    map s | s in KanbanStatuses :: ItemsAt(items, Column(s))
  }

  /** The bucketing loop over `all_items`. */
  method Bucket(items: seq<Row>) returns (byStatus: map<string, seq<Row>>, declined: seq<Row>)
    ensures byStatus == Board(items)
    ensures declined == ItemsAt(items, Declined)
  {
    byStatus := map s | s in KanbanStatuses :: [];
    declined := [];
    var i := 0;
    while i < |items|
      invariant 0 <= i <= |items|
      invariant byStatus == Board(items[..i])
      invariant declined == ItemsAt(items[..i], Declined)
    {
      var item := items[i];
      BucketStep(items, i);
      var s := StatusOf(item);
      if s == VStr("declined") {
        declined := declined + [item];
      } else if s.VStr? && s.s in byStatus {
        byStatus := byStatus[s.s := byStatus[s.s] + [item]];
      }
      i := i + 1;
    }
    assert items[..|items|] == items;
  }

  /** The board and the declined list after one more item of `items`. */
  lemma BucketStep(items: seq<Row>, i: nat)
    requires i < |items|
    ensures var item := items[i];
      var p := PlaceOf(item);
      Board(items[..i + 1]) ==
        (if p.Column? then Board(items[..i])[p.status := Board(items[..i])[p.status] + [item]] else Board(items[..i])) &&
      ItemsAt(items[..i + 1], Declined) ==
        ItemsAt(items[..i], Declined) + (if p == Declined then [item] else [])
  {
    assert items[..i + 1] == items[..i] + [items[i]];
    BoardAppend(items[..i], items[i]);
  }

  /** One more item extends exactly the place it belongs to. */
  lemma BoardAppend(prefix: seq<Row>, item: Row)
    ensures var p := PlaceOf(item);
      Board(prefix + [item]) ==
        (if p.Column? then Board(prefix)[p.status := Board(prefix)[p.status] + [item]] else Board(prefix))
    ensures ItemsAt(prefix + [item], Declined) ==
      ItemsAt(prefix, Declined) + (if PlaceOf(item) == Declined then [item] else [])
  {
    var all := prefix + [item];
    var p := PlaceOf(item);
    ItemsAtAppend(prefix, item, Declined);
    forall s | s in KanbanStatuses ensures Board(all)[s] == Board(prefix)[s] + (if p == Column(s) then [item] else []) {
      ItemsAtAppend(prefix, item, Column(s));
    }
    BoardKeys(all, prefix, item);
  }

  /** A board whose columns grew by the item only where it belongs is the updated board. */
  lemma BoardKeys(all: seq<Row>, prefix: seq<Row>, item: Row)
    requires forall s | s in KanbanStatuses :: Board(all)[s] == Board(prefix)[s] + (if PlaceOf(item) == Column(s) then [item] else [])
    ensures var p := PlaceOf(item);
      Board(all) == (if p.Column? then Board(prefix)[p.status := Board(prefix)[p.status] + [item]] else Board(prefix))
  {
    var p := PlaceOf(item);
    var col := if p.Column? then Some(p.status) else None;
    assert Board(all).Keys == Board(prefix).Keys;
    forall s | s in Board(prefix) ensures Board(all)[s] == Board(prefix)[s] + (if col == Some(s) then [item] else []) {
      assert (p == Column(s)) == (col == Some(s));
    }
    GrownMap(Board(all), Board(prefix), col, item);
  }

  /** A map that grew by `x` at the key `col` alone, and nowhere when there is none, is the update. */
  lemma GrownMap<V>(lhs: map<string, seq<V>>, base: map<string, seq<V>>, col: Option<string>, x: V)
    requires lhs.Keys == base.Keys && (col.Some? ==> col.value in base)
    requires forall s | s in base :: lhs[s] == base[s] + (if col == Some(s) then [x] else [])
    ensures lhs == if col.Some? then base[col.value := base[col.value] + [x]] else base
  {
    var rhs := if col.Some? then base[col.value := base[col.value] + [x]] else base;
    assert lhs.Keys == rhs.Keys;
    forall s | s in rhs ensures lhs[s] == rhs[s] {
      assert s in base;
      if col == Some(s) {
        assert rhs[s] == base[s] + [x];
      } else {
        assert rhs[s] == base[s] + [];
      }
    }
  }

  lemma ItemsAtAppend(prefix: seq<Row>, item: Row, q: Place)
    ensures ItemsAt(prefix + [item], q) == ItemsAt(prefix, q) + (if PlaceOf(item) == q then [item] else [])
  {
    var all := prefix + [item];
    assert all[..|all| - 1] == prefix;
  }

  /** The number of items placed somewhere. */
  function PlacedCount(items: seq<Row>): nat {
    CountWhere(items, (item: Row) => !PlaceOf(item).Dropped?)
  }

  /**
   * Every item lands in at most one place: the declined list and the five
   * columns together hold exactly the items that were not dropped, each
   * once, and never more than there are items.
   */
  lemma {:induction false} BucketsPartition(items: seq<Row>)
    ensures |ItemsAt(items, Declined)| + |ItemsAt(items, Column("flagged"))| + |ItemsAt(items, Column("contacted"))| +
      |ItemsAt(items, Column("scheduled"))| + |ItemsAt(items, Column("recorded"))| +
      |ItemsAt(items, Column("published"))| == PlacedCount(items)
    ensures PlacedCount(items) <= |items|
  {
    if |items| > 0 {
      var init := items[..|items| - 1];
      var last := items[|items| - 1];
      BucketsPartition(init);
      assert init + [last] == items;
      forall q: Place ensures |ItemsAt(items, q)| == |ItemsAt(init, q)| + (if PlaceOf(last) == q then 1 else 0) {
        ItemsAtAppend(init, last, q);
      }
      assert PlacedCount(items) == PlacedCount(init) + (if PlaceOf(last).Dropped? then 0 else 1);
      OnePlace(PlaceOf(last));
    }
  }

  /** A placed item is in exactly one of the six places. */
  lemma OnePlace(p: Place)
    requires p.Column? ==> p.status in KanbanStatuses
    ensures (if p == Declined then 1 else 0) + (if p == Column("flagged") then 1 else 0) +
      (if p == Column("contacted") then 1 else 0) + (if p == Column("scheduled") then 1 else 0) +
      (if p == Column("recorded") then 1 else 0) + (if p == Column("published") then 1 else 0) ==
      if p.Dropped? then 0 else 1
  {
  }

  /** A column renders at most its first 20 items, `items[:20]`. */
  function ShownItems(items: seq<Row>): (r: seq<Row>)
    ensures |r| == if |items| < 20 then |items| else 20
    ensures r == items[..|r|]
  {
    Prefix(items, 20)
  }

  /** Decline is offered in the early columns only. */
  function DeclineOffered(status: string): (offered: bool)
    ensures offered <==> status in KanbanStatuses[..3]
  {
    assert KanbanStatuses[..3] == ["flagged", "contacted", "scheduled"];
    status in ["flagged", "contacted", "scheduled"]
  }

  /** A column offering Decline also offers a move, and the last two columns offer no Decline. */
  lemma DeclineOnlyEarly(status: string)
    ensures DeclineOffered(status) ==> NextStatus(status).Some? && NextStatus(status).value != "published"
    ensures !DeclineOffered("recorded") && !DeclineOffered("published")
  {
  }

  /** `item.get("source_transcript_id", "")` as the text the page puts into keys and updates. */
  function SidOf(item: Row, str: Value -> string): (sid: string)
    ensures "source_transcript_id" !in item ==> sid == ""
    ensures "source_transcript_id" in item && item["source_transcript_id"].VStr? ==> sid == item["source_transcript_id"].s
  {
    Text(Get(item, "source_transcript_id", VStr("")), str)
  }

  /** The Move button: the update to the next status, with no notes. */
  method MoveCard(item: Row, status: string, str: Value -> string, now: string) returns (u: Option<Database.Update>)
    ensures u.None? <==> NextStatus(status).None?
    ensures u.Some? ==> u.value.data == Queries.StatusData(NextStatus(status).value, now, Queries.DefaultUpdatedBy, None)
    ensures u.Some? ==> u.value.preds == [Postgrest.Cmp(Postgrest.EqOp, "source_transcript_id", VStr(SidOf(item, str)))]
  {
    var next := NextStatus(status);
    if next.None? {
      return None;
    }
    var w := Queries.UpdateTestimonialStatus(SidOf(item, str), next.value, Queries.DefaultUpdatedBy, None, now);
    u := Some(w);
  }

  /**
   * The Decline button: the update to `declined` carrying the text of the
   * reason box, even an empty one; offered only in the early columns.
   */
  method DeclineCard(state: map<string, Value>, item: Row, status: string, str: Value -> string, now: string)
    returns (u: Option<Database.Update>)
    ensures u.None? <==> !DeclineOffered(status)
    ensures u.Some? ==>
      var notes := Text(Get(state, "decline_notes_" + SidOf(item, str), VStr("")), str);
      u.value.data == Queries.StatusData("declined", now, Queries.DefaultUpdatedBy, Some(notes))
    ensures u.Some? ==> u.value.preds == [Postgrest.Cmp(Postgrest.EqOp, "source_transcript_id", VStr(SidOf(item, str)))]
  {
    if !DeclineOffered(status) {
      return None;
    }
    var sid := SidOf(item, str);
    var notes := Text(Get(state, "decline_notes_" + sid, VStr("")), str);
    var w := Queries.UpdateTestimonialStatus(sid, "declined", Queries.DefaultUpdatedBy, Some(notes), now);
    u := Some(w);
  }

  /** The Restore button of a declined item: back to `flagged`, with no notes. */
  method RestoreCard(item: Row, str: Value -> string, now: string) returns (u: Database.Update)
    ensures u.data == Queries.StatusData("flagged", now, Queries.DefaultUpdatedBy, None)
    ensures u.preds == [Postgrest.Cmp(Postgrest.EqOp, "source_transcript_id", VStr(SidOf(item, str)))]
  {
    u := Queries.UpdateTestimonialStatus(SidOf(item, str), "flagged", Queries.DefaultUpdatedBy, None, now);
  }

  /**
   * Restoring writes no `notes` entry, so the decline reason stays on the
   * row; declining always writes one.
   */
  lemma RestoreKeepsNotes(now: string, notes: string)
    ensures forall e :: e in Queries.StatusData("flagged", now, Queries.DefaultUpdatedBy, None) ==> e.0 != "notes"
    ensures ("notes", VStr(notes)) in Queries.StatusData("declined", now, Queries.DefaultUpdatedBy, Some(notes))
  {
    var d := Queries.StatusData("flagged", now, Queries.DefaultUpdatedBy, None);
    assert d == d[..3];
  }

  /** The quote line of a declined item: its first 80 characters, then `...` whatever its length. */
  function DeclinedQuote(quote: string): (r: Option<string>)
    ensures r.None? <==> quote == ""
    ensures r.Some? ==> r.value == "*\"" + Prefix(quote, 80) + "...\"*"
  {
    if quote == "" then None else Some("*\"" + Prefix(quote, 80) + "...\"*")
  }

  /** Unlike the card's cut, the declined list adds the dots to a short quote too. */
  lemma DeclinedDotsAlways(quote: string)
    requires 0 < |quote| <= 80
    ensures DeclinedQuote(quote).value == "*\"" + quote + "...\"*"
    ensures Cards.Truncate(quote, 80) == quote
  {
    assert Prefix(quote, 80) == quote;
  }
}
