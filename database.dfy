/**
 * `utils/database.py`: the generic table query with its filter dictionary,
 * the row update, and the distinct-values lookup.
 */
module Database {
  import opened Wrappers
  import opened PyValue
  import opened Strings
  import opened Seqs
  import opened Postgrest

  /** A value of the `filters` dictionary: a plain value, or an `(op, value)` tuple. */
  datatype FilterValue = Plain(v: Value) | OpPair(op: string, v: Value)

  /** The operator names `query_table` dispatches on; `"eq"` is not among them. */
  function OpNamed(name: string): Option<Op> {
    if name == "gte" then Some(GteOp)
    else if name == "lte" then Some(LteOp)
    else if name == "gt" then Some(GtOp)
    else if name == "lt" then Some(LtOp)
    else if name == "neq" then Some(NeqOp)
    else if name == "like" then Some(LikeOp)
    else if name == "ilike" then Some(IlikeOp)
    else if name == "in" then Some(InOp)
    else if name == "not.is" then Some(NotIsOp)
    else if name == "is" then Some(IsOp)
    else None
  }

  /** The filter one dictionary entry adds, if any. */
  function EntryPred(col: string, fv: FilterValue): (r: Option<Pred>)
    ensures r.Some? ==> r.value.Cmp? && r.value.col == col && r.value.arg == fv.v
    ensures fv.Plain? ==> r == Some(Cmp(EqOp, col, fv.v))
    ensures fv.OpPair? ==> (r.Some? <==> OpNamed(fv.op).Some?)
  {
    match fv
    case Plain(v) => Some(Cmp(EqOp, col, v))
    case OpPair(op, v) =>
      match OpNamed(op)
      case Some(o) => Some(Cmp(o, col, v))
      case None => None
  }

  /** The filters a dictionary compiles to, entry by entry in dictionary order. */
  function Compiled(filters: seq<(string, FilterValue)>): (r: seq<Pred>)
    ensures |r| <= |filters|
    ensures forall j :: 0 <= j < |r| ==> r[j].Cmp?
  {
    if |filters| == 0 then []
    else
      var last := filters[|filters| - 1];
      Compiled(filters[..|filters| - 1]) +
        (match EntryPred(last.0, last.1) case Some(p) => [p] case None => [])
  }

  /** `if order:` — `"-col"` sorts descending on `col`, any other text ascending on itself. */
  function OrderFor(order: Option<string>): (r: seq<Order>)
    ensures |r| <= 1
    ensures r == [] <==> order.None? || order.value == ""
  {
    match order
    case None => []
    case Some(o) =>
      if o == "" then []
      else if o[0] == '-' then [Order(o[1..], true)]
      else [Order(o, false)]
  }

  /** `limit or 50`. */
  function PageSize(limit: Option<int>): int {
    match limit
    case None => 50
    case Some(n) => if n == 0 then 50 else n
  }

  /** The row window: an offset (even 0) wins over a bare limit. */
  function WindowFor(limit: Option<int>, offset: Option<int>): (w: Window)
    ensures offset.Some? ==>
      w.Range? && w.first == offset.value &&
      RequestedRows(w) == Some(if PageSize(limit) < 0 then 0 else PageSize(limit))
    ensures offset.None? && limit.Some? ==> RequestedRows(w) == Some(if limit.value < 0 then 0 else limit.value)
    ensures offset.None? && limit.None? ==> RequestedRows(w) == None
  {
    match offset
    case Some(o) => Range(o, o + PageSize(limit) - 1)
    case None =>
      match limit
      case Some(n) => Limit(n)
      case None => Unbounded
  }

  /** `query_table`: build the request that is then executed. */
  method QueryTable(table: string, select: string, filters: seq<(string, FilterValue)>,
                    order: Option<string>, limit: Option<int>, offset: Option<int>)
    returns (q: Query)
    ensures q == Query(table, select, false, Compiled(filters), OrderFor(order), WindowFor(limit, offset))
  {
    q := From(table, select, false);
    var i := 0;
    while i < |filters|
      invariant 0 <= i <= |filters|
      invariant q == Query(table, select, false, Compiled(filters[..i]), [], Unbounded)
    {
      assert filters[..i + 1][..i] == filters[..i];
      var (col, val) := filters[i];
      match val {
        case Plain(v) =>
          q := Where(q, Cmp(EqOp, col, v));
        case OpPair(op, v) =>
          var o := OpNamed(op);
          if o.Some? {
            q := Where(q, Cmp(o.value, col, v));
          }
      }
      i := i + 1;
    }
    assert filters[..|filters|] == filters;
    if order.Some? && order.value != "" {
      var o := order.value;
      if o[0] == '-' {
        q := OrderBy(q, o[1..], true);
      } else {
        q := OrderBy(q, o, false);
      }
    }
    if offset.Some? {
      q := q.(window := Range(offset.value, offset.value + PageSize(limit) - 1));
    } else if limit.Some? {
      q := q.(window := Limit(limit.value));
    }
  }

  /** A row passes the compiled filters iff it satisfies the filter of every entry that adds one. */
  lemma {:induction false} CompiledMeaning(filters: seq<(string, FilterValue)>, row: Row)
    ensures Matches(row, Compiled(filters)) <==>
      forall i :: 0 <= i < |filters| && EntryPred(filters[i].0, filters[i].1).Some? ==>
        Holds(row, EntryPred(filters[i].0, filters[i].1).value)
  {
    if |filters| > 0 {
      var init := filters[..|filters| - 1];
      var last := filters[|filters| - 1];
      CompiledMeaning(init, row);
      var extra: seq<Pred> := match EntryPred(last.0, last.1) case Some(p) => [p] case None => [];
      assert Compiled(filters) == Compiled(init) + extra;
      assert forall i :: 0 <= i < |init| ==> init[i] == filters[i];
    }
  }

  /**
   * Each entry adds at most one filter, and only its own: every compiled
   * filter is the filter of some entry, hence on that entry's column.
   */
  lemma {:induction false} CompiledColumns(filters: seq<(string, FilterValue)>)
    ensures |Compiled(filters)| <= |filters|
    ensures forall j :: 0 <= j < |Compiled(filters)| ==>
      exists i :: 0 <= i < |filters| && EntryPred(filters[i].0, filters[i].1) == Some(Compiled(filters)[j])
    ensures forall p :: p in Compiled(filters) ==>
      exists i :: 0 <= i < |filters| && p.Cmp? && p.col == filters[i].0
  {
    if |filters| > 0 {
      var init := filters[..|filters| - 1];
      var last := filters[|filters| - 1];
      CompiledColumns(init);
      var extra: seq<Pred> := match EntryPred(last.0, last.1) case Some(p) => [p] case None => [];
      assert Compiled(filters) == Compiled(init) + extra;
      assert forall i :: 0 <= i < |init| ==> init[i] == filters[i];
      forall j | 0 <= j < |Compiled(filters)|
        ensures exists i :: 0 <= i < |filters| && EntryPred(filters[i].0, filters[i].1) == Some(Compiled(filters)[j])
      {
        if j < |Compiled(init)| {
          assert Compiled(filters)[j] == Compiled(init)[j];
        } else {
          assert EntryPred(filters[|filters| - 1].0, filters[|filters| - 1].1) == Some(Compiled(filters)[j]);
        }
      }
    }
  }

  /**
   * With the distinct keys of a dictionary, no two compiled filters share a
   * column: each column carries at most one predicate.
   */
  lemma {:induction false} CompiledColumnsDistinct(filters: seq<(string, FilterValue)>)
    requires forall i, j :: 0 <= i < j < |filters| ==> filters[i].0 != filters[j].0
    ensures forall j :: 0 <= j < |Compiled(filters)| ==> Compiled(filters)[j].Cmp?
    ensures forall j, k :: 0 <= j < k < |Compiled(filters)| ==> Compiled(filters)[j].col != Compiled(filters)[k].col
  {
    if |filters| > 0 {
      var init := filters[..|filters| - 1];
      var last := filters[|filters| - 1];
      assert forall i :: 0 <= i < |init| ==> init[i] == filters[i];
      CompiledColumnsDistinct(init);
      CompiledColumns(init);
      var extra: seq<Pred> := match EntryPred(last.0, last.1) case Some(p) => [p] case None => [];
      assert Compiled(filters) == Compiled(init) + extra;
      if extra != [] {
        forall j | 0 <= j < |Compiled(init)|
          ensures Compiled(init)[j].col != last.0
        {
          var i :| 0 <= i < |init| && EntryPred(init[i].0, init[i].1) == Some(Compiled(init)[j]);
          assert init[i].0 != last.0;
        }
      }
    }
  }

  /** A plain value compiles to `eq`; a tuple with a name outside the dispatch (even `"eq"`) adds nothing. */
  lemma EntryPredCases(col: string, v: Value, op: string)
    ensures EntryPred(col, Plain(v)) == Some(Cmp(EqOp, col, v))
    ensures op !in ["gte", "lte", "gt", "lt", "neq", "like", "ilike", "in", "not.is", "is"] ==>
      EntryPred(col, OpPair(op, v)) == None
    ensures EntryPred(col, OpPair("eq", v)) == None
    ensures EntryPred(col, OpPair("not.is", v)) == Some(Cmp(NotIsOp, col, v))
  {
  }

  /** The two forms of `order`. */
  lemma OrderForms(col: string, o: string)
    ensures OrderFor(Some("-" + col)) == [Order(col, true)]
    ensures o != "" && o[0] != '-' ==> OrderFor(Some(o)) == [Order(o, false)]
  {
    assert ("-" + col)[1..] == col;
  }

  /** With an offset the window is exactly `limit or 50` rows from it; otherwise `limit` bounds it. */
  lemma WindowRows(limit: Option<int>, offset: Option<int>)
    ensures offset.Some? ==> WindowFor(limit, offset) == Range(offset.value, offset.value + PageSize(limit) - 1)
    ensures offset.Some? ==>
      RequestedRows(WindowFor(limit, offset)) == Some(if PageSize(limit) < 0 then 0 else PageSize(limit))
    ensures offset.None? && limit.Some? ==>
      RequestedRows(WindowFor(limit, offset)) == Some(if limit.value < 0 then 0 else limit.value)
    ensures offset.None? && limit.None? ==> RequestedRows(WindowFor(limit, offset)) == None
  {
  }

  /** A table update: the new values and the rows it targets. */
  datatype Update = Update(table: string, data: seq<(string, Value)>, preds: seq<Pred>)

  /** `update_row`: one `eq` filter per entry of the `match` dictionary, in order. */
  method UpdateRow(table: string, data: seq<(string, Value)>, criteria: seq<(string, Value)>)
    returns (u: Update)
    ensures u.table == table && u.data == data
    ensures |u.preds| == |criteria|
    ensures forall i :: 0 <= i < |criteria| ==> u.preds[i] == Cmp(EqOp, criteria[i].0, criteria[i].1)
  {
    u := Update(table, data, []);
    var i := 0;
    while i < |criteria|
      invariant 0 <= i <= |criteria|
      invariant u.table == table && u.data == data && |u.preds| == i
      invariant forall k :: 0 <= k < i ==> u.preds[k] == Cmp(EqOp, criteria[k].0, criteria[k].1)
    {
      u := u.(preds := u.preds + [Cmp(EqOp, criteria[i].0, criteria[i].1)]);
      i := i + 1;
    }
  }

  /** An update touches exactly the rows equal to every `match` value. */
  lemma UpdateTargets(u: Update, criteria: seq<(string, Value)>, row: Row)
    requires |u.preds| == |criteria|
    requires forall i :: 0 <= i < |criteria| ==> u.preds[i] == Cmp(EqOp, criteria[i].0, criteria[i].1)
    ensures Matches(row, u.preds) <==>
      forall i :: 0 <= i < |criteria| ==> Compare(Col(row, criteria[i].0), criteria[i].1) == Some(0)
  {
    if Matches(row, u.preds) {
      forall i | 0 <= i < |criteria| ensures Compare(Col(row, criteria[i].0), criteria[i].1) == Some(0) {
        assert u.preds[i] in u.preds;
      }
    }
  }

  /** The request of `get_distinct_values`. */
  function DistinctQuery(table: string, column: string): (q: Query)
    ensures q.table == table && q.select == column
    ensures q.preds == [Cmp(NotIsOp, column, VStr("null"))]
  {
    Where(From(table, column, false), Cmp(NotIsOp, column, VStr("null")))
  }

  /** `.not_.is_(column, "null")` keeps exactly the rows where the column is not NULL. */
  lemma DistinctQueryMeaning(table: string, column: string, row: Row)
    ensures Matches(row, DistinctQuery(table, column).preds) <==> Col(row, column) != VNone
  {
    var p := Cmp(NotIsOp, column, VStr("null"));
    assert p in DistinctQuery(table, column).preds;
  }

  /** The truthy values of `column`, in row order. */
  function TruthyValues(rows: seq<Row>, column: string): (r: seq<Value>)
    ensures forall v :: v in r <==> exists i :: 0 <= i < |rows| && Truthy(Get(rows[i], column, VNone)) && v == rows[i][column]
  {
    if |rows| == 0 then []
    else
      var init := TruthyValues(rows[..|rows| - 1], column);
      var last := rows[|rows| - 1];
      assert forall i :: 0 <= i < |rows| - 1 ==> rows[..|rows| - 1][i] == rows[i];
      init + (if Truthy(Get(last, column, VNone)) then [last[column]] else [])
  }

  function Texts(vs: seq<Value>): seq<string>
    requires forall v :: v in vs ==> v.VStr?
  {
    if |vs| == 0 then [] else [vs[0].s] + Texts(vs[1..])
  }

  lemma {:induction false} TextsMembers(vs: seq<Value>)
    requires forall v :: v in vs ==> v.VStr?
    ensures forall s :: s in Texts(vs) <==> VStr(s) in vs
  {
    if |vs| > 0 {
      TextsMembers(vs[1..]);
      assert vs == [vs[0]] + vs[1..];
      assert forall s :: s in Texts(vs) <==> s == vs[0].s || s in Texts(vs[1..]);
      assert forall s :: VStr(s) in vs <==> VStr(s) == vs[0] || VStr(s) in vs[1..];
    }
  }

  /**
   * `sorted(set(row[column] for row in rows if row.get(column)))` on a text
   * column; a truthy value that is not text is reported as an error.
   */
  function DistinctValues(rows: seq<Row>, column: string): (r: Result<seq<string>>)
    ensures r.Ok? <==> forall v :: v in TruthyValues(rows, column) ==> v.VStr?
    ensures r.Ok? ==> StrictlyAscending(r.value)
    ensures r.Ok? ==> forall s :: s in r.value <==>
      exists i :: 0 <= i < |rows| && Get(rows[i], column, VNone) == VStr(s) && s != ""
  {
    var vs := TruthyValues(rows, column);
    if forall v :: v in vs ==> v.VStr? then
      TextsMembers(vs);
      Ok(SortedSet(Texts(vs)))
    else Err(TypeError("'<' not supported between instances"))
  }
}
