/**
 * The PostgREST query builder as the dashboard drives it through
 * supabase-py: a table, a column list, a conjunction of filters, an
 * ordering and a row window. Executing a query is a network call and is not
 * modelled; `Holds` gives the meaning of each filter on one row, so that
 * properties of the builders can be stated as properties of the rows they
 * select.
 */
module Postgrest {
  import opened Wrappers
  import opened PyValue
  import opened Strings

  /** The filter operators the builders call: `.eq`, `.neq`, `.gt`, …, `.not_.is_`. */
  datatype Op = EqOp | NeqOp | GtOp | GteOp | LtOp | LteOp | LikeOp | IlikeOp | InOp | IsOp | NotIsOp

  datatype Pred =
    /** `q.<op>(col, arg)`. */
    | Cmp(op: Op, col: string, arg: Value)
    /** `q.or_("c1.ilike.P,c2.ilike.P,…")`: some listed column matches pattern `P`. */
    | OrIlike(cols: seq<string>, pattern: string)

  datatype Order = Order(col: string, desc: bool)

  /** No bound, `.limit(n)`, or `.range(first, last)` (both ends inclusive). */
  datatype Window = Unbounded | Limit(n: int) | Range(first: int, last: int)

  datatype Query = Query(
    table: string,
    select: string,
    countExact: bool,
    preds: seq<Pred>,
    orders: seq<Order>,
    window: Window)

  /** `client.table(table).select(select)` (with `count="exact"` when `countExact`). */
  function From(table: string, select: string, countExact: bool): Query {
    Query(table, select, countExact, [], [], Unbounded)
  }

  /** Adding one filter call to the chain. */
  function Where(q: Query, p: Pred): (r: Query)
    ensures r.preds == q.preds + [p]
    ensures r == q.(preds := r.preds)
  {
    q.(preds := q.preds + [p])
  }

  /** `.order(col, desc=…)`: a further sort key. */
  function OrderBy(q: Query, col: string, desc: bool): (r: Query)
    ensures r.orders == q.orders + [Order(col, desc)]
    ensures r == q.(orders := r.orders)
  {
    q.(orders := q.orders + [Order(col, desc)])
  }

  /** How many rows a window lets through at most (`None` for no bound). */
  function RequestedRows(w: Window): Option<nat> {
    match w
    case Unbounded => None
    case Limit(n) => Some(if n < 0 then 0 else n)
    case Range(a, b) => Some(if b < a then 0 else b - a + 1)
  }

  /** The columns a filter constrains. */
  function PredCols(p: Pred): seq<string> {
    match p
    case Cmp(_, col, _) => [col]
    case OrIlike(cols, _) => cols
  }

  /** The value of a column in a row; an absent column reads as NULL. */
  function Col(row: Row, col: string): Value {
    if col in row then row[col] else VNone
  }

  /** SQL comparison of two non-NULL scalars of compatible types: -1, 0 or 1. */
  function Compare(a: Value, b: Value): Option<int> {
    match (a, b)
    case (VInt(x), VInt(y)) => Some(if x < y then -1 else if x == y then 0 else 1)
    case (VInt(x), VFloat(y)) => Some(if (x as real) < y then -1 else if x as real == y then 0 else 1)
    case (VFloat(x), VInt(y)) => Some(if x < y as real then -1 else if x == y as real then 0 else 1)
    case (VFloat(x), VFloat(y)) => Some(if x < y then -1 else if x == y then 0 else 1)
    case (VStr(x), VStr(y)) => Some(if StrLt(x, y) then -1 else if x == y then 0 else 1)
    case (VBool(x), VBool(y)) => Some(if x == y then 0 else if !x then -1 else 1)
    case _ => None
  }

  /**
   * The LIKE / ILIKE matcher with backslash as escape character: `%` matches
   * any run of characters, `_` exactly one, `\c` the character `c` itself,
   * and any other character itself after `fold` (identity for LIKE,
   * lower-casing for ILIKE).
   */
  predicate Match(p: string, t: string, fold: char -> char)
    decreases |p| + |t|
  {
    if |p| == 0 then |t| == 0
    else if p[0] == '%' then Match(p[1..], t, fold) || (|t| > 0 && Match(p, t[1..], fold))
    else if |t| == 0 then false
    else if p[0] == '_' then Match(p[1..], t[1..], fold)
    else if p[0] == '\\' && |p| >= 2 then fold(p[1]) == fold(t[0]) && Match(p[2..], t[1..], fold)
    else fold(p[0]) == fold(t[0]) && Match(p[1..], t[1..], fold)
  }

  function Identity(c: char): char { c }

  /**
   * PostgREST's reading of a `like` / `ilike` value before it reaches SQL:
   * every `*` is taken as `%`, an escaped `\*` included (which then stands
   * for a literal `%`).
   */
  function Wildcards(p: string): (r: string)
    ensures |r| == |p|
    ensures forall i :: 0 <= i < |p| ==> r[i] == if p[i] == '*' then '%' else p[i]
    ensures '*' !in r
  {
    seq(|p|, i requires 0 <= i < |p| => if p[i] == '*' then '%' else p[i])
  }

  /** A value without `*` reaches SQL unchanged. */
  lemma WildcardsNoStar(p: string)
    requires '*' !in p
    ensures Wildcards(p) == p
  {
  }

  /** The `ilike` filter: `col ILIKE pattern` on the value PostgREST passes on. */
  predicate Ilike(pattern: string, t: string) {
    Match(Wildcards(pattern), t, LowerChar)
  }

  /** The IS / IS NOT argument: `"null"` (as the builders pass it) or a boolean. */
  predicate IsTest(v: Value, arg: Value) {
    match arg
    case VNone => v.VNone?
    case VStr(s) => s == "null" && v.VNone?
    case VBool(b) => v == VBool(b)
    case _ => false
  }

  /** Whether a column value `v` satisfies `v <op> arg`. */
  predicate HoldsCmp(op: Op, v: Value, arg: Value) {
    match op
    case EqOp => Compare(v, arg) == Some(0)
    case NeqOp => Compare(v, arg).Some? && Compare(v, arg) != Some(0)
    case GtOp => Compare(v, arg) == Some(1)
    case GteOp => Compare(v, arg).Some? && Compare(v, arg) != Some(-1)
    case LtOp => Compare(v, arg) == Some(-1)
    case LteOp => Compare(v, arg).Some? && Compare(v, arg) != Some(1)
    case LikeOp => v.VStr? && arg.VStr? && Match(Wildcards(arg.s), v.s, Identity)
    case IlikeOp => v.VStr? && arg.VStr? && Ilike(arg.s, v.s)
    case InOp => arg.VList? && exists e :: e in arg.items && Compare(v, e) == Some(0)
    case IsOp => IsTest(v, arg)
    case NotIsOp => !IsTest(v, arg)
  }

  /** Whether one row satisfies one filter. */
  predicate Holds(row: Row, p: Pred) {
    match p
    case Cmp(op, col, arg) => HoldsCmp(op, Col(row, col), arg)
    case OrIlike(cols, pattern) =>
      exists c :: c in cols && Col(row, c).VStr? && Ilike(pattern, Col(row, c).s)
  }

  /** A row passes a query's filters when it satisfies every one of them. */
  predicate Matches(row: Row, preds: seq<Pred>) {
    forall p :: p in preds ==> Holds(row, p)
  }

  /** `%` matches every text. */
  lemma {:induction false} MatchPercentAll(t: string, fold: char -> char)
    ensures Match("%", t, fold)
  {
    if |t| > 0 {
      MatchPercentAll(t[1..], fold);
    }
  }

  /** A leading `%` lets the rest of the pattern match any suffix. */
  lemma {:induction false} MatchLeadingPercent(q: string, t: string, fold: char -> char)
    ensures Match("%" + q, t, fold) <==> exists i :: 0 <= i <= |t| && Match(q, t[i..], fold)
  {
    var p := "%" + q;
    assert p[0] == '%' && p[1..] == q;
    if |t| == 0 {
      assert t[0..] == t;
    } else {
      MatchLeadingPercent(q, t[1..], fold);
      assert forall i :: 1 <= i <= |t| ==> t[i..] == t[1..][i - 1..];
      assert t[0..] == t;
      if Match(q, t, fold) {
        assert Match(q, t[0..], fold);
      }
      if exists i :: 0 <= i <= |t| && Match(q, t[i..], fold) {
        var i :| 0 <= i <= |t| && Match(q, t[i..], fold);
        if i > 0 {
          assert Match(q, t[1..][i - 1..], fold);
        }
      }
    }
  }

  /** The text `.or_` receives: one `col.ilike.pattern` term per column, comma-separated. */
  function OrFilterText(cols: seq<string>, pattern: string): string {
    Join(Terms(cols, pattern), ",")
  }

  function Terms(cols: seq<string>, pattern: string): (r: seq<string>)
    ensures |r| == |cols|
    ensures forall i :: 0 <= i < |cols| ==> r[i] == cols[i] + ".ilike." + pattern
  {
    if |cols| == 0 then [] else Terms(cols[..|cols| - 1], pattern) + [cols[|cols| - 1] + ".ilike." + pattern]
  }
}
