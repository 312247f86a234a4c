/**
 * Python's dynamic values as the dashboard receives them from the store:
 * rows are dictionaries from column name to value, JSON columns hold nested
 * lists and objects. A JSON object keeps its key order, as a Python dict does.
 */
module PyValue {
  import opened Wrappers

  datatype Value =
    | VNone
    | VBool(b: bool)
    | VInt(i: int)
    | VFloat(r: real)
    | VStr(s: string)
    | VList(items: seq<Value>)
    | VDict(entries: seq<(string, Value)>)

  /** A database row (or `st.session_state`): column name to value. */
  type Row = map<string, Value>

  /** Python truthiness (`bool(v)`). */
  predicate Truthy(v: Value) {
    match v
    case VNone => false
    case VBool(b) => b
    case VInt(i) => i != 0
    case VFloat(r) => r != 0.0
    case VStr(s) => s != ""
    case VList(items) => |items| > 0
    case VDict(entries) => |entries| > 0
  }

  /** `row.get(key, default)`. */
  function Get(row: Row, key: string, default: Value): (v: Value)
    ensures key in row ==> v == row[key]
    ensures key !in row ==> v == default
  {
    if key in row then row[key] else default
  }

  /** `d.get(key)` on a JSON object: the first entry with that key, if any. */
  function DictGet(entries: seq<(string, Value)>, key: string): (r: Option<Value>)
    ensures r.Some? <==> exists i :: 0 <= i < |entries| && entries[i].0 == key
    ensures r.Some? ==> exists i :: 0 <= i < |entries| && entries[i] == (key, r.value)
  {
    if |entries| == 0 then None
    else if entries[0].0 == key then Some(entries[0].1)
    else
      var rest := DictGet(entries[1..], key);
      assert forall i :: 1 <= i < |entries| ==> entries[i] == entries[1..][i - 1];
      rest
  }

  /** `f"{v}"`: a text as it is, any other value through `str`. */
  function Text(v: Value, str: Value -> string): (r: string)
    ensures v.VStr? ==> r == v.s
    ensures !v.VStr? ==> r == str(v)
  {
    if v.VStr? then v.s else str(v)
  }

  /** A string-valued field of a row: `row.get(key)` when it holds a string. */
  function StrField(row: Row, key: string): Option<string> {
    if key in row && row[key].VStr? then Some(row[key].s) else None
  }
}
