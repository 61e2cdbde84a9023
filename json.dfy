/** The records the pipeline reads are parsed JSON: this module gives them a type and
    states, as functions, the Python operations the source applies to them
    (`d.get(k, default)`, `k in x`, truthiness, hashability). */
module Json {

  /** A parsed JSON value. Numbers are reals, so `1` and `1.0` are the same value,
      as they are for Python's `==` and hashing. */
  datatype Json =
    | JNull
    | JBool(b: bool)
    | JNum(n: real)
    | JStr(s: string)
    | JArr(items: seq<Json>)
    | JObj(fields: map<string, Json>)

  /** A JSON object: Python's `dict` with string keys. */
  type Dict = map<string, Json>

  /** Python's `bool(x)`. */
  predicate Truthy(j: Json) {
    match j
    case JNull => false
    case JBool(b) => b
    case JNum(n) => n != 0.0
    case JStr(s) => s != ""
    case JArr(items) => items != []
    case JObj(fields) => fields != map[]
  }

  /** Values Python can put in a set or use as a dict key (lists and dicts cannot). */
  predicate Hashable(j: Json) {
    !j.JArr? && !j.JObj?
  }

  /** The values the `in` operator and `len` accept. */
  predicate Container(j: Json) {
    j.JObj? || j.JArr? || j.JStr?
  }

  predicate OccursAt(key: string, s: string, i: int) {
    0 <= i <= |s| - |key| && s[i..i + |key|] == key
  }

  predicate IsSubstring(key: string, s: string) {
    exists i | 0 <= i <= |s| :: OccursAt(key, s, i)
  }

  /** Python's `key in x`: a key test on a dict, an element test on a list, a substring
      test on a string. */
  predicate Contains(x: Json, key: string)
    requires Container(x)
  {
    match x
    case JObj(fields) => key in fields
    case JArr(items) => JStr(key) in items
    case JStr(s) => IsSubstring(key, s)
  }

  /** Python's `len(x)`. */
  function Size(x: Json): nat
    requires Container(x)
  {
    match x
    case JObj(fields) => |fields|
    case JArr(items) => |items|
    case JStr(s) => |s|
  }

  /** `d.get(k, default)`. */
  function Get(d: Dict, k: string, default: Json): Json {
    if k in d then d[k] else default
  }

  /** `d.get(k, {})` can be used as a dict: the value, when present, is one. */
  predicate DictOrAbsent(d: Dict, k: string) {
    k in d ==> d[k].JObj?
  }

  /** `d.get(k, {})`. */
  function GetDict(d: Dict, k: string): Dict
    requires DictOrAbsent(d, k)
  {
    if k in d then d[k].fields else map[]
  }

  /** `for x in d.get(k, [])` does not raise and yields only list items: the value, when
      present, is a list, or an empty dict or string (iterated zero times). */
  predicate ListOrAbsent(d: Dict, k: string) {
    k in d ==> d[k].JArr? || d[k] == JObj(map[]) || d[k] == JStr("")
  }

  /** `d.get(k, {}).get("name", default)`: the name of a nested `{id, name}` object. */
  function NameOf(d: Dict, k: string, default: Json): Json
    requires DictOrAbsent(d, k)
  {
    Get(GetDict(d, k), "name", default)
  }

  /** `x.get(k, default)` for a dict `x`; the default for any other value. */
  function Field(x: Json, k: string, default: Json): Json {
    if x.JObj? then Get(x.fields, k, default) else default
  }

  /** What `for y in x.get(k, [])` iterates over: the list under `k`, and nothing when `k` is
      absent or holds an empty dict or string. */
  function ListField(x: Json, k: string): seq<Json> {
    if x.JObj? && k in x.fields && x.fields[k].JArr? then x.fields[k].items else []
  }

  /** `x.get(k, {}).get(sub, default)` for a dict `x` whose `k`, when present, is a dict;
      the default otherwise. */
  function SubField(x: Json, k: string, sub: string, default: Json): Json {
    if x.JObj? && k in x.fields && x.fields[k].JObj? then Get(x.fields[k].fields, sub, default)
    else default
  }

  /** `x.get(k, {})` can be used as a dict: `x` is a dict and its `k`, when present, is one. */
  predicate DictField(x: Json, k: string) {
    x.JObj? && DictOrAbsent(x.fields, k)
  }
}
