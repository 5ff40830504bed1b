/**
 * The loosely typed nested values that layout payloads are made of: Python
 * dicts with string keys, lists and tuples, strings, integers, booleans and
 * `None`. Object fields keep their insertion order, as Python dicts do.
 */
module Json {
  import opened Wrappers
  import opened Text

  datatype Json =
    | JNull
    | JBool(b: bool)
    | JInt(i: int)
    | JStr(s: string)
    | JArr(items: seq<Json>)
    | JObj(fields: seq<(string, Json)>)

  /** The keys of an object's fields, in order. */
  function Keys(fields: seq<(string, Json)>): seq<string> {
    if fields == [] then [] else [fields[0].0] + Keys(fields[1..])
  }

  /** `d.get(key)` on an object: the value stored under `key`, if any. */
  function Get(fields: seq<(string, Json)>, key: string): Option<Json> {
    if fields == [] then None
    else if fields[0].0 == key then Some(fields[0].1)
    else Get(fields[1..], key)
  }

  /** `key in d`. */
  predicate HasKey(fields: seq<(string, Json)>, key: string) {
    Get(fields, key).Some?
  }

  /** `d.get(key)` on any value: non-objects have no keys. */
  function Field(j: Json, key: string): Option<Json> {
    if j.JObj? then Get(j.fields, key) else None
  }

  /** `d.get(key)` when the stored value must be a string. */
  function StrField(j: Json, key: string): Option<string> {
    match Field(j, key)
    case Some(JStr(s)) => Some(s)
    case _ => None
  }

  /** Python truthiness of a value. */
  predicate Truthy(j: Json) {
    match j
    case JNull => false
    case JBool(b) => b
    case JInt(i) => i != 0
    case JStr(s) => s != []
    case JArr(items) => items != []
    case JObj(fields) => fields != []
  }

  /** `str(j)`. Quotes inside strings are not escaped. */
  function PyStr(j: Json): string {
    match j
    case JStr(s) => s
    case _ => Repr(j)
  }

  /** `repr(j)`, which `str` uses for the members of lists and dicts. */
  function Repr(j: Json): string
    decreases j, 1
  {
    match j
    case JNull => "None"
    case JBool(b) => if b then "True" else "False"
    case JInt(i) => IntToString(i)
    case JStr(s) => "'" + s + "'"
    case JArr(items) => "[" + Join(", ", ReprItems(j, items)) + "]"
    case JObj(fields) => "{" + Join(", ", ReprFields(j, fields)) + "}"
  }

  function ReprItems(ghost parent: Json, items: seq<Json>): seq<string>
    requires forall k :: 0 <= k < |items| ==> items[k] < parent
    decreases parent, 0, |items|
  {
    if items == [] then [] else [Repr(items[0])] + ReprItems(parent, items[1..])
  }

  function ReprFields(ghost parent: Json, fields: seq<(string, Json)>): seq<string>
    requires forall k :: 0 <= k < |fields| ==> fields[k].1 < parent
    decreases parent, 0, |fields|
  {
    if fields == [] then []
    else ["'" + fields[0].0 + "': " + Repr(fields[0].1)] + ReprFields(parent, fields[1..])
  }

  /** `json.dumps(j)` with its default separators. Strings are not escaped. */
  function Dumps(j: Json): string
    decreases j, 1
  {
    match j
    case JNull => "null"
    case JBool(b) => if b then "true" else "false"
    case JInt(i) => IntToString(i)
    case JStr(s) => "\"" + s + "\""
    case JArr(items) => "[" + Join(", ", DumpsItems(j, items)) + "]"
    case JObj(fields) => "{" + Join(", ", DumpsFields(j, fields)) + "}"
  }

  function DumpsItems(ghost parent: Json, items: seq<Json>): seq<string>
    requires forall k :: 0 <= k < |items| ==> items[k] < parent
    decreases parent, 0, |items|
  {
    if items == [] then [] else [Dumps(items[0])] + DumpsItems(parent, items[1..])
  }

  function DumpsFields(ghost parent: Json, fields: seq<(string, Json)>): seq<string>
    requires forall k :: 0 <= k < |fields| ==> fields[k].1 < parent
    decreases parent, 0, |fields|
  {
    if fields == [] then []
    else ["\"" + fields[0].0 + "\": " + Dumps(fields[0].1)] + DumpsFields(parent, fields[1..])
  }

  /** A dict of one field has a value under that field's key only. */
  lemma GetSingle(k: string, v: Json, key: string)
    ensures Get([(k, v)], key) == if k == key then Some(v) else None
  {
    assert [(k, v)][1..] == [];
  }

  /** Adding a key a dict did not have makes it readable under that key. */
  lemma {:induction false} GetAppended(fields: seq<(string, Json)>, key: string, v: Json)
    requires !HasKey(fields, key)
    ensures Get(fields + [(key, v)], key) == Some(v)
    decreases |fields|
  {
    if fields != [] {
      assert (fields + [(key, v)])[1..] == fields[1..] + [(key, v)];
      GetAppended(fields[1..], key, v);
    }
  }
}
