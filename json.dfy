/**
 * A parsed JSON document as the Python program sees it after `json.load`:
 * `None`, `bool`, `int`, `str`, `list` and `dict` values, with the three
 * Python operations the viewer applies to them — `str(v)`, truth testing
 * (`if v:`) and `d.get(key, default)`.
 */
module Json {
  import opened Wrappers
  import opened Text

  /**
   * A JSON value as `json.load` returns it. An object keeps its members in
   * the insertion order of the dict `json.load` builds. A value built by it
   * is `WellFormed`: a key repeated in the text keeps its first position and
   * its last value, so no dict holds a key twice.
   */
  datatype Json =
    | JNull
    | JBool(b: bool)
    | JNum(n: int)
    | JStr(s: string)
    | JList(items: seq<Json>)
    | JObject(members: seq<(string, Json)>)

  /** No key occurs twice among the members. */
  predicate DistinctKeys(members: seq<(string, Json)>)
  {
    forall i, j :: 0 <= i < j < |members| ==> members[i].0 != members[j].0
  }

  /** Every dict inside the value, at any depth, has distinct keys. */
  predicate WellFormed(v: Json)
  {
    match v
    case JList(items) => forall k :: 0 <= k < |items| ==> WellFormed(items[k])
    case JObject(members) => DistinctKeys(members) && forall k :: 0 <= k < |members| ==> WellFormed(members[k].1)
    case _ => true
  }

  /** A parsed document: what `json.load` can return. */
  type Document = v: Json | WellFormed(v) witness JNull

  /** Python's truth value: `None`, `False`, `0`, `''`, `[]` and `{}` are false. */
  predicate Truthy(v: Json)
  {
    match v
    case JNull => false
    case JBool(b) => b
    case JNum(n) => n != 0
    case JStr(s) => s != []
    case JList(items) => items != []
    case JObject(members) => members != []
  }

  /** `d.get(key)`: the value stored under `key`, if any. */
  function Lookup(members: seq<(string, Json)>, key: string): (r: Option<Json>)
    ensures r.Some? <==> exists k :: 0 <= k < |members| && members[k].0 == key
    ensures r.Some? ==> exists k :: 0 <= k < |members| && members[k] == (key, r.value)
  {
    if members == [] then None
    else if members[0].0 == key then
      assert members[0] == (key, members[0].1);
      Some(members[0].1)
    else
      var r := Lookup(members[1..], key);
      assert forall k :: 0 < k < |members| ==> members[k] == members[1..][k - 1];
      r
  }

  /** In a dict, `d.get(key)` finds the one value stored under the key. */
  lemma LookupDistinct(members: seq<(string, Json)>, k: nat)
    requires DistinctKeys(members) && k < |members|
    ensures Lookup(members, members[k].0) == Some(members[k].1)
  {
  }

  /** `d.get(key, default)`. */
  function Get(members: seq<(string, Json)>, key: string, default: Json): (r: Json)
  {
    match Lookup(members, key)
    case Some(v) => v
    case None => default
  }

  /**
   * Python's `str(v)`. Lists and dicts render as their Python repr, with
   * strings inside them in single quotes (escaping is not modelled).
   */
  function Str(v: Json): (s: string)
    decreases v, 0
  {
    match v
    case JNull => "None"
    case JBool(b) => if b then "True" else "False"
    case JNum(n) => Decimal(n)
    case JStr(s) => s
    case JList(items) =>
      "[" + Join(seq(|items|, k requires 0 <= k < |items| => Repr(items[k])), ", ") + "]"
    case JObject(members) =>
      "{" + Join(seq(|members|, k requires 0 <= k < |members| =>
                       Quoted(members[k].0) + ": " + Repr(members[k].1)), ", ") + "}"
  }

  /** Python's `repr(v)`: a string in quotes, everything else as `str`. */
  function Repr(v: Json): (s: string)
    decreases v, 1
  {
    if v.JStr? then Quoted(v.s) else Str(v)
  }

  function Quoted(s: string): (q: string)
  {
    "'" + s + "'"
  }

  /** The only value whose `str` is empty is the empty string. */
  lemma StrEmptyIff(v: Json)
    ensures Str(v) == "" <==> v == JStr("")
  {
  }

  /** A true value always renders to something visible. */
  lemma TruthyStrNonEmpty(v: Json)
    requires Truthy(v)
    ensures Str(v) != ""
  {
  }
}
