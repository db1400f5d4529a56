/**
 Decoded JSON values as the loader sees them after `resp.json()`, together
 with the Python built-in behaviour the loader relies on: truthiness (for
 `x or default`), `dict.get`, iteration (for `list.extend` and `for` loops)
 and hashing (for `dict` keys, where `True == 1` and lists and dicts are
 unhashable).
 */
module Values {
  import opened Wrappers

  /** A JSON value. Numbers are integers; an object keeps its members in
      document order, duplicates included. */
  datatype Json =
    | JNull
    | JBool(b: bool)
    | JInt(i: int)
    | JStr(s: string)
    | JArr(items: seq<Json>)
    | JObj(fields: seq<(string, Json)>)

  /** The exceptions the loader can raise itself, outside the network layer. */
  datatype PyError =
    | AttributeError           // `.get` on a non-dict, `.strip` on a non-string
    | TypeError                // iterating a non-iterable, hashing a list or dict

  /** Python's `bool(v)`. */
  predicate Truthy(v: Json) {
    match v
    case JNull => false
    case JBool(b) => b
    case JInt(i) => i != 0
    case JStr(s) => s != []
    case JArr(items) => items != []
    case JObj(fields) => fields != []
  }

  /** Python's `v or default`. */
  function Or(v: Json, default: Json): (r: Json)
    ensures Truthy(v) ==> r == v
    ensures !Truthy(v) ==> r == default
    ensures Truthy(r) <==> Truthy(v) || Truthy(default)
    ensures r == v || r == default
  {
    if Truthy(v) then v else default
  }

  /** The value a decoded object holds for `key`: JSON decoding keeps the last duplicate. */
  function Lookup(fields: seq<(string, Json)>, key: string): (r: Option<Json>)
    ensures r.None? <==> forall i :: 0 <= i < |fields| ==> fields[i].0 != key
    ensures r.Some? ==> exists i :: 0 <= i < |fields| && fields[i] == (key, r.value)
                                    && forall j :: i < j < |fields| ==> fields[j].0 != key
  {
    if fields == [] then None
    else if fields[|fields| - 1].0 == key then Some(fields[|fields| - 1].1)
    else Lookup(fields[..|fields| - 1], key)
  }

  /** `d.get(key, default)` on a dict decoded from `fields`. */
  function FieldOr(fields: seq<(string, Json)>, key: string, default: Json): Json
  {
    match Lookup(fields, key)
    case Some(v) => v
    case None => default
  }

  /** `obj.get(key, default)`; a non-dict has no `get` attribute. */
  function GetOr(obj: Json, key: string, default: Json): (r: Result<Json, PyError>)
    ensures r.Failure? <==> !obj.JObj?
    ensures r.Failure? ==> r.error == AttributeError
    ensures obj.JObj? && Lookup(obj.fields, key).Some? ==> r == Success(Lookup(obj.fields, key).value)
    ensures obj.JObj? && Lookup(obj.fields, key).None? ==> r == Success(default)
  {
    if obj.JObj? then Success(FieldOr(obj.fields, key, default)) else Failure(AttributeError)
  }

  /** `obj.get(key)`: a missing key reads as `None`. */
  function Get(obj: Json, key: string): Result<Json, PyError>
  {
    GetOr(obj, key, JNull)
  }

  /** The distinct keys of an object in first-occurrence order (what iterating a dict yields). */
  function ObjectKeys(fields: seq<(string, Json)>, seen: seq<string>): (r: seq<string>)
    ensures seen <= r
    ensures (forall i, j :: 0 <= i < j < |seen| ==> seen[i] != seen[j]) ==>
              forall i, j :: 0 <= i < j < |r| ==> r[i] != r[j]
    ensures forall k :: k in r <==> k in seen || exists i :: 0 <= i < |fields| && fields[i].0 == k
  {
    if fields == [] then seen
    else if fields[0].0 in seen then ObjectKeys(fields[1..], seen)
    else ObjectKeys(fields[1..], seen + [fields[0].0])
  }

  /** `iter(v)`: lists yield their items, strings their characters, dicts their keys;
      `None`, booleans and numbers are not iterable. */
  function Iterate(v: Json): (r: Option<seq<Json>>)
    ensures r.None? <==> v.JNull? || v.JBool? || v.JInt?
    ensures v.JArr? ==> r == Some(v.items)
    ensures v.JStr? ==> r.Some? && |r.value| == |v.s|
                        && forall i :: 0 <= i < |v.s| ==> r.value[i] == JStr([v.s[i]])
    ensures v.JObj? ==> var ks := ObjectKeys(v.fields, []);
                        r.Some? && |r.value| == |ks| && forall i :: 0 <= i < |ks| ==> r.value[i] == JStr(ks[i])
  {
    match v
    case JArr(items) => Some(items)
    case JStr(s) => Some(seq(|s|, i requires 0 <= i < |s| => JStr([s[i]])))
    case JObj(fields) =>
      var ks := ObjectKeys(fields, []);
      Some(seq(|ks|, i requires 0 <= i < |ks| => JStr(ks[i])))
    case _ => None
  }

  /** A dictionary key after hashing: `None`, an integer (booleans are the
      integers 0 and 1) or a string. */
  datatype Key = KNone | KInt(i: int) | KStr(s: string)

  /** The dict key a value hashes to, or `None` when it is unhashable. */
  function KeyOf(v: Json): (r: Option<Key>)
    ensures r.None? <==> v.JArr? || v.JObj?
    ensures v.JNull? ==> r == Some(KNone)
    ensures v.JBool? ==> r == Some(KInt(if v.b then 1 else 0))
    ensures v.JInt? ==> r == Some(KInt(v.i))
    ensures v.JStr? ==> r == Some(KStr(v.s))
  {
    match v
    case JNull => Some(KNone)
    case JBool(b) => Some(KInt(if b then 1 else 0))
    case JInt(i) => Some(KInt(i))
    case JStr(s) => Some(KStr(s))
    case _ => None
  }

  /** Two hashable values are the same dict key only when they are equal,
      or are a boolean and the integer it equals. */
  lemma KeyOfCollides(a: Json, b: Json)
    requires KeyOf(a).Some? && KeyOf(a) == KeyOf(b)
    ensures a == b || (a.JBool? && b.JInt? && b.i == (if a.b then 1 else 0))
                   || (a.JInt? && b.JBool? && a.i == (if b.b then 1 else 0))
  {
  }
}
