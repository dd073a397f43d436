/**
 * The decoded reply of the host inventory service, and the parts of Python's
 * dynamic typing that the row builder in rad.py relies on: `x in v`, `v[key]`,
 * `len(v)` and `for x in v`, each defined for the kinds of value that
 * Python's JSON decoder can produce.
 */
module Json {
  import opened Wrappers

  /** A value as produced by Python's JSON decoder: None, bool, int, float,
      str, list or dict (the dict's entries in insertion order). */
  datatype Json =
    | JNull
    | JBool(b: bool)
    | JInt(i: int)
    | JFloat(x: real)
    | JStr(s: string)
    | JList(items: seq<Json>)
    | JObj(entries: seq<(string, Json)>)

  /** The exceptions the row builder can raise. */
  datatype Error =
    | NoFactsKey             // IOError: a result without `facts`
    | NoAccountKey           // IOError: a result without `account`
    | ElementNotDict         // IOError: a `facts` element that is not a dict
    | ElementWithoutFacts    // KeyError: a `facts` element without its own `facts`
    | KeyNotFound(key: string)  // KeyError from subscripting a dict
    | TypeMismatch           // TypeError or AttributeError from a value of the wrong kind

  /** The value stored under `key` in a dict's entries, if any. */
  function Lookup(entries: seq<(string, Json)>, key: string): (r: Option<Json>)
    ensures r.Some? <==> exists i :: 0 <= i < |entries| && entries[i].0 == key
    ensures r.Some? ==> exists i :: 0 <= i < |entries| && entries[i] == (key, r.value)
  {
    if entries == [] then None
    else if entries[0].0 == key then Some(entries[0].1)
    else
      var r := Lookup(entries[1..], key);
      assert forall i :: 0 < i < |entries| ==> entries[i] == entries[1..][i - 1];
      r
  }

  /** Whether `t` occurs as a contiguous part of `s`. */
  predicate IsSubstring(t: string, s: string)
  {
    t <= s || (s != [] && IsSubstring(t, s[1..]))
  }

  /** Python's `key in v`: dict membership, list membership, substring search;
      None where Python raises TypeError. */
  function Contains(v: Json, key: string): (r: Option<bool>)
    ensures r.Some? <==> v.JObj? || v.JList? || v.JStr?
    ensures v.JObj? ==> r == Some(Lookup(v.entries, key).Some?)
  {
    match v
    case JObj(entries) => Some(Lookup(entries, key).Some?)
    case JList(items) => Some(JStr(key) in items)
    case JStr(s) => Some(IsSubstring(key, s))
    case _ => None
  }

  /** Python's `v[key]` with a string key: only a dict can be subscripted so. */
  function Subscript(v: Json, key: string): (r: Result<Json, Error>)
    ensures r.Ok? <==> v.JObj? && Lookup(v.entries, key).Some?
    ensures r.Err? ==> r.error == if v.JObj? then KeyNotFound(key) else TypeMismatch
  {
    match v
    case JObj(entries) =>
      (match Lookup(entries, key)
       case Some(x) => Ok(x)
       case None => Err(KeyNotFound(key)))
    case _ => Err(TypeMismatch)
  }

  /** What `for x in v` yields: a list's items, a string's one-character
      strings, a dict's keys; None where Python raises TypeError. The length
      of the yielded sequence is also Python's `len(v)`. */
  function Iterate(v: Json): (r: Option<seq<Json>>)
    ensures r.Some? <==> v.JList? || v.JStr? || v.JObj?
    ensures v.JList? ==> r == Some(v.items)
    ensures v.JStr? ==> |r.value| == |v.s| && forall i :: 0 <= i < |v.s| ==> r.value[i] == JStr([v.s[i]])
    ensures v.JObj? ==> |r.value| == |v.entries| && forall i :: 0 <= i < |v.entries| ==> r.value[i] == JStr(v.entries[i].0)
  {
    match v
    case JList(items) => Some(items)
    case JStr(s) => Some(seq(|s|, i requires 0 <= i < |s| => JStr([s[i]])))
    case JObj(entries) => Some(seq(|entries|, i requires 0 <= i < |entries| => JStr(entries[i].0)))
    case _ => None
  }
}
