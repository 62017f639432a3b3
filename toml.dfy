/**
 * The decoded project-description document: nested tables, arrays and scalars as a
 * TOML decoder hands them to the metadata code. A table keeps its keys in document
 * order, as a Python `dict` does; Python's `None` never occurs inside a document and
 * appears only as the absence of a key (`Option.None`).
 */
module Toml {
  import opened Wrappers

  datatype Value =
    | Str(s: string)
    | Int(i: int)
    | Float(r: real)
    | Bool(b: bool)
    | DateTime(text: string)
    | List(items: seq<Value>)
    | Table(entries: seq<(string, Value)>)

  /** The keys of a table, as `set(table)` gives them. */
  function Keys<V>(t: seq<(string, V)>): (ks: set<string>)
    ensures forall i :: 0 <= i < |t| ==> t[i].0 in ks
    ensures forall k :: k in ks ==> exists i :: 0 <= i < |t| && t[i].0 == k
  {
    set i | 0 <= i < |t| :: t[i].0
  }

  /** `table.get(key)`: the value stored under `key`, if any. */
  function Get<V>(t: seq<(string, V)>, key: string): (r: Option<V>)
    ensures r.Some? <==> key in Keys(t)
    ensures r.Some? ==> exists i :: 0 <= i < |t| && t[i] == (key, r.value)
  {
    if |t| == 0 then None
    else if t[0].0 == key then Some(t[0].1)
    else
      var r := Get(t[1..], key);
      assert r.Some? ==> exists i :: 0 <= i < |t| - 1 && t[1..][i] == (key, r.value);
      r
  }

  /** `table.get(key, default)` */
  function GetOr<V>(t: seq<(string, V)>, key: string, default: V): V {
    Get(t, key).GetOr(default)
  }

  /** The position of the first key outside `allowed`, or `|t|` when there is none. */
  function FirstKeyOutside<V>(t: seq<(string, V)>, allowed: set<string>): (i: nat)
    ensures i <= |t|
    ensures forall j :: 0 <= j < i ==> t[j].0 in allowed
    ensures i < |t| ==> t[i].0 !in allowed
  {
    if |t| == 0 then 0
    else if t[0].0 !in allowed then 0
    else 1 + FirstKeyOutside(t[1..], allowed)
  }

  /** A string field of a table: `Some(s)` when `key` holds the string `s`. */
  function StrField(t: seq<(string, Value)>, key: string): (r: Option<string>)
    ensures r.Some? <==> Get(t, key).Some? && Get(t, key).value.Str?
    ensures r.Some? ==> Get(t, key) == Some(Str(r.value))
  {
    var v: Option<Value> := Get(t, key);
    if v.Some? && v.value.Str? then Some(v.value.s) else None
  }

  predicate AllStrings(items: seq<Value>) {
    forall i :: 0 <= i < |items| ==> items[i].Str?
  }

  predicate AllStringValues(t: seq<(string, Value)>) {
    forall i :: 0 <= i < |t| ==> t[i].1.Str?
  }

  /** The strings of a list made of strings. */
  function StringsOf(items: seq<Value>): (r: seq<string>)
    requires AllStrings(items)
    ensures |r| == |items|
    ensures forall i :: 0 <= i < |items| ==> items[i] == Str(r[i])
  {
    seq(|items|, i requires 0 <= i < |items| => items[i].s)
  }

  /** The string entries of a table whose values are all strings. */
  function StringEntriesOf(t: seq<(string, Value)>): (r: seq<(string, string)>)
    requires AllStringValues(t)
    ensures |r| == |t|
    ensures forall i :: 0 <= i < |t| ==> t[i] == (r[i].0, Str(r[i].1))
  {
    seq(|t|, i requires 0 <= i < |t| => (t[i].0, t[i].1.s))
  }

  /** A list of strings as a document value. */
  function StringList(ss: seq<string>): seq<Value> {
    seq(|ss|, i requires 0 <= i < |ss| => Str(ss[i]))
  }

  /** A table of strings as a document value. */
  function StringTable(t: seq<(string, string)>): seq<(string, Value)> {
    seq(|t|, i requires 0 <= i < |t| => (t[i].0, Str(t[i].1)))
  }

  /** Python's `bool(v)` on a decoded value. */
  predicate Truthy(v: Value) {
    match v
    case Str(s) => s != ""
    case Int(i) => i != 0
    case Float(r) => r != 0.0
    case Bool(b) => b
    case DateTime(_) => true
    case List(items) => items != []
    case Table(entries) => entries != []
  }

  /** Python's `not x` on an optional value (`None` is falsy). */
  predicate Falsy(v: Option<Value>) {
    v.None? || !Truthy(v.value)
  }
}
