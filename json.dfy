/** The values `json.loads` returns, and the few Python operations the pipeline applies
    to them: truthiness, `dict.get`, item assignment and iteration. A dict keeps its keys
    in insertion order, as Python's does. */
module Json {
  import opened Results

  datatype Json =
    | JNull
    | JBool(b: bool)
    | JInt(n: int)
    | JStr(s: string)
    | JList(items: seq<Json>)
    | JDict(entries: seq<(string, Json)>)

  /** Python's `bool(v)`. */
  predicate Truthy(v: Json) {
    match v
    case JNull => false
    case JBool(b) => b
    case JInt(n) => n != 0
    case JStr(s) => s != []
    case JList(items) => items != []
    case JDict(entries) => entries != []
  }

  /** `type(v).__name__`. */
  function TypeName(v: Json): string {
    match v
    case JNull => "NoneType"
    case JBool(_) => "bool"
    case JInt(_) => "int"
    case JStr(_) => "str"
    case JList(_) => "list"
    case JDict(_) => "dict"
  }

  /** The text of the `AttributeError` raised by `v.name` when `v` has no such method. */
  function NoAttribute(v: Json, name: string): string {
    "'" + TypeName(v) + "' object has no attribute '" + name + "'"
  }

  /** The keys of a dict, in order. */
  function Keys(entries: seq<(string, Json)>): (ks: seq<string>)
    ensures |ks| == |entries|
    ensures forall i :: 0 <= i < |entries| ==> ks[i] == entries[i].0
    decreases |entries|
  {
    if entries == [] then [] else [entries[0].0] + Keys(entries[1..])
  }

  /** A dict's entries have distinct keys. */
  predicate ValidEntries(entries: seq<(string, Json)>) {
    forall i, j :: 0 <= i < j < |entries| ==> entries[i].0 != entries[j].0
  }

  /** The value stored under `key`, if any (`key in d` and `d[key]`). */
  function Lookup(entries: seq<(string, Json)>, key: string): (r: Option<Json>)
    ensures r.Some? <==> key in Keys(entries)
    decreases |entries|
  {
    if entries == [] then None
    else if entries[0].0 == key then Some(entries[0].1)
    else
      Lookup(entries[1..], key)
  }

  /** What is found is stored in the dict under that key, and in a valid dict what is
      stored under a key is found. */
  lemma {:induction false} LookupStored(entries: seq<(string, Json)>, key: string, v: Json)
    requires ValidEntries(entries)
    ensures Lookup(entries, key) == Some(v) <==> (key, v) in entries
    decreases |entries|
  {
    if entries != [] {
      LookupStored(entries[1..], key, v);
      assert entries == [entries[0]] + entries[1..];
    }
  }

  /** `d.get(key, default)` on a dict `d`. */
  function GetOr(entries: seq<(string, Json)>, key: string, default: Json): Json {
    match Lookup(entries, key)
    case Some(v) => v
    case None => default
  }

  /** `d[key] = v`: an existing key keeps its place and takes the new value; a new key is
      added at the end. */
  function Assign(entries: seq<(string, Json)>, key: string, v: Json): (r: seq<(string, Json)>)
    ensures key in Keys(entries) ==> |r| == |entries|
    ensures key !in Keys(entries) ==> r == entries + [(key, v)]
    decreases |entries|
  {
    if entries == [] then [(key, v)]
    else if entries[0].0 == key then [(key, v)] + entries[1..]
    else
      [entries[0]] + Assign(entries[1..], key, v)
  }

  /** After `d[key] = v`, `d[key]` is `v` and every other key reads as before. */
  lemma {:induction false} LookupAssign(entries: seq<(string, Json)>, key: string, v: Json, other: string)
    ensures Lookup(Assign(entries, key, v), key) == Some(v)
    ensures other != key ==> Lookup(Assign(entries, key, v), other) == Lookup(entries, other)
    decreases |entries|
  {
    if entries != [] && entries[0].0 != key {
      LookupAssign(entries[1..], key, v, other);
    }
  }

  /** Assignment keeps the keys in place, adding the new one last. */
  lemma {:induction false} KeysAssign(entries: seq<(string, Json)>, key: string, v: Json)
    ensures Keys(Assign(entries, key, v)) == if key in Keys(entries) then Keys(entries) else Keys(entries) + [key]
    decreases |entries|
  {
    if entries != [] && entries[0].0 != key {
      KeysAssign(entries[1..], key, v);
      var r := Assign(entries[1..], key, v);
      assert ([entries[0]] + r)[1..] == r;
    }
  }

  lemma AssignValid(entries: seq<(string, Json)>, key: string, v: Json)
    requires ValidEntries(entries)
    ensures ValidEntries(Assign(entries, key, v))
  {
    KeysAssign(entries, key, v);
    var r := Assign(entries, key, v);
    assert forall i :: 0 <= i < |r| ==> r[i].0 == Keys(r)[i];
    assert forall i :: 0 <= i < |entries| ==> entries[i].0 == Keys(entries)[i];
  }

  /** What `for x in v` iterates over: a list's items, a dict's keys, a string's
      characters; anything else raises `TypeError`. */
  function Iterate(v: Json): (r: Result<seq<Json>>)
    ensures r.Ok? <==> (v.JList? || v.JDict? || v.JStr?)
    ensures v.JList? ==> r == Ok(v.items)
    ensures r.Ok? ==> (|r.value| == 0 <==> !Truthy(v))
    ensures r.Err? ==> r.error == "'" + TypeName(v) + "' object is not iterable"
  {
    match v
    case JList(items) => Ok(items)
    case JDict(entries) => Ok(seq(|entries|, i requires 0 <= i < |entries| => JStr(entries[i].0)))
    case JStr(s) => Ok(seq(|s|, i requires 0 <= i < |s| => JStr([s[i]])))
    case _ => Err("'" + TypeName(v) + "' object is not iterable")
  }
}
