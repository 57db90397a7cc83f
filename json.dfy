/**
  JSON values as the Python and TypeScript code sees them after `json.loads` /
  `JSON.parse`: objects keep their keys in insertion order, as Python dicts do.
  Parsing and serialising text are left to the callers as function parameters.
  The operations below are the Python built-ins the source applies to such
  values (`dict.get`, truthiness, `str()`, iteration, `x[0]`), with the
  exceptions they raise on the wrong shape made explicit as a `Fault`.
*/
module Json {
  import opened Wrappers
  import Text

  datatype Json =
    | JNull
    | JBool(b: bool)
    | JInt(i: int)
    | JStr(s: string)
    | JArr(items: seq<Json>)
    | JObj(fields: seq<(string, Json)>)

  /** The Python exception a built-in raises on a value of the wrong shape. */
  datatype Fault = TypeError | AttributeError | KeyError | IndexError | ValueError(message: string)

  /** The value stored under `key`; objects have distinct keys, so the first match is the only one. */
  function Lookup(fields: seq<(string, Json)>, key: string): Option<Json> {
    if fields == [] then None
    else if fields[0].0 == key then Some(fields[0].1)
    else Lookup(fields[1..], key)
  }

  /** Looking a key up past an entry with another key. */
  lemma LookupPast(fields: seq<(string, Json)>, key: string)
    requires fields != [] && fields[0].0 != key
    ensures Lookup(fields, key) == Lookup(fields[1..], key)
  {
  }

  /** Python `d.get(key, default)`. */
  function Get(fields: seq<(string, Json)>, key: string, default: Json): Json {
    Lookup(fields, key).GetOr(default)
  }

  function Keys(fields: seq<(string, Json)>): (r: seq<string>)
    ensures |r| == |fields|
  {
    if fields == [] then [] else [fields[0].0] + Keys(fields[1..])
  }

  /** The value found is stored under the key, and it is found iff some entry has that key. */
  lemma {:induction false} LookupSpec(fields: seq<(string, Json)>, key: string)
    ensures Lookup(fields, key).Some? <==> key in Keys(fields)
    ensures Lookup(fields, key).Some? ==> (key, Lookup(fields, key).value) in fields
  {
    if fields != [] {
      LookupSpec(fields[1..], key);
      assert fields == [fields[0]] + fields[1..];
    }
  }

  /** `Keys` lists the keys position by position. */
  lemma {:induction false} KeysAt(fields: seq<(string, Json)>, k: nat)
    requires k < |fields|
    ensures Keys(fields)[k] == fields[k].0
  {
    if k > 0 {
      KeysAt(fields[1..], k - 1);
    }
  }

  /** Python `d[key] = v`: an existing key keeps its position and takes the new value, a new key goes last. */
  function Put(fields: seq<(string, Json)>, key: string, v: Json): seq<(string, Json)> {
    if fields == [] then [(key, v)]
    else if fields[0].0 == key then [(key, v)] + fields[1..]
    else [fields[0]] + Put(fields[1..], key, v)
  }

  /** After `d[key] = v`, `d.get(key)` is `v`. */
  lemma {:induction false} PutLookupSame(fields: seq<(string, Json)>, key: string, v: Json)
    ensures Lookup(Put(fields, key, v), key) == Some(v)
  {
    if fields != [] && fields[0].0 != key {
      PutLookupSame(fields[1..], key, v);
      assert ([fields[0]] + Put(fields[1..], key, v))[1..] == Put(fields[1..], key, v);
    }
  }

  /** `d[key] = v` leaves every other key's value alone. */
  lemma {:induction false} PutLookupOther(fields: seq<(string, Json)>, key: string, v: Json, other: string)
    requires other != key
    ensures Lookup(Put(fields, key, v), other) == Lookup(fields, other)
  {
    if fields == [] {
      assert [(key, v)][1..] == [];
    } else if fields[0].0 == key {
      assert ([(key, v)] + fields[1..])[1..] == fields[1..];
    } else {
      PutLookupOther(fields[1..], key, v, other);
      assert ([fields[0]] + Put(fields[1..], key, v))[1..] == Put(fields[1..], key, v);
    }
  }

  /** The keys after `d[key] = v`: unchanged when `key` was present, `key` appended otherwise. */
  lemma {:induction false} PutKeys(fields: seq<(string, Json)>, key: string, v: Json)
    ensures Keys(Put(fields, key, v)) == if key in Keys(fields) then Keys(fields) else Keys(fields) + [key]
  {
    if fields == [] {
    } else if fields[0].0 == key {
      var r := [(key, v)] + fields[1..];
      assert r[1..] == fields[1..];
      assert Keys(r) == [key] + Keys(fields[1..]);
    } else {
      var rest := Put(fields[1..], key, v);
      PutKeys(fields[1..], key, v);
      assert ([fields[0]] + rest)[1..] == rest;
      assert Keys([fields[0]] + rest) == [fields[0].0] + Keys(rest);
      assert Keys(fields) == [fields[0].0] + Keys(fields[1..]);
      assert key in Keys(fields) <==> key in Keys(fields[1..]);
    }
  }

  /** Python truthiness: `None`, `False`, `0`, `""`, `[]` and `{}` are false. */
  predicate Truthy(j: Json) {
    match j
    case JNull => false
    case JBool(b) => b
    case JInt(i) => i != 0
    case JStr(s) => s != ""
    case JArr(items) => items != []
    case JObj(fields) => fields != []
  }

  /** Python `a or b`. */
  function Or(a: Json, b: Json): (r: Json)
    ensures Truthy(a) ==> r == a
    ensures !Truthy(a) ==> r == b
  {
    if Truthy(a) then a else b
  }

  predicate IsDict(j: Json) { j.JObj? }
  predicate IsList(j: Json) { j.JArr? }

  /** Python `repr()`, with strings quoted by `'` and not escaped. */
  function Repr(j: Json): string
    decreases j, 1
  {
    match j
    case JStr(s) => "'" + s + "'"
    case _ => Str(j)
  }

  /** Python `str()` of a value. */
  function Str(j: Json): string
    decreases j, 0
  {
    match j
    case JNull => "None"
    case JBool(b) => if b then "True" else "False"
    case JInt(i) => Text.IntToString(i)
    case JStr(s) => s
    case JArr(items) =>
      "[" + Text.Join(seq(|items|, k requires 0 <= k < |items| => Repr(items[k])), ", ") + "]"
    case JObj(fields) =>
      var entries := seq(|fields|, k requires 0 <= k < |fields| =>
        assert fields[k] in fields; "'" + fields[k].0 + "': " + Repr(fields[k].1));
      "{" + Text.Join(entries, ", ") + "}"
  }

  /** What `for x in j` iterates over: list items, the characters of a string, the keys of a dict. */
  function Iter(j: Json): (r: Result<seq<Json>, Fault>)
    ensures r.Success? <==> (j.JArr? || j.JStr? || j.JObj?)
    ensures j.JArr? ==> r == Success(j.items)
  {
    match j
    case JArr(items) => Success(items)
    case JStr(s) => Success(seq(|s|, i requires 0 <= i < |s| => JStr([s[i]])))
    case JObj(fields) => Success(seq(|fields|, i requires 0 <= i < |fields| => JStr(fields[i].0)))
    case _ => Failure(TypeError)
  }

  /** Python `j[0]`. No JSON object has the key `0`. */
  function First(j: Json): (r: Result<Json, Fault>)
    ensures j.JArr? && j.items != [] ==> r == Success(j.items[0])
    ensures r.Success? ==> (j.JArr? || j.JStr?) && Truthy(j)
  {
    match j
    case JArr(items) => if items == [] then Failure(IndexError) else Success(items[0])
    case JStr(s) => if s == [] then Failure(IndexError) else Success(JStr([s[0]]))
    case JObj(_) => Failure(KeyError)
    case _ => Failure(TypeError)
  }
}
