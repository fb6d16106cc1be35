/**
  Decoded JSON documents, and the few Python operations the service applies to
  them. Every operation that Python may answer with an exception (KeyError,
  IndexError, TypeError, AttributeError) returns None in that case.
 */
module Json {
  import opened Wrappers

  /**
    A value as `response.json()` gives it back. Numbers are carried, never
    computed with. An object keeps its members in document order; a key that
    occurs twice is bound to its last value, as the decoder does.
   */
  datatype Value =
    | Null
    | Bool(b: bool)
    | Num(n: real)
    | Str(s: string)
    | Arr(items: seq<Value>)
    | Obj(fields: seq<(string, Value)>)

  /** An outbound HTTP response: its status code, and its body decoded as JSON
      (None when the body is not JSON, so that `response.json()` raises). */
  datatype Response = Response(status: int, body: Option<Value>)

  /** Python's truth value of a decoded value. */
  predicate Truthy(v: Value)
  {
    match v
    case Null => false
    case Bool(b) => b
    case Num(n) => n != 0.0
    case Str(s) => s != ""
    case Arr(items) => items != []
    case Obj(fields) => fields != []
  }

  function KeysOf(fields: seq<(string, Value)>): set<string>
  {
    set p | p in fields :: p.0
  }

  /** `(key, v)` is the last member of `fields` whose key is `key`. */
  predicate LastBinding(fields: seq<(string, Value)>, key: string, v: Value)
  {
    exists i :: 0 <= i < |fields| && fields[i] == (key, v) &&
      forall j :: i < j < |fields| ==> fields[j].0 != key
  }

  /** The value bound to `key` in an object: its last binding. */
  function Lookup(fields: seq<(string, Value)>, key: string): (r: Option<Value>)
    ensures r.Some? <==> key in KeysOf(fields)
    ensures r.Some? ==> LastBinding(fields, key, r.value)
  {
    if fields == [] then None
    else
      var n := |fields| - 1;
      if fields[n].0 == key then
        assert fields[n] == (key, fields[n].1);
        Some(fields[n].1)
      else
        var init := fields[..n];
        var r := Lookup(init, key);
        assert KeysOf(fields) == KeysOf(init) + {fields[n].0} by {
          assert fields == init + [fields[n]];
        }
        assert r.Some? ==> LastBinding(fields, key, r.value) by {
          if r.Some? {
            var i :| 0 <= i < |init| && init[i] == (key, r.value) &&
                     forall j :: i < j < |init| ==> init[j].0 != key;
            assert fields[i] == init[i];
          }
        }
        r
  }

  /** `len(v)`: defined on strings, arrays and objects, a TypeError elsewhere. */
  function Len(v: Value): Option<nat>
  {
    match v
    case Str(s) => Some(|s|)
    case Arr(items) => Some(|items|)
    case Obj(fields) => Some(|KeysOf(fields)|)
    case _ => None
  }

  /** `v[i]` for a non-negative integer `i`: an element of an array, a
      one-character string of a string; an object has only string keys, so an
      integer key is a KeyError; other values cannot be indexed. */
  function At(v: Value, i: nat): Option<Value>
  {
    match v
    case Arr(items) => if i < |items| then Some(items[i]) else None
    case Str(s) => if i < |s| then Some(Str([s[i]])) else None
    case _ => None
  }

  /** `v[key]` for a string `key`: only an object binding `key` answers. */
  function Member(v: Value, key: string): Option<Value>
  {
    match v
    case Obj(fields) => Lookup(fields, key)
    case _ => None
  }

  /** `v.get(key, default)`: only objects have `get`. */
  function GetOr(v: Value, key: string, default: Value): Option<Value>
  {
    match v
    case Obj(fields) => Some(match Lookup(fields, key) case Some(x) => x case None => default)
    case _ => None
  }

  /** What `for item in v` visits: the elements of an array, the characters of
      a string (each a one-character string), the keys of an object (listed
      here once per member; the service only ever needs to know whether there
      are any, since a key string then fails the loop body); numbers, booleans
      and null are not iterable. */
  function Iterate(v: Value): Option<seq<Value>>
  {
    match v
    case Arr(items) => Some(items)
    case Str(s) => Some(seq(|s|, i requires 0 <= i < |s| => Str([s[i]])))
    case Obj(fields) => Some(seq(|fields|, i requires 0 <= i < |fields| => Str(fields[i].0)))
    case _ => None
  }
}
