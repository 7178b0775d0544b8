/** The Python runtime values that the MCP server and the index builder handle.

    Values are modelled structurally; a dict is the sequence of its items in
    insertion order.  A Python dict never holds a key twice (`DistinctKeys`); an
    item list that repeats a key is no Python dict and the model says nothing
    about it.  Exceptions are modelled as an `Outcome` that carries `str(e)`.
 */
module Python {

  datatype Option<+T> = None | Some(value: T)

  /** Either the value an expression evaluates to, or the text `str(e)` of the exception it raised. */
  datatype Outcome<+T> = Ok(value: T) | Raised(msg: string)

  datatype Value =
    | PyNone
    | PyBool(b: bool)
    | PyInt(i: int)
    | PyFloat(f: real)
    | PyStr(s: string)
    | PyList(items: seq<Value>)
    | PyTuple(items: seq<Value>)
    | PyDict(entries: seq<(Value, Value)>)
    | PyObject(kind: string)

  /** Python's truth test (`if v:` / `not v` / `v or ...`). */
  predicate Truthy(v: Value) {
    match v
    case PyNone => false
    case PyBool(b) => b
    case PyInt(i) => i != 0
    case PyFloat(f) => f != 0.0
    case PyStr(s) => s != ""
    case PyList(xs) => xs != []
    case PyTuple(xs) => xs != []
    case PyDict(es) => es != []
    case PyObject(_) => true
  }

  /** The values `len(v)` accepts; for exactly these `x in v` does not raise either. */
  predicate Sized(v: Value) {
    v.PyStr? || v.PyList? || v.PyTuple? || v.PyDict?
  }

  /** `d.get(key)` on a dict's items: the value stored under `key`, if any. */
  function DictGet(entries: seq<(Value, Value)>, key: Value): (r: Option<Value>)
    ensures r.Some? <==> exists i :: 0 <= i < |entries| && entries[i].0 == key
    ensures r.Some? ==> (key, r.value) in entries
  {
    if entries == [] then None
    else if entries[0].0 == key then Some(entries[0].1)
    else DictGet(entries[1..], key)
  }

  /** The items of a real dict: no key occurs twice. */
  predicate DistinctKeys(entries: seq<(Value, Value)>) {
    forall i, j :: 0 <= i < j < |entries| ==> entries[i].0 != entries[j].0
  }

  /** On a real dict, `d.get(key)` is the value of the one item with that key. */
  lemma DictGetUnique(entries: seq<(Value, Value)>, key: Value, i: int)
    requires DistinctKeys(entries) && 0 <= i < |entries| && entries[i].0 == key
    ensures DictGet(entries, key) == Some(entries[i].1)
  {
  }

  /** `t in s` for two Python strings: `t` occurs contiguously in `s`. */
  predicate IsSubstring(t: string, s: string)
    decreases |s|
  {
    t <= s || (s != [] && IsSubstring(t, s[1..]))
  }

  /** A string occurs in any string built around it. */
  lemma {:induction false} SubstringOfConcat(p: string, t: string, q: string)
    ensures IsSubstring(t, p + t + q)
  {
    if p == [] {
      assert p + t + q == t + q;
      assert t <= t + q;
    } else {
      SubstringOfConcat(p[1..], t, q);
      assert (p + t + q)[1..] == p[1..] + t + q;
    }
  }

  /** `name in container` for a string `name` and a sized container: an element of a
      list or tuple, a key of a dict, or a substring of a string. */
  predicate Member(name: string, container: Value)
    requires Sized(container)
  {
    match container
    case PyStr(s) => IsSubstring(name, s)
    case PyList(xs) => PyStr(name) in xs
    case PyTuple(xs) => PyStr(name) in xs
    case PyDict(es) => exists e :: e in es && e.0 == PyStr(name)
  }
}
