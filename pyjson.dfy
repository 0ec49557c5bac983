/**
 * JSON values as the Python handler sees them after `request.json()` or
 * `resp.json()`: None, bool, int, str, list and dict, with Python's
 * truthiness, `dict.get`, iteration and the exceptions these raise on a
 * value of the wrong type.
 */
module PyJson {
  import opened Wrappers

  /** A decoded JSON value. An object keeps its entries in document order;
      a dict built by `json.loads` has distinct keys, and `Lookup` takes the
      first entry with the key. Numbers with a fraction or an exponent are
      not modelled. */
  datatype Json =
    | Null
    | Bool(b: bool)
    | Int(i: int)
    | Str(s: string)
    | List(items: seq<Json>)
    | Object(entries: seq<(string, Json)>)

  /** The exceptions the core can raise on a value of an unexpected type. */
  datatype PyError =
    | AttributeError   // a method such as `.get` called on a non-dict
    | TypeError        // not iterable, not subscriptable, unhashable, `range` of a non-int
    | KeyError         // `d[0]` on a dict, whose keys are strings

  /** Python's `bool(x)`. */
  predicate Truthy(j: Json) {
    match j
    case Null => false
    case Bool(b) => b
    case Int(i) => i != 0
    case Str(s) => s != ""
    case List(items) => items != []
    case Object(entries) => entries != []
  }

  /** The value stored under `key`, if any. */
  function Lookup(entries: seq<(string, Json)>, key: string): (r: Option<Json>)
    ensures r.Some? <==> exists k :: 0 <= k < |entries| && entries[k].0 == key
    ensures r.Some? ==> exists k :: 0 <= k < |entries| && entries[k] == (key, r.value)
  {
    if entries == [] then None
    else if entries[0].0 == key then Some(entries[0].1)
    else
      var r := Lookup(entries[1..], key);
      assert forall k :: 1 <= k < |entries| ==> entries[k] == entries[1..][k - 1];
      r
  }

  /** `d.get(key, default)`. */
  function GetOr(entries: seq<(string, Json)>, key: string, default: Json): Json {
    match Lookup(entries, key)
    case Some(v) => v
    case None => default
  }

  /** `d.get(key)`, which answers None for a missing key. */
  function Get(entries: seq<(string, Json)>, key: string): Json {
    GetOr(entries, key, Null)
  }

  /** The items `for x in j` visits: the elements of a list, the
      one-character strings of a str, the keys of a dict; anything else is
      not iterable. */
  function Iterate(j: Json): (r: Result<seq<Json>, PyError>)
    ensures r.Ok? <==> j.List? || j.Str? || j.Object?
    ensures r.Ok? ==> (|r.value| == 0 <==> !Truthy(j))
    ensures r.Ok? && !j.List? ==> forall k :: 0 <= k < |r.value| ==> r.value[k].Str?
    ensures j.List? ==> r == Ok(j.items)
    ensures j.Str? ==> |r.value| == |j.s| && forall k :: 0 <= k < |j.s| ==> r.value[k] == Str([j.s[k]])
    ensures j.Object? ==> |r.value| == |j.entries| && forall k :: 0 <= k < |j.entries| ==> r.value[k] == Str(j.entries[k].0)
  {
    match j
    case List(items) => Ok(items)
    case Str(s) => Ok(seq(|s|, k requires 0 <= k < |s| => Str([s[k]])))
    case Object(entries) => Ok(seq(|entries|, k requires 0 <= k < |entries| => Str(entries[k].0)))
    case _ => Err(TypeError)
  }

  /** `j[0]` on a value already known to be truthy. */
  function First(j: Json): (r: Result<Json, PyError>)
    requires Truthy(j)
    ensures r.Ok? <==> j.List? || j.Str?
    ensures j.List? ==> r == Ok(j.items[0])
    ensures j.Str? ==> r == Ok(Str([j.s[0]]))
    ensures j.Object? ==> r == Err(KeyError)
    ensures !j.List? && !j.Str? && !j.Object? ==> r == Err(TypeError)
  {
    match j
    case List(items) => Ok(items[0])
    case Str(s) => Ok(Str([s[0]]))
    case Object(_) => Err(KeyError)
    case _ => Err(TypeError)
  }

  /** On a sequence, `j[0]` is the first item `for x in j` visits. */
  lemma FirstIsFirstIterated(j: Json)
    requires Truthy(j) && (j.List? || j.Str?)
    ensures Iterate(j).Ok? && |Iterate(j).value| > 0 && First(j) == Ok(Iterate(j).value[0])
  {
  }

  /** Whether `j` can be a dict key (lists and dicts are unhashable). */
  predicate Hashable(j: Json) {
    !j.List? && !j.Object?
  }
}
