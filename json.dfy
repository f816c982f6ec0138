/**
 * The Python values a decoded JSON payload is made of, and the few built-in
 * operations the core applies to them: truthiness, `dict.get` and `str()`.
 */
module Json {
  import opened Optional
  import opened Numbers

  /**
   * A decoded JSON value. A number is carried as the text `str()` gives it (`110`, `2.0`);
   * an object keeps its keys in insertion order, as a Python dict does. The type does not
   * rule out a repeated key: `json.loads` keeps the last value of one, so a decoded dict
   * never holds two, and on a value that does `Get` finds the first.
   */
  datatype Json =
    | JNull
    | JBool(b: bool)
    | JNum(text: string)
    | JStr(s: string)
    | JArr(items: seq<Json>)
    | JObj(fields: seq<(string, Json)>)

  /** `bool(v)`: None, False, zero and empty strings, lists and dicts are false. */
  predicate Truthy(v: Json)
  {
    match v
    case JNull => false
    case JBool(b) => b
    case JNum(t) => ParseFloat(t) != Some(Finite(0.0))
    case JStr(s) => s != ""
    case JArr(xs) => xs != []
    case JObj(fs) => fs != []
  }

  /** An absent value (`None`) is false, a present one as `Truthy` says. */
  predicate TruthyOpt(v: Option<Json>)
  {
    v.Some? && Truthy(v.value)
  }

  /** `d.get(key)`: the value stored under `key`, or `None`. Its properties are stated by GetSpec. */
  function Get(fields: seq<(string, Json)>, key: string): Option<Json>
  {
    if fields == [] then None
    else if fields[0].0 == key then Some(fields[0].1)
    else Get(fields[1..], key)
  }

  /** `get` finds a value exactly when the key occurs, and the value it finds is stored under the key. */
  lemma {:induction false} GetSpec(fields: seq<(string, Json)>, key: string)
    ensures Get(fields, key).Some? <==> exists i :: 0 <= i < |fields| && fields[i].0 == key
    ensures Get(fields, key).Some? ==> exists i :: 0 <= i < |fields| && fields[i] == (key, Get(fields, key).value)
  {
    if fields != [] && fields[0].0 != key {
      GetSpec(fields[1..], key);
      assert forall i :: 0 <= i < |fields| - 1 ==> fields[1..][i] == fields[i + 1];
    }
  }

  /** `d.get(key, default)`. */
  function GetOr(fields: seq<(string, Json)>, key: string, default: Json): Json
  {
    match Get(fields, key)
    case Some(v) => v
    case None => default
  }

  /** The keys of a dict, in insertion order (what iterating over it yields). */
  function Keys(fields: seq<(string, Json)>): (ks: seq<string>)
    ensures |ks| == |fields| && forall i :: 0 <= i < |fields| ==> ks[i] == fields[i].0
  {
    seq(|fields|, i requires 0 <= i < |fields| => fields[i].0)
  }

  /**
   * The text `str(v)` gives. For a list or a dict that text is its repr, which the model
   * keeps symbolically: a repr starts with `[` or `{`, so it is never a null-sentinel and
   * never a number.
   */
  datatype PyText = Plain(s: string) | Repr(container: Json)

  function PyStr(v: Json): (t: PyText)
    ensures t.Repr? <==> v.JArr? || v.JObj?
  {
    match v
    case JNull => Plain("None")
    case JBool(b) => Plain(if b then "True" else "False")
    case JNum(t) => Plain(t)
    case JStr(s) => Plain(s)
    case JArr(_) => Repr(v)
    case JObj(_) => Repr(v)
  }

  /** `v == n` for a Python value and an integer constant: only a number of that value is equal. */
  predicate EqualsInt(v: Option<Json>, n: int)
  {
    v.Some? && v.value.JNum? && ParseFloat(v.value.text) == Some(Finite(n as real))
  }
}
