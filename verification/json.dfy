/**
 * Decoded JSON values, the shapes `json.loads` hands to the slide code.
 * An object keeps its members in document order, like a Python `dict`. For a
 * repeated key `json.loads` keeps the last value while `Get` finds the first,
 * so the model agrees with it on objects whose keys are distinct
 * (`DistinctKeys`), which is what it assumes of every decoded object.
 */
module Json {
  import opened Outcomes

  datatype Json =
    | JNull
    | JBool(b: bool)
    | JNumber(n: real)
    | JString(s: string)
    | JArray(items: seq<Json>)
    | JObject(members: seq<Member>)

  datatype Member = Member(key: string, value: Json)

  /** Python's `bool(v)` for a decoded value: null, false, zero and empty containers are false. */
  predicate Truthy(j: Json) {
    match j
    case JNull => false
    case JBool(b) => b
    case JNumber(n) => n != 0.0
    case JString(s) => |s| > 0
    case JArray(xs) => |xs| > 0
    case JObject(ms) => |ms| > 0
  }

  /** `d.keys()` as a set. */
  function Keys(ms: seq<Member>): set<string> {
    set m | m in ms :: m.key
  }

  /** `d.get(k)`: the value stored under `k`, if `k` is a key. */
  function Get(ms: seq<Member>, k: string): (r: Option<Json>)
    ensures r.Some? <==> k in Keys(ms)
    ensures r.Some? ==> Member(k, r.value) in ms
  {
    if |ms| == 0 then None
    else if ms[0].key == k then Some(ms[0].value)
    else
      assert Keys(ms) == {ms[0].key} + Keys(ms[1..]) by {
        assert ms == [ms[0]] + ms[1..];
      }
      Get(ms[1..], k)
  }

  /** No key occurs twice among the members. */
  predicate DistinctKeys(ms: seq<Member>) {
    forall i, j :: 0 <= i < j < |ms| ==> ms[i].key != ms[j].key
  }

  /** With distinct keys, `d.get(k)` is the value of the one member named `k`. */
  lemma {:induction false} GetDistinct(ms: seq<Member>, k: string, v: Json)
    requires DistinctKeys(ms)
    ensures Get(ms, k) == Some(v) <==> Member(k, v) in ms
  {
    if |ms| > 0 {
      var tail := ms[1..];
      assert DistinctKeys(tail) by {
        assert forall i :: 0 <= i < |tail| ==> tail[i] == ms[i + 1];
      }
      GetDistinct(tail, k, v);
      assert ms == [ms[0]] + tail;
      forall m | m in tail
        ensures m.key != ms[0].key
      {
        var i :| 0 <= i < |tail| && tail[i] == m;
        assert ms[i + 1] == m;
      }
    }
  }

  /** `d.get(k, default)`. */
  function GetOr(ms: seq<Member>, k: string, default: Json): Json {
    Get(ms, k).GetOr(default)
  }

  /**
   * What `for e in v` visits: a list's items, a string's one-character strings,
   * an object's keys; numbers, booleans and null are not iterable.
   */
  function Iterate(j: Json): (r: Option<seq<Json>>)
    ensures r.Some? <==> (j.JArray? || j.JString? || j.JObject?)
    ensures j.JArray? ==> r == Some(j.items)
    ensures j.JString? ==> |r.value| == |j.s| && forall i :: 0 <= i < |j.s| ==> r.value[i] == JString([j.s[i]])
    ensures j.JObject? ==> |r.value| == |j.members| && forall i :: 0 <= i < |j.members| ==> r.value[i] == JString(j.members[i].key)
  {
    match j
    case JArray(xs) => Some(xs)
    case JString(s) => Some(seq(|s|, i requires 0 <= i < |s| => JString([s[i]])))
    case JObject(ms) => Some(seq(|ms|, i requires 0 <= i < |ms| => JString(ms[i].key)))
    case _ => None
  }

  /**
   * `str(v)` as an f-string prints a decoded value; how Python spells numbers,
   * lists and dicts is left to `show`.
   */
  function Str(j: Json, show: Json -> string): string {
    match j
    case JString(s) => s
    case JNull => "None"
    case JBool(b) => if b then "True" else "False"
    case _ => show(j)
  }

  /**
   * `float(v)`: numbers convert as they are, booleans to 1 and 0, strings through
   * Python's float grammar (`parseFloat`); null, lists and dicts raise.
   */
  function ToFloat(j: Json, parseFloat: string -> Option<real>): Option<real> {
    match j
    case JNumber(n) => Some(n)
    case JBool(b) => Some(if b then 1.0 else 0.0)
    case JString(s) => parseFloat(s)
    case _ => None
  }
}
