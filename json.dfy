/** Decoded JSON values, as the choreography file and a colour hold them, and Python's
    subscript and key lookup on them. */
module Json {
  import opened Wrappers

  /** A number, a string, a list, or an object (its members in document order). */
  datatype Value = Num(n: real) | Str(s: string) | List(items: seq<Value>) | Obj(members: seq<(string, Value)>)

  /** The member names of an object. */
  function Keys(members: seq<(string, Value)>): (r: seq<string>)
    ensures |r| == |members|
    ensures forall k :: 0 <= k < |members| ==> r[k] == members[k].0
  {
    if members == [] then [] else [members[0].0] + Keys(members[1..])
  }

  /** A decoded JSON object never holds a name twice. */
  predicate DistinctKeys(members: seq<(string, Value)>) {
    forall j, k :: 0 <= j < k < |members| ==> members[j].0 != members[k].0
  }

  /** `obj[key]` on a decoded object: the member's value, or `None` for KeyError. */
  function Lookup(members: seq<(string, Value)>, key: string): (r: Option<Value>)
    ensures r.Some? <==> key in Keys(members)
    ensures DistinctKeys(members) ==> forall k :: 0 <= k < |members| && members[k].0 == key ==> r == Some(members[k].1)
  {
    if members == [] then None
    else if members[0].0 == key then Some(members[0].1)
    else Lookup(members[1..], key)
  }

  /** Python's `v[i]` for an integer `i`: a character of a string or an item of a list,
      counting from the end when `i` is negative. Out of range raises IndexError, a
      number is not subscriptable (TypeError) and an object has no integer keys
      (KeyError); each is `None`. */
  function Subscript(v: Value, i: int): (r: Option<Value>)
    ensures v.List? ==> r == PyIndex(v.items, i)
    ensures v.Str? ==> (r.Some? <==> -|v.s| <= i < |v.s|)
    ensures v.Str? && 0 <= i < |v.s| ==> r == Some(Str([v.s[i]]))
    ensures v.Num? || v.Obj? ==> r.None?
  {
    match v
    case List(items) => PyIndex(items, i)
    case Str(s) => (match PyIndex(s, i) case Some(c) => Some(Str([c])) case None => None)
    case _ => None
  }
}
