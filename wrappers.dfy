/** Small shared value types: an optional value and Python's sequence indexing rule. */
module Wrappers {

  datatype Option<+T> = None | Some(value: T)

  /** The slot that Python (and numpy) reads for `s[i]` when `s` has length `n`:
      a negative index counts from the end, anything outside `[-n, n)` raises
      IndexError, which is `None` here. */
  function PySlot(n: nat, i: int): (r: Option<nat>)
    ensures r.Some? <==> -(n as int) <= i < n
    ensures r.Some? ==> r.value < n
    ensures r.Some? && 0 <= i ==> r.value == i
    ensures r.Some? && i < 0 ==> r.value == i + n
  {
    if 0 <= i < n then Some(i)
    else if -(n as int) <= i < 0 then Some(i + n)
    else None
  }

  /** `s[i]` with Python's semantics. */
  function PyIndex<T>(s: seq<T>, i: int): (r: Option<T>)
    ensures r.Some? <==> -|s| <= i < |s|
    ensures 0 <= i < |s| ==> r == Some(s[i])
    ensures -|s| <= i < 0 ==> r == Some(s[|s| + i])
  {
    match PySlot(|s|, i)
    case Some(k) => Some(s[k])
    case None => None
  }
}
