/** Optional values: JavaScript's `null` / `undefined` / `false` placeholders. */
module Wrappers {

  datatype Option<+T> = None | Some(value: T)

  /** `s[i]` as JavaScript evaluates it: `undefined` outside the array. */
  function Lookup<T>(s: seq<T>, i: int): (r: Option<T>)
    ensures r.Some? <==> 0 <= i < |s|
    ensures r.Some? ==> r.value == s[i]
  {
    if 0 <= i < |s| then Some(s[i]) else None
  }
}
