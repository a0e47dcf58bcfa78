/** Optional values, used wherever the source has `undefined`, `NaN` or "not found". */
module Wrappers {

  datatype Option<+T> = None | Some(value: T)

  /** The first element of a sequence, if any. */
  function First<T>(s: seq<T>): (r: Option<T>)
    ensures r.None? <==> s == []
    ensures r.Some? ==> r.value == s[0]
  {
    if s == [] then None else Some(s[0])
  }

  /** The last element of a sequence, if any. */
  function Last<T>(s: seq<T>): (r: Option<T>)
    ensures r.None? <==> s == []
    ensures r.Some? ==> r.value == s[|s| - 1]
  {
    if s == [] then None else Some(s[|s| - 1])
  }

  lemma LastOfConcat<T>(a: seq<T>, b: seq<T>)
    ensures Last(a + b) == if b == [] then Last(a) else Last(b)
  {
    if b == [] {
      assert a + b == a;
    }
  }

  lemma FirstOfConcat<T>(a: seq<T>, b: seq<T>)
    ensures First(a + b) == if a == [] then First(b) else First(a)
  {
    if a == [] {
      assert a + b == b;
    }
  }
}
