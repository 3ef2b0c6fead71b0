/** Optional values: the model's stand-in for Python's None and for a call that raised. */
module Wrappers {

  datatype Option<+T> = None | Some(value: T)

}

/** Searching a sequence from the front. */
module Sequences {

  /** Position of the first `x` in `s`, or `|s|` when `s` holds no `x`. */
  function IndexOf<T(==)>(s: seq<T>, x: T): (i: nat)
    ensures i <= |s|
    ensures i < |s| ==> s[i] == x
    ensures i == |s| <==> x !in s
    ensures forall j :: 0 <= j < i ==> s[j] != x
  {
    if s == [] then 0
    else if s[0] == x then 0
    else 1 + IndexOf(s[1..], x)
  }

  /** An occurrence with no earlier one is the one `IndexOf` finds. */
  lemma {:induction false} IndexOfFirst<T>(s: seq<T>, x: T, k: nat)
    requires k < |s| && s[k] == x
    requires forall j :: 0 <= j < k ==> s[j] != x
    ensures IndexOf(s, x) == k
  {
  }
}
