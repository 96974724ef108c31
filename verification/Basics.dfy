/** Small value types and sequence helpers shared by every module. */
module Basics {

  datatype Option<+T> = None | Some(value: T)

  datatype Result<+T, +E> = Ok(value: T) | Err(error: E)

  function Max(a: int, b: int): int {
    if a < b then b else a
  }

  predicate Distinct<T(==)>(s: seq<T>) {
    forall i, j :: 0 <= i < j < |s| ==> s[i] != s[j]
  }

  /** Order-preserving removal of repeats, `tuple(dict.fromkeys(s))` in the original. */
  function Dedupe<T(==, !new)>(s: seq<T>): (r: seq<T>)
    ensures forall x :: x in r <==> x in s
    ensures Distinct(r)
  {
    if s == [] then []
    else
      var rest := Dedupe(s[..|s| - 1]);
      var last := s[|s| - 1];
      assert s == s[..|s| - 1] + [last];
      if last in rest then rest else rest + [last]
  }

  lemma DedupeEmpty<T(!new)>(s: seq<T>)
    ensures Dedupe(s) == [] <==> s == []
  {
    if s != [] {
      assert s[0] in Dedupe(s);
    }
  }
}
