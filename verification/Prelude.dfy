/** Small definitions shared by the components. */
module Prelude {

  datatype Option<T> = None | Some(value: T)

  const MAX_INT32: int := 0x7fff_ffff
  const MAX_INT: int := 0x7fff_ffff_ffff_ffff

  function Min(a: int, b: int): int {
    if a <= b then a else b
  }

  function Max(a: int, b: int): int {
    if a >= b then a else b
  }

  /** The sum of the first n numbers. */
  function SumTo(s: seq<nat>, n: nat): nat
    requires n <= |s|
  {
    if n == 0 then 0 else SumTo(s, n - 1) + s[n - 1]
  }

  lemma SubsetSize(a: set<int>, b: set<int>)
    requires a <= b
    ensures |a| <= |b|
  {
    assert b == a + (b - a);
    assert |b| == |a| + |b - a|;
  }
}
