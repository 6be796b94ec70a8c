/** Arithmetic and sequence vocabulary shared by the models. */
module Common {

  function Min(a: int, b: int): int
  {
    if a < b then a else b
  }

  function Max(a: int, b: int): int
  {
    if a < b then b else a
  }

  function Pow2(n: nat): (r: nat)
    ensures 0 < r
  {
    if n == 0 then 1 else 2 * Pow2(n - 1)
  }

  /** The place after i on a ring of n. */
  function Succ(n: int, i: int): int
  {
    if i + 1 < n then i + 1 else 0
  }

  function Without<T>(q: seq<T>, i: int): seq<T>
    requires 0 <= i < |q|
  {
    q[..i] + q[i + 1..]
  }

  predicate Distinct(q: seq<int>)
  {
    forall i, j | 0 <= i < j < |q| :: q[i] != q[j]
  }

  function Members(q: seq<int>): set<int>
  {
    set k | 0 <= k < |q| :: q[k]
  }

  lemma {:induction false} DistinctSize(q: seq<int>)
    requires Distinct(q)
    ensures |Members(q)| == |q|
  {
    if q != [] {
      var r := q[..|q| - 1];
      DistinctSize(r);
      assert Members(q) == Members(r) + {q[|q| - 1]};
      assert q[|q| - 1] !in Members(r);
    }
  }

  lemma SubsetSize(a: set<int>, b: set<int>)
    requires a <= b
    ensures |a| <= |b|
  {
    assert b == a + (b - a);
  }
}
