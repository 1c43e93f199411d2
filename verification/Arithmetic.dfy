/** Extrema, and division facts the solver does not find by itself. */
module Arithmetic {

  function Max(a: nat, b: nat): nat { if a > b then a else b }

  function Min(a: nat, b: nat): nat { if a < b then a else b }

  // The least index from `from` on that satisfies p, or `end`.
  function Least(p: nat -> bool, from: nat, end: nat): (k: nat)
    requires from <= end
    ensures from <= k <= end && (k < end ==> p(k)) && (forall j :: from <= j < k ==> !p(j))
    decreases end - from
  {
    if from == end || p(from) then from else Least(p, from + 1, end)
  }

  lemma MulAtLeast(d: nat, k: nat)
    requires d >= 1
    ensures d * k >= k
  {
    assert d * k == (d - 1) * k + k;
  }

  // Quotient and remainder are unique.
  lemma DivModIs(n: int, m: nat, q: int, r: nat)
    requires r < m && n == q * m + r
    ensures n / m == q && n % m == r
  {
    var d := n / m - q;
    assert n == (n / m) * m + n % m;
    assert d * m == r - n % m;
    if d >= 1 {
      MulAtLeast(d, m);
    }
  }
}
