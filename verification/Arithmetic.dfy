// Arithmetic shared by the bounds of several modules.
module Arithmetic {
  function Min(a: int, b: int): int {
    if a < b then a else b
  }

  function Max(a: int, b: int): int {
    if a < b then b else a
  }

  // n times x, kept away from the solver's nonlinear arithmetic.
  function Multiple(n: nat, x: nat): nat {
    if n == 0 then 0 else Multiple(n - 1, x) + x
  }

  lemma {:induction false} MultipleIsProduct(n: nat, x: nat)
    ensures Multiple(n, x) == n * x
  {
    if n > 0 {
      MultipleIsProduct(n - 1, x);
    }
  }

  lemma {:induction false} MultipleMonotone(m: nat, n: nat, x: nat)
    requires m <= n
    ensures Multiple(m, x) <= Multiple(n, x)
  {
    if m < n {
      MultipleMonotone(m, n - 1, x);
    }
  }

  lemma {:induction false} MultipleGrows(n: nat, x: nat, y: nat)
    requires x <= y
    ensures Multiple(n, x) <= Multiple(n, y)
  {
    if n > 0 {
      MultipleGrows(n - 1, x, y);
    }
  }
}
