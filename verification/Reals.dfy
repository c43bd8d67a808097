/** Real arithmetic shared by the timing models. */
module Reals {

  function Min(x: real, y: real): real { if x <= y then x else y }

  function Max(x: real, y: real): real { if x >= y then x else y }

  /** `n` times `x` */
  function Times(x: real, n: nat): real { if n == 0 then 0.0 else Times(x, n - 1) + x }

  lemma {:induction false} TimesIsProduct(x: real, n: nat)
    ensures Times(x, n) == n as real * x
  {
    if n > 0 { TimesIsProduct(x, n - 1); }
  }

  lemma {:induction false} TimesGrows(x: real, m: nat, n: nat)
    requires x >= 0.0 && m <= n
    ensures 0.0 <= Times(x, m) <= Times(x, n)
    decreases n
  {
    if m < n {
      TimesGrows(x, m, n - 1);
    } else if n > 0 {
      TimesGrows(x, m - 1, n - 1);
    }
  }

  lemma Scale(x: real, y: real, z: real)
    requires 0.0 <= x && y <= z
    ensures x * y <= x * z
  {}
}
