/** Exponential backoff, as the retry wrapper and the WebSocket reconnect timer compute it. */
module Backoff {
  import opened Reals

  function Pow(base: real, n: nat): real { if n == 0 then 1.0 else base * Pow(base, n - 1) }

  /** `initial * base^n` */
  function Raised(initial: real, base: real, n: nat): real {
    if n == 0 then initial else base * Raised(initial, base, n - 1)
  }

  lemma {:induction false} RaisedIsPower(initial: real, base: real, n: nat)
    ensures Raised(initial, base, n) == initial * Pow(base, n)
  {
    if n > 0 {
      RaisedIsPower(initial, base, n - 1);
      assert base * (initial * Pow(base, n - 1)) == initial * (base * Pow(base, n - 1));
    }
  }

  /** The delay before jitter of the `k`-th wait, `k` counted from one. */
  function Nominal(initial: real, base: real, cap: real, k: nat): real
    requires k >= 1
  {
    Min(Raised(initial, base, k - 1), cap)
  }

  /** The smaller of `initial * base^(k - 1)` and the cap. */
  lemma {:induction false} NominalIsPower(initial: real, base: real, cap: real, k: nat)
    requires k >= 1
    ensures var d := initial * Pow(base, k - 1);
      Nominal(initial, base, cap, k) == if d <= cap then d else cap
  {
    RaisedIsPower(initial, base, k - 1);
  }

  lemma Enlarge(x: real, base: real)
    requires x >= 0.0 && base >= 1.0
    ensures x <= base * x
  {
    Scale(x, 1.0, base);
  }

  lemma {:induction false} RaisedGrows(initial: real, base: real, n: nat)
    requires initial >= 0.0 && base >= 1.0
    ensures initial <= Raised(initial, base, n) <= Raised(initial, base, n + 1)
  {
    if n > 0 { RaisedGrows(initial, base, n - 1); }
    Enlarge(Raised(initial, base, n), base);
  }

  /** Waits never get shorter, and stay between the initial delay and the cap. */
  lemma {:induction false} NominalGrows(initial: real, base: real, cap: real, k: nat, m: nat)
    requires 0.0 <= initial <= cap && base >= 1.0 && 1 <= k <= m
    ensures initial <= Nominal(initial, base, cap, k) <= Nominal(initial, base, cap, m) <= cap
    decreases m
  {
    if k == m {
      RaisedGrows(initial, base, k - 1);
    } else {
      NominalGrows(initial, base, cap, k, m - 1);
      RaisedGrows(initial, base, m - 2);
    }
  }
}
