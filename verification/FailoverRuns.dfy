/** What sequences of `withRpcFailover` calls on one chain guarantee. */
module FailoverRuns {
  import opened Common
  import opened Providers
  import opened Failover

  /** How the operation and the clock behave during one call. */
  datatype Script = Script(works: (nat, nat) -> bool, clock: nat -> int)

  /** Calls one after another, with no registration in between. */
  function Calls(cfg: Config, h: seq<Health>, scripts: seq<Script>): seq<CallResult>
    decreases scripts
  {
    if scripts == [] then [] else
    var c := Call(cfg, h, scripts[0].works, scripts[0].clock, [], |h|);
    [c] + Calls(cfg, c.health, scripts[1..])
  }

  function Throws(cs: seq<CallResult>): nat {
    if cs == [] then 0 else (if cs[0].ok then 0 else 1) + Throws(cs[1..])
  }

  function Failures(c: CallResult): int { |c.tried| - (if c.ok then 1 else 0) }

  function FailedAttempts(cs: seq<CallResult>): int {
    if cs == [] then 0 else Failures(cs[0]) + FailedAttempts(cs[1..])
  }

  function Least(x: int, y: int): int { if x <= y then x else y }

  // ----- A working provider behind failing ones -----

  /** Provider `j` always works and every earlier one always fails. */
  ghost predicate FirstWorking(works: (nat, nat) -> bool, j: nat) {
    forall a: nat :: works(j, a) && forall i: nat :: i < j ==> !works(i, a)
  }

  /** The failures the providers before `j` can still absorb before they are out. */
  function Potential(cfg: Config, h: seq<Health>, j: nat): nat
    requires j <= |h|
  {
    if j == 0 then 0
    else Potential(cfg, h, j - 1)
         + (if h[j - 1].failureCount < cfg.maxFailures then cfg.maxFailures - h[j - 1].failureCount else 0)
  }

  lemma {:induction false} PotentialUpdate(cfg: Config, h: seq<Health>, j: nat, i: nat, x: Health)
    requires j <= |h| && i < |h|
    ensures i >= j ==> Potential(cfg, h[i := x], j) == Potential(cfg, h, j)
    ensures i < j && h[i].failureCount < cfg.maxFailures && x.failureCount == h[i].failureCount + 1
            ==> Potential(cfg, h[i := x], j) == Potential(cfg, h, j) - 1
  {
    if j > 0 { PotentialUpdate(cfg, h, j - 1, i, x); }
  }

  /** Some provider before `j` is healthy exactly while there is potential left. */
  lemma {:induction false} PotentialMeaning(cfg: Config, h: seq<Health>, j: nat)
    requires j <= |h| && Consistent(cfg, h)
    ensures Potential(cfg, h, j) == 0 <==> forall i :: 0 <= i < j ==> !h[i].isHealthy
  {
    if j > 0 { PotentialMeaning(cfg, h, j - 1); }
  }

  lemma {:induction false} PotentialBound(cfg: Config, h: seq<Health>, j: nat)
    requires j <= |h| && cfg.maxFailures >= 1
    ensures Potential(cfg, h, j) <= j * cfg.maxFailures
  {
    if j > 0 {
      PotentialBound(cfg, h, j - 1);
      assert j * cfg.maxFailures == (j - 1) * cfg.maxFailures + cfg.maxFailures;
    }
  }

  /** The result `c` of a call with `left` attempts left that started with potential `p`. */
  ghost predicate Burns(cfg: Config, c: CallResult, before: nat, left: nat, p: nat, j: nat) {
    && j < |c.health| && Consistent(cfg, c.health) && c.health[j].isHealthy
    && Potential(cfg, c.health, j) == p - Least(p, left)
    && (c.ok <==> p < left)
    && |c.tried| == before + (if c.ok then p + 1 else left)
    && (c.ok ==> c.tried[|c.tried| - 1] == j)
  }

  lemma {:induction false} PickLower(cfg: Config, h: seq<Health>, now: int, j: nat)
    requires Consistent(cfg, h) && j < |h| && h[j].isHealthy
    ensures var (i, h1) := Pick(cfg, h, now);
      i.Some? && i.value <= j && h[i.value].isHealthy && h1 == h
      && (i.value < j <==> Potential(cfg, h, j) > 0)
  {
    PotentialMeaning(cfg, h, j);
  }

  /** With potential left, the next attempt fails on an earlier provider and burns one unit. */
  lemma BurnOne(
    cfg: Config, h: seq<Health>, works: (nat, nat) -> bool, clock: nat -> int, tried: seq<nat>, n: nat, j: nat)
    returns (h': seq<Health>, i: nat)
    requires cfg.maxFailures >= 1 && Consistent(cfg, h) && j < |h| && h[j].isHealthy
    requires FirstWorking(works, j) && |tried| < n && Potential(cfg, h, j) > 0
    ensures |h'| == |h| && Consistent(cfg, h') && h'[j].isHealthy && Potential(cfg, h', j) == Potential(cfg, h, j) - 1
    ensures Call(cfg, h, works, clock, tried, n) == Call(cfg, h', works, clock, tried + [i], n)
  {
    var a := |tried|;
    PickLower(cfg, h, clock(2 * a), j);
    i := Pick(cfg, h, clock(2 * a)).0.value;
    assert works(j, a) && !works(i, a);
    h' := Fail(cfg, h, i, clock(2 * a + 1));
    PotentialUpdate(cfg, h, j, i, h'[i]);
    OperationsKeepConsistent(cfg, h, i, clock(2 * a + 1));
  }

  /** With none left, provider `j` is reached. */
  lemma {:induction false} BurnNone(
    cfg: Config, h: seq<Health>, works: (nat, nat) -> bool, clock: nat -> int, tried: seq<nat>, n: nat, j: nat)
    requires cfg.maxFailures >= 1 && Consistent(cfg, h) && j < |h| && h[j].isHealthy
    requires FirstWorking(works, j) && |tried| < n && Potential(cfg, h, j) == 0
    ensures var c := Call(cfg, h, works, clock, tried, n);
      |c.health| == |h| && Burns(cfg, c, |tried|, n - |tried|, 0, j)
  {
    var a := |tried|;
    PickLower(cfg, h, clock(2 * a), j);
    assert works(j, a);
    PotentialUpdate(cfg, h, j, j, Health(0, h[j].lastFailure, true));
    OperationsKeepConsistent(cfg, h, j, clock(2 * a));
  }

  /** One call burns potential, one unit per failed attempt, and then reaches provider `j`. */
  lemma {:induction false} CallBurnsPotential(
    cfg: Config, h: seq<Health>, works: (nat, nat) -> bool, clock: nat -> int, tried: seq<nat>, n: nat, j: nat)
    requires cfg.maxFailures >= 1 && Consistent(cfg, h) && j < |h| && h[j].isHealthy
    requires FirstWorking(works, j) && |tried| <= n
    ensures var c := Call(cfg, h, works, clock, tried, n);
      |c.health| == |h| && Burns(cfg, c, |tried|, n - |tried|, Potential(cfg, h, j), j)
    decreases n - |tried|
  {
    if |tried| < n && Potential(cfg, h, j) == 0 {
      BurnNone(cfg, h, works, clock, tried, n, j);
    } else if |tried| < n {
      var h', i := BurnOne(cfg, h, works, clock, tried, n, j);
      CallBurnsPotential(cfg, h', works, clock, tried + [i], n, j);
    }
  }

  /** Failed attempts and throws of `k` calls of `n` attempts that start with potential `p`. */
  function Expected(p: nat, n: nat, k: nat): (int, int) {
    if k == 0 then (0, 0) else
    var (failed, throws) := Expected(p - Least(p, n), n, k - 1);
    (Least(p, n) + failed, (if p < n then 0 else 1) + throws)
  }

  /** Each call makes as many failed attempts as it can of what potential is left, and throws if that is all it makes. */
  predicate BurnChain(cs: seq<CallResult>, n: nat, p: nat) {
    cs == [] ||
    (Failures(cs[0]) == Least(p, n) && (cs[0].ok <==> p < n) && BurnChain(cs[1..], n, p - Least(p, n)))
  }

  lemma {:induction false} RunIsBurnChain(cfg: Config, h: seq<Health>, scripts: seq<Script>, j: nat)
    requires cfg.maxFailures >= 1 && Consistent(cfg, h) && j < |h| && h[j].isHealthy
    requires forall q :: 0 <= q < |scripts| ==> FirstWorking(scripts[q].works, j)
    ensures BurnChain(Calls(cfg, h, scripts), |h|, Potential(cfg, h, j)) && |Calls(cfg, h, scripts)| == |scripts|
    decreases scripts
  {
    if scripts != [] {
      var c := Call(cfg, h, scripts[0].works, scripts[0].clock, [], |h|);
      CallBurnsPotential(cfg, h, scripts[0].works, scripts[0].clock, [], |h|, j);
      RunIsBurnChain(cfg, c.health, scripts[1..], j);
      assert ([c] + Calls(cfg, c.health, scripts[1..]))[1..] == Calls(cfg, c.health, scripts[1..]);
    }
  }

  lemma {:induction false} ChainTotals(cs: seq<CallResult>, n: nat, p: nat)
    requires BurnChain(cs, n, p)
    ensures (FailedAttempts(cs), Throws(cs)) == Expected(p, n, |cs|)
    decreases cs
  {
    if cs != [] { ChainTotals(cs[1..], n, p - Least(p, n)); }
  }

  lemma {:induction false} ExpectedClosed(p: nat, n: nat, k: nat)
    requires n > 0
    ensures Expected(p, n, k) == (Least(p, k * n), Least(k, p / n))
  {
    if k > 0 {
      ExpectedClosed(p - Least(p, n), n, k - 1);
      Rounds(p, n, k);
    } else {
      assert p / n >= 0;
    }
  }

  /**
   Over any run of calls, with any clock: the failed attempts are exactly the potential, as far
   as the run goes, and exactly as many calls throw as whole rounds of attempts fit in it.
   */
  lemma {:induction false} FailoverTotals(cfg: Config, h: seq<Health>, scripts: seq<Script>, j: nat)
    requires cfg.maxFailures >= 1 && Consistent(cfg, h) && j < |h| && h[j].isHealthy
    requires forall q :: 0 <= q < |scripts| ==> FirstWorking(scripts[q].works, j)
    ensures var cs, p := Calls(cfg, h, scripts), Potential(cfg, h, j);
      && FailedAttempts(cs) == Least(p, |scripts| * |h|)
      && Throws(cs) == Least(|scripts|, p / |h|)
  {
    RunIsBurnChain(cfg, h, scripts, j);
    ChainTotals(Calls(cfg, h, scripts), |h|, Potential(cfg, h, j));
    ExpectedClosed(Potential(cfg, h, j), |h|, |scripts|);
  }

  /** `i * m <= total < (i + 1) * m` says that `i` is the quotient. */
  lemma Quotient(total: nat, m: nat, i: nat)
    requires m >= 1
    ensures i == total / m <==> i * m <= total < i * m + m
  {
    var q := total / m;
    assert q * m <= total < q * m + m;
    if i < q { Multiples(i, q, m); }
    if q < i { Multiples(q, i, m); }
  }

  lemma Multiples(i: int, q: int, m: nat)
    requires i < q
    ensures i * m + m <= q * m
  {
    assert q * m - (i * m + m) == (q - i - 1) * m;
    assert (q - i - 1) * m >= 0;
  }

  lemma DivStep(p: nat, n: nat)
    requires 0 < n <= p
    ensures p / n == (p - n) / n + 1
  {
    var q := (p - n) / n;
    Quotient(p - n, n, q);
    assert (q + 1) * n == q * n + n;
    Quotient(p, n, q + 1);
  }

  lemma Rounds(p: nat, n: nat, k: nat)
    requires n > 0 && k > 0
    ensures var q := p - Least(p, n);
      && Least(p, n) + Least(q, (k - 1) * n) == Least(p, k * n)
      && (if p < n then 0 else 1) + Least(k - 1, q / n) == Least(k, p / n)
  {
    assert k * n == (k - 1) * n + n && (k - 1) * n >= 0;
    if p >= n {
      DivStep(p, n);
    } else {
      Quotient(p, n, 0);
      Quotient(0, n, 0);
    }
  }

  /** With one failure enough to give a provider up, a call never throws while a later one works. */
  lemma {:induction false} OneFailureNeverThrows(cfg: Config, h: seq<Health>, scripts: seq<Script>, j: nat)
    requires cfg.maxFailures == 1 && Consistent(cfg, h) && j < |h| && h[j].isHealthy
    requires forall q :: 0 <= q < |scripts| ==> FirstWorking(scripts[q].works, j)
    ensures Throws(Calls(cfg, h, scripts)) == 0
  {
    FailoverTotals(cfg, h, scripts, j);
    PotentialBound(cfg, h, j);
    Quotient(Potential(cfg, h, j), |h|, 0);
  }

  // ----- Everything fails and nothing cools down -----

  /** Every attempt fails and the clock stays within one cooldown of `base`. */
  ghost predicate Outage(cfg: Config, s: Script, base: int) {
    && (forall i: nat, a: nat :: !s.works(i, a))
    && (forall t: nat :: base <= s.clock(t) < base + cfg.failoverCooldown)
  }

  /** `k` groups of `m` */
  function Groups(m: nat, k: nat): nat { if k == 0 then 0 else Groups(m, k - 1) + m }

  lemma {:induction false} GroupsIsProduct(m: nat, k: nat)
    ensures Groups(m, k) == k * m
  {
    if k > 0 { GroupsIsProduct(m, k - 1); }
  }

  lemma {:induction false} GroupsGrow(m: nat, i: nat, k: nat)
    requires i < k
    ensures Groups(m, i) + m <= Groups(m, k)
    decreases k
  {
    if i < k - 1 { GroupsGrow(m, i, k - 1); }
  }

  /** Attempt number `total` falls to provider `total / m`. */
  lemma {:induction false} GroupOf(total: nat, m: nat)
    requires m >= 1
    ensures total / m >= 0 && Groups(m, total / m) <= total < Groups(m, total / m) + m
  {
    Quotient(total, m, total / m);
    GroupsIsProduct(m, total / m);
  }

  function Clamp(x: int, m: nat): nat { if x <= 0 then 0 else if x < m then x else m }

  /** The list after `total` failed attempts on fresh providers: the earlier ones are used up first. */
  ghost predicate UsedUp(cfg: Config, h: seq<Health>, total: nat, base: int)
    requires cfg.maxFailures >= 1
  {
    && total <= Groups(cfg.maxFailures, |h|)
    && (forall i :: 0 <= i < |h| ==> ProviderUsed(cfg, h[i], i, total, base))
  }

  ghost predicate ProviderUsed(cfg: Config, x: Health, i: nat, total: nat, base: int)
    requires cfg.maxFailures >= 1
  {
    && x.failureCount == Clamp(total - Groups(cfg.maxFailures, i), cfg.maxFailures)
    && (x.isHealthy <==> x.failureCount < cfg.maxFailures)
    && (x.failureCount > 0 ==> x.lastFailure >= base)
  }

  /** While attempts remain, provider `total / maxFailures` is picked. */
  lemma {:induction false} PickWhileRoom(cfg: Config, h: seq<Health>, total: nat, base: int, now: int)
    requires cfg.maxFailures >= 1 && UsedUp(cfg, h, total, base) && total < Groups(cfg.maxFailures, |h|)
    ensures total / cfg.maxFailures < |h| && Pick(cfg, h, now) == (Some(total / cfg.maxFailures), h)
  {
    var m, q := cfg.maxFailures, total / cfg.maxFailures;
    GroupOf(total, m);
    if |h| < q { GroupsGrow(m, |h|, q); }
    assert ProviderUsed(cfg, h[q], q, total, base);
    forall i | 0 <= i < q ensures !h[i].isHealthy {
      assert ProviderUsed(cfg, h[i], i, total, base);
      GroupsGrow(m, i, q);
    }
    assert FirstHealthy(h, 0) == Some(q);
  }

  /** When none remains, nobody is picked. */
  lemma {:induction false} PickWhenExhausted(cfg: Config, h: seq<Health>, total: nat, base: int, now: int)
    requires cfg.maxFailures >= 1 && UsedUp(cfg, h, total, base) && total == Groups(cfg.maxFailures, |h|)
    requires base <= now < base + cfg.failoverCooldown
    ensures Pick(cfg, h, now) == (None, h)
  {
    forall i | 0 <= i < |h| ensures !h[i].isHealthy && !Cooled(cfg, h[i], now) {
      assert ProviderUsed(cfg, h[i], i, total, base);
      GroupsGrow(cfg.maxFailures, i, |h|);
    }
  }

  lemma {:induction false} FailWhileRoom(cfg: Config, h: seq<Health>, total: nat, base: int, now: int)
    requires cfg.maxFailures >= 1 && UsedUp(cfg, h, total, base) && total < Groups(cfg.maxFailures, |h|)
    requires base <= now && total / cfg.maxFailures < |h|
    ensures UsedUp(cfg, Fail(cfg, h, total / cfg.maxFailures, now), total + 1, base)
  {
    var m, q := cfg.maxFailures, total / cfg.maxFailures;
    var h' := Fail(cfg, h, q, now);
    GroupOf(total, m);
    forall i | 0 <= i < |h'| ensures ProviderUsed(cfg, h'[i], i, total + 1, base) {
      assert ProviderUsed(cfg, h[i], i, total, base);
      if i < q { GroupsGrow(m, i, q); }
      if q < i { GroupsGrow(m, q, i); }
    }
  }

  /** The providers for `k` attempts from number `total` on. */
  function InOrder(m: nat, total: nat, k: nat): seq<nat>
    requires m >= 1
    decreases k
  {
    if k == 0 then [] else [ProviderFor(m, total)] + InOrder(m, total + 1, k - 1)
  }

  function ProviderFor(m: nat, total: nat): nat
    requires m >= 1
  {
    GroupOf(total, m);
    total / m
  }

  lemma {:induction false} InOrderAt(m: nat, total: nat, k: nat)
    requires m >= 1
    ensures |InOrder(m, total, k)| == k
    ensures forall a :: 0 <= a < k ==> InOrder(m, total, k)[a] == ProviderFor(m, total + a)
    decreases k
  {
    if k > 0 {
      InOrderAt(m, total + 1, k - 1);
      forall a | 0 < a < k ensures InOrder(m, total, k)[a] == ProviderFor(m, total + a) {
        assert InOrder(m, total, k)[a] == InOrder(m, total + 1, k - 1)[a - 1];
        assert total + 1 + (a - 1) == total + a;
      }
    }
  }

  lemma InOrderFirst(m: nat, tried: seq<nat>, total: nat, k: nat)
    requires m >= 1 && k > 0
    ensures tried + [ProviderFor(m, total)] + InOrder(m, total + 1, k - 1) == tried + InOrder(m, total, k)
  {
    assert InOrder(m, total, k) == [ProviderFor(m, total)] + InOrder(m, total + 1, k - 1);
  }

  lemma AttemptWhileRoom(cfg: Config, h: seq<Health>, s: Script, base: int, tried: seq<nat>, n: nat, total: nat)
    returns (h': seq<Health>)
    requires cfg.maxFailures >= 1 && Outage(cfg, s, base) && UsedUp(cfg, h, total, base) && |tried| < n
    requires total < Groups(cfg.maxFailures, |h|)
    ensures |h'| == |h| && UsedUp(cfg, h', total + 1, base)
    ensures Call(cfg, h, s.works, s.clock, tried, n)
            == Call(cfg, h', s.works, s.clock, tried + [ProviderFor(cfg.maxFailures, total)], n)
  {
    var a, i := |tried|, ProviderFor(cfg.maxFailures, total);
    PickWhileRoom(cfg, h, total, base, s.clock(2 * a));
    FailWhileRoom(cfg, h, total, base, s.clock(2 * a + 1));
    h' := Fail(cfg, h, i, s.clock(2 * a + 1));
    assert !s.works(i, a);
  }

  /** The health after a call that has only failing attempts from number `total` on. */
  lemma {:induction false} CallWhileRoom(
    cfg: Config, h: seq<Health>, s: Script, base: int, tried: seq<nat>, n: nat, total: nat, end: nat)
    requires cfg.maxFailures >= 1 && Outage(cfg, s, base) && UsedUp(cfg, h, total, base) && |tried| <= n
    requires total + (n - |tried|) == end <= Groups(cfg.maxFailures, |h|)
    ensures var c := Call(cfg, h, s.works, s.clock, tried, n);
      !c.ok && |c.health| == |h| && UsedUp(cfg, c.health, end, base)
    decreases n - |tried|
  {
    if |tried| < n {
      var h' := AttemptWhileRoom(cfg, h, s, base, tried, n, total);
      CallWhileRoom(cfg, h', s, base, tried + [ProviderFor(cfg.maxFailures, total)], n, total + 1, end);
    }
  }

  lemma {:induction false} InOrderNone(m: nat, tried: seq<nat>, total: nat)
    requires m >= 1
    ensures tried + InOrder(m, total, 0) == tried
  {}

  /** Its `left` attempts go to the providers in order and make up `all` with those before. */
  lemma {:induction false} CallInOrder(
    cfg: Config, h: seq<Health>, s: Script, base: int, tried: seq<nat>, left: nat, n: nat, total: nat, all: seq<nat>)
    requires cfg.maxFailures >= 1 && Outage(cfg, s, base) && UsedUp(cfg, h, total, base) && |tried| + left == n
    requires total + left <= Groups(cfg.maxFailures, |h|)
    requires all == tried + InOrder(cfg.maxFailures, total, left)
    ensures Call(cfg, h, s.works, s.clock, tried, n).tried == all
    decreases left
  {
    if left > 0 {
      var h' := AttemptWhileRoom(cfg, h, s, base, tried, n, total);
      InOrderFirst(cfg.maxFailures, tried, total, left);
      CallInOrder(cfg, h', s, base, tried + [ProviderFor(cfg.maxFailures, total)], left - 1, n, total + 1, all);
    } else {
      InOrderNone(cfg.maxFailures, tried, total);
    }
  }

  /**
   Exhaustion order, after `done` calls on a fresh registration: attempt number `A` of the whole run
   uses provider `A / maxFailures`; each of the first `maxFailures` calls makes one attempt per
   provider and later calls make none.
   */
  lemma {:induction false} ExhaustionOrder(cfg: Config, h: seq<Health>, scripts: seq<Script>, base: int, done: nat)
    requires cfg.maxFailures >= 1 && done <= cfg.maxFailures && UsedUp(cfg, h, Groups(|h|, done), base)
    requires forall q :: 0 <= q < |scripts| ==> Outage(cfg, scripts[q], base)
    ensures var cs := Calls(cfg, h, scripts);
      |cs| == |scripts| && forall q :: 0 <= q < |cs| ==> OutageCall(cfg, cs[q], |h|, done + q)
    decreases scripts
  {
    if scripts != [] {
      var c := Call(cfg, h, scripts[0].works, scripts[0].clock, [], |h|);
      var done' := if done < cfg.maxFailures then done + 1 else done;
      OneCallDuringOutage(cfg, h, scripts[0], base, done);
      ExhaustionOrder(cfg, c.health, scripts[1..], base, done');
      var cs, rest := Calls(cfg, h, scripts), Calls(cfg, c.health, scripts[1..]);
      forall q | 0 < q < |cs| ensures OutageCall(cfg, cs[q], |h|, done + q) {
        assert cs[q] == rest[q - 1] && OutageCall(cfg, rest[q - 1], |h|, done' + (q - 1));
      }
    }
  }

  /** Call number `q` of the run: it throws, after one attempt per provider or, in the end, after none. */
  ghost predicate OutageCall(cfg: Config, c: CallResult, n: nat, q: nat)
    requires cfg.maxFailures >= 1
  {
    && !c.ok
    && (q < cfg.maxFailures ==> |c.tried| == n && forall a :: 0 <= a < n ==> c.tried[a] == (q * n + a) / cfg.maxFailures)
    && (q >= cfg.maxFailures ==> c.tried == [])
  }

  lemma {:induction false} GroupsSwap(m: nat, n: nat)
    ensures Groups(m, n) == Groups(n, m)
  {
    GroupsIsProduct(m, n);
    GroupsIsProduct(n, m);
  }

  lemma {:induction false} OutageInOrder(cfg: Config, c: CallResult, n: nat, done: nat)
    requires cfg.maxFailures >= 1 && done < cfg.maxFailures
    requires !c.ok && c.tried == InOrder(cfg.maxFailures, Groups(n, done), n)
    ensures OutageCall(cfg, c, n, done)
  {
    InOrderAt(cfg.maxFailures, Groups(n, done), n);
    GroupsIsProduct(n, done);
  }

  /** A call while every provider still has failures left. */
  lemma EarlyCall(cfg: Config, h: seq<Health>, s: Script, base: int, done: nat)
    requires cfg.maxFailures >= 1 && done < cfg.maxFailures && UsedUp(cfg, h, Groups(|h|, done), base)
    requires Outage(cfg, s, base)
    ensures var c := Call(cfg, h, s.works, s.clock, [], |h|);
      |c.health| == |h| && OutageCall(cfg, c, |h|, done) && UsedUp(cfg, c.health, Groups(|h|, done + 1), base)
  {
    GroupsSwap(cfg.maxFailures, |h|);
    GroupsGrow(|h|, done, cfg.maxFailures);
    CallWhileRoom(cfg, h, s, base, [], |h|, Groups(|h|, done), Groups(|h|, done + 1));
    var all := InOrder(cfg.maxFailures, Groups(|h|, done), |h|);
    assert [] + all == all;
    CallInOrder(cfg, h, s, base, [], |h|, |h|, Groups(|h|, done), all);
    OutageInOrder(cfg, Call(cfg, h, s.works, s.clock, [], |h|), |h|, done);
  }

  /** A call when none has. */
  lemma {:induction false} LateCall(cfg: Config, h: seq<Health>, s: Script, base: int)
    requires cfg.maxFailures >= 1 && UsedUp(cfg, h, Groups(|h|, cfg.maxFailures), base) && Outage(cfg, s, base)
    ensures Call(cfg, h, s.works, s.clock, [], |h|) == CallResult(h, [], false)
  {
    GroupsSwap(cfg.maxFailures, |h|);
    if |h| > 0 { PickWhenExhausted(cfg, h, Groups(|h|, cfg.maxFailures), base, s.clock(0)); }
  }

  lemma OneCallDuringOutage(cfg: Config, h: seq<Health>, s: Script, base: int, done: nat)
    requires cfg.maxFailures >= 1 && done <= cfg.maxFailures && UsedUp(cfg, h, Groups(|h|, done), base)
    requires Outage(cfg, s, base)
    ensures var c := Call(cfg, h, s.works, s.clock, [], |h|);
      && |c.health| == |h| && OutageCall(cfg, c, |h|, done)
      && UsedUp(cfg, c.health, Groups(|h|, if done < cfg.maxFailures then done + 1 else done), base)
  {
    if done < cfg.maxFailures { EarlyCall(cfg, h, s, base, done); } else { LateCall(cfg, h, s, base); }
  }

  /** A fresh registration is the start of that order. */
  lemma {:induction false} FreshIsUnused(cfg: Config, n: nat, base: int)
    requires cfg.maxFailures >= 1
    ensures UsedUp(cfg, AllFresh(n), Groups(n, 0), base)
  {
    assert forall i :: 0 <= i < n ==> ProviderUsed(cfg, AllFresh(n)[i], i, 0, base);
  }
}
