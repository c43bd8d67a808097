/**
 `withRpcFailover`: up to one attempt per registered provider, each attempt retried on the
 provider `getProvider` picks, with failures and successes fed back into the health list.
 */
module Failover {
  import opened Common
  import opened Retry
  import opened Providers
  import opened RateLimiter

  /** One call: which provider index each attempt used, whether the last one worked, the health after. */
  datatype CallResult = CallResult(health: seq<Health>, tried: seq<nat>, ok: bool)

  /**
   The rest of a call of at most `count` attempts that has tried `tried` in vain; the clock is
   read before each pick and after each failure.
   */
  function Call(
    cfg: Config, h: seq<Health>, works: (nat, nat) -> bool, clock: nat -> int, tried: seq<nat>, count: nat)
    : (c: CallResult)
    decreases count - |tried|
  {
    var a := |tried|;
    if a >= count then CallResult(h, tried, false) else
    match Pick(cfg, h, clock(2 * a))
    case (None, _) => CallResult(h, tried, false)
    case (Some(i), h1) =>
      if works(i, a) then CallResult(Succeed(h1, i), tried + [i], true)
      else Call(cfg, Fail(cfg, h1, i, clock(2 * a + 1)), works, clock, tried + [i], count)
  }

  // ----- The method -----

  /** `Failed` keeps the last error caught; `undefined` is `None`. */
  datatype Reply<+T> = Done(value: T) | Failed(lastError: Option<Err>) | NoProvider

  /** The invocations of one attempt, seen by the retry loop. */
  function Invocations<T>(op: (nat, nat, nat) -> Attempt<T>, p: nat, a: nat): nat -> Attempt<T> {
    (k: nat) => op(p, a, k)
  }

  /** What attempt `a` on provider `p` comes to after its retries. */
  function Outcome<T>(o: Options, op: (nat, nat, nat) -> Attempt<T>, p: nat, a: nat): Reply<T> {
    if o.maxAttempts < 1 then Failed(None) else
    match op(p, a, Settling(o, Invocations(op, p, a), 1))
    case Returned(v) => Done(v)
    case Thrown(e) => Failed(Some(e))
  }

  function Works<T>(o: Options, op: (nat, nat, nat) -> Attempt<T>, ids: seq<nat>): (nat, nat) -> bool {
    (i: nat, a: nat) => i < |ids| && Outcome(o, op, ids[i], a).Done?
  }

  predicate Indices(ids: seq<nat>, tried: seq<nat>) { forall a :: 0 <= a < |tried| ==> tried[a] < |ids| }

  /** The reply after a list of attempts: that of the last one. */
  function LastReply<T>(o: Options, op: (nat, nat, nat) -> Attempt<T>, ids: seq<nat>, tried: seq<nat>): Reply<T>
    requires Indices(ids, tried)
  {
    if tried == [] then Failed(None) else Outcome(o, op, ids[tried[|tried| - 1]], |tried| - 1)
  }

  function Budget(o: Options): nat { if o.maxAttempts < 1 then 0 else o.maxAttempts }

  /** How often attempt `a` on provider `p` invokes the operation. */
  function Invoked<T>(o: Options, op: (nat, nat, nat) -> Attempt<T>, p: nat, a: nat): (n: nat)
    ensures n <= Budget(o)
  {
    if o.maxAttempts < 1 then 0 else Settling(o, Invocations(op, p, a), 1)
  }

  function TotalInvoked<T>(o: Options, op: (nat, nat, nat) -> Attempt<T>, ids: seq<nat>, tried: seq<nat>): nat
    requires Indices(ids, tried)
  {
    if tried == [] then 0 else
    var a := |tried| - 1;
    TotalInvoked(o, op, ids, tried[..a]) + Invoked(o, op, ids[tried[a]], a)
  }

  /** What a call has to show for the attempts made: the last reply and the invocation count. */
  predicate Report<T(==)>(
    o: Options, op: (nat, nat, nat) -> Attempt<T>, ids: seq<nat>, tried: seq<nat>, r: Reply<T>, n: nat)
  {
    Indices(ids, tried) && r == LastReply(o, op, ids, tried) && !r.NoProvider? && n == TotalInvoked(o, op, ids, tried)
  }

  lemma ReportStep<T>(
    o: Options, op: (nat, nat, nat) -> Attempt<T>, ids: seq<nat>, tried: seq<nat>, r: Reply<T>, n: nat, i: nat)
    requires Report(o, op, ids, tried, r, n) && i < |ids|
    ensures Report(o, op, ids, tried + [i], Outcome(o, op, ids[i], |tried|), n + Invoked(o, op, ids[i], |tried|))
  {
    assert (tried + [i])[..|tried|] == tried;
  }

  lemma {:induction false} TotalInvokedBound<T>(
    o: Options, op: (nat, nat, nat) -> Attempt<T>, ids: seq<nat>, tried: seq<nat>, n: nat)
    requires Indices(ids, tried)
    requires |tried| <= n
    ensures TotalInvoked(o, op, ids, tried) <= n * Budget(o)
  {
    if tried != [] {
      TotalInvokedBound(o, op, ids, tried[..|tried| - 1], n - 1);
      assert n * Budget(o) == (n - 1) * Budget(o) + Budget(o);
    }
  }

  lemma {:induction false} CallLength(
    cfg: Config, h: seq<Health>, works: (nat, nat) -> bool, clock: nat -> int, tried: seq<nat>, count: nat)
    requires |tried| <= count
    ensures |Call(cfg, h, works, clock, tried, count).tried| <= count
    decreases count - |tried|
  {
    var a := |tried|;
    if a < count {
      match Pick(cfg, h, clock(2 * a))
      case (None, _) =>
      case (Some(i), h1) =>
        CallLength(cfg, Fail(cfg, h1, i, clock(2 * a + 1)), works, clock, tried + [i], count);
    }
  }

  /** Of all attempts only the last of a successful call worked. */
  ghost predicate LastOnly(works: (nat, nat) -> bool, c: CallResult) {
    forall a :: 0 <= a < |c.tried| ==> (works(c.tried[a], a) <==> c.ok && a == |c.tried| - 1)
  }

  lemma {:induction false} OnlyLastWorks(
    cfg: Config, h: seq<Health>, works: (nat, nat) -> bool, clock: nat -> int, tried: seq<nat>, count: nat)
    requires forall a :: 0 <= a < |tried| ==> !works(tried[a], a)
    ensures LastOnly(works, Call(cfg, h, works, clock, tried, count))
    decreases count - |tried|
  {
    var a := |tried|;
    if a < count {
      match Pick(cfg, h, clock(2 * a))
      case (None, _) =>
      case (Some(i), h1) =>
        if !works(i, a) { OnlyLastWorks(cfg, Fail(cfg, h1, i, clock(2 * a + 1)), works, clock, tried + [i], count); }
    }
  }

  /**
   In one call the operation completes at most once, in its very last invocation: what it does on
   completing is never done twice.
   */
  lemma {:induction false} CompletesAtMostOnce<T>(
    cfg: Config, h: seq<Health>, o: Options, op: (nat, nat, nat) -> Attempt<T>, ids: seq<nat>, clock: nat -> int,
    a: nat, k: nat)
    requires |h| == |ids|
    ensures var c := Call(cfg, h, Works(o, op, ids), clock, [], |ids|);
      Indices(ids, c.tried)
      && (a < |c.tried| && 1 <= k <= Invoked(o, op, ids[c.tried[a]], a) && op(ids[c.tried[a]], a, k).Returned? ==>
            c.ok && a == |c.tried| - 1 && k == Invoked(o, op, ids[c.tried[a]], a))
  {
    var c := Call(cfg, h, Works(o, op, ids), clock, [], |ids|);
    CallIndices(cfg, h, Works(o, op, ids), clock, [], |ids|);
    OnlyLastWorks(cfg, h, Works(o, op, ids), clock, [], |ids|);
    if a < |c.tried| && 1 <= k <= Invoked(o, op, ids[c.tried[a]], a) && op(ids[c.tried[a]], a, k).Returned? {
      var fn := Invocations(op, ids[c.tried[a]], a);
      assert Settles(o, fn, k);
      assert k == Settling(o, fn, 1);
      assert Works(o, op, ids)(c.tried[a], a);
    }
  }

  lemma {:induction false} CallIndices(
    cfg: Config, h: seq<Health>, works: (nat, nat) -> bool, clock: nat -> int, tried: seq<nat>, count: nat)
    requires forall a :: 0 <= a < |tried| ==> tried[a] < |h|
    ensures var c := Call(cfg, h, works, clock, tried, count);
      |c.health| == |h| && forall a :: 0 <= a < |c.tried| ==> c.tried[a] < |h|
    decreases count - |tried|
  {
    var a := |tried|;
    if a < count {
      PickMeaning(cfg, h, clock(2 * a));
      match Pick(cfg, h, clock(2 * a))
      case (None, _) =>
      case (Some(i), h1) =>
        if !works(i, a) { CallIndices(cfg, Fail(cfg, h1, i, clock(2 * a + 1)), works, clock, tried + [i], count); }
    }
  }

  lemma {:induction false} FirstWorks(cfg: Config, h: seq<Health>, works: (nat, nat) -> bool, clock: nat -> int, count: nat)
    requires count > 0 && forall i :: 0 <= i < |h| ==> works(i, 0)
    ensures var c, i := Call(cfg, h, works, clock, [], count), Pick(cfg, h, clock(0)).0;
      && (c.ok <==> i.Some?) && (i.Some? ==> i.value < |h|)
      && c.tried == (if i.Some? then [i.value] else [])
  {
    PickMeaning(cfg, h, clock(0));
  }

  /** Hence an operation that never throws is invoked once, or not at all if no provider can be picked. */
  lemma {:induction false} NeverThrowingRunsOnce<T>(
    cfg: Config, h: seq<Health>, o: Options, op: (nat, nat, nat) -> Attempt<T>, ids: seq<nat>, clock: nat -> int)
    requires |h| == |ids| > 0 && o.maxAttempts >= 1 && forall p, a, k :: op(p, a, k).Returned?
    ensures var c := Call(cfg, h, Works(o, op, ids), clock, [], |ids|);
      && Indices(ids, c.tried) && TotalInvoked(o, op, ids, c.tried) == (if c.ok then 1 else 0)
      && (c.ok <==> Pick(cfg, h, clock(0)).0.Some?)
  {
    forall i | 0 <= i < |h| ensures Works(o, op, ids)(i, 0) && Settling(o, Invocations(op, ids[i], 0), 1) == 1 {
      assert Settles(o, Invocations(op, ids[i], 0), 1);
    }
    FirstWorks(cfg, h, Works(o, op, ids), clock, |ids|);
    OneInvocation(o, op, ids, Call(cfg, h, Works(o, op, ids), clock, [], |ids|).tried);
  }

  lemma {:induction false} OneInvocation<T>(o: Options, op: (nat, nat, nat) -> Attempt<T>, ids: seq<nat>, tried: seq<nat>)
    requires Indices(ids, tried) && |tried| <= 1 && o.maxAttempts >= 1
    requires forall i :: 0 <= i < |ids| ==> Settling(o, Invocations(op, ids[i], 0), 1) == 1
    ensures TotalInvoked(o, op, ids, tried) == |tried|
  {
    if tried != [] { assert TotalInvoked(o, op, ids, tried[..0]) == 0; }
  }

  /** With retries disabled the operation is invoked once, which a budget of one attempt says too. */
  function Effective(o: Options, retryEnabled: bool): Options { if retryEnabled then o else o.(maxAttempts := 1) }

  /**
   With retries disabled every attempt invokes the operation once, and its reply is what that came to;
   with retries enabled the options are those configured.
   */
  lemma {:induction false} RetriesDisabled<T>(
    o: Options, op: (nat, nat, nat) -> Attempt<T>, ids: seq<nat>, tried: seq<nat>, p: nat, a: nat)
    requires Indices(ids, tried)
    ensures TotalInvoked(Effective(o, false), op, ids, tried) == |tried|
    ensures Outcome(Effective(o, false), op, p, a)
            == match op(p, a, 1) { case Returned(v) => Done(v) case Thrown(e) => Failed(Some(e)) }
    ensures Effective(o, true) == o
  {
    assert Settles(Effective(o, false), Invocations(op, p, a), 1);
    if tried != [] {
      var n := |tried| - 1;
      RetriesDisabled(o, op, ids, tried[..n], p, a);
      assert Settles(Effective(o, false), Invocations(op, ids[tried[n]], n), 1);
    }
  }

  /** What the call replies is what its last invocation came to: the value returned, or the error thrown. */
  lemma {:induction false} ReplyIsLastInvocation<T>(
    cfg: Config, h: seq<Health>, o: Options, op: (nat, nat, nat) -> Attempt<T>, ids: seq<nat>, clock: nat -> int)
    requires |h| == |ids| && o.maxAttempts >= 1
    ensures var c := Call(cfg, h, Works(o, op, ids), clock, [], |ids|);
      && Indices(ids, c.tried)
      && (c.tried == [] ==> LastReply(o, op, ids, c.tried) == Failed(None) && !c.ok)
      && (c.tried != [] ==>
            var a := |c.tried| - 1;
            var p := ids[c.tried[a]];
            Invoked(o, op, p, a) >= 1 &&
            match op(p, a, Invoked(o, op, p, a))
            case Returned(v) => c.ok && LastReply(o, op, ids, c.tried) == Done(v)
            case Thrown(e) => !c.ok && LastReply(o, op, ids, c.tried) == Failed(Some(e)))
  {
    CallIndices(cfg, h, Works(o, op, ids), clock, [], |ids|);
    OnlyLastWorks(cfg, h, Works(o, op, ids), clock, [], |ids|);
    OkTried(cfg, h, Works(o, op, ids), clock, [], |ids|);
  }

  lemma {:induction false} OkTried(
    cfg: Config, h: seq<Health>, works: (nat, nat) -> bool, clock: nat -> int, tried: seq<nat>, count: nat)
    ensures Call(cfg, h, works, clock, tried, count).ok ==> Call(cfg, h, works, clock, tried, count).tried != []
    decreases count - |tried|
  {
    var a := |tried|;
    if a < count {
      match Pick(cfg, h, clock(2 * a))
      case (None, _) =>
      case (Some(i), h1) => OkTried(cfg, Fail(cfg, h1, i, clock(2 * a + 1)), works, clock, tried + [i], count);
    }
  }

  /** `runWithRetry` on one provider. */
  method RunWithRetry<T>(
    o: Options, retryEnabled: bool, op: (nat, nat, nat) -> Attempt<T>, p: nat, a: nat, random: nat -> real)
    returns (r: Reply<T>, calls: nat)
    ensures r == Outcome(Effective(o, retryEnabled), op, p, a) && !r.NoProvider?
    ensures calls == Invoked(Effective(o, retryEnabled), op, p, a)
  {
    if retryEnabled {
      var out, n, _ := AsyncRetry(o, Invocations(op, p, a), random);
      calls := n;
      match out {
        case Some(Returned(v)) => r := Done(v);
        case Some(Thrown(e)) => r := Failed(Some(e));
        case None => r := Failed(None);
      }
    } else {
      calls := 1;
      assert Settles(Effective(o, false), Invocations(op, p, a), 1);
      match op(p, a, 1) {
        case Returned(v) => r := Done(v);
        case Thrown(e) => r := Failed(Some(e));
      }
    }
  }

  // ----- The rate limiter in front of every attempt -----

  function Arrivals(arrival: nat -> real, n: nat): seq<real> {
    if n == 0 then [] else Arrivals(arrival, n - 1) + [arrival(n - 1)]
  }

  /** The cursor after `n` attempts have reserved their slots; no limiter, no cursor. */
  ghost predicate Paced(limiter: AsyncRateLimiter?, cursor: real, arrival: nat -> real, n: nat)
    reads limiter
  {
    limiter != null ==> limiter.nextSlot == CursorAfter(cursor, limiter.minInterval, Arrivals(arrival, n))
  }

  /** `acquireRpcRateLimiter`, which never throws. */
  method AcquireRpcRateLimiter(limiter: AsyncRateLimiter?, arrival: nat -> real, ghost cursor: real, n: nat)
    requires Paced(limiter, cursor, arrival, n)
    modifies if limiter == null then {} else {limiter}
    ensures Paced(limiter, cursor, arrival, n + 1)
  {
    if limiter != null {
      SlotsCompose(cursor, limiter.minInterval, Arrivals(arrival, n), arrival(n));
      var _ := limiter.Acquire(arrival(n));
    }
  }

  // ----- One attempt and the loop -----

  /** The provider to try and its index, found again by identity. */
  method PickIndexed(pm: ProviderManager, chain: string, now: int) returns (prov: Option<nat>, idx: nat)
    requires pm.Valid() && chain in pm.providers
    modifies pm`health
    ensures pm.Valid() && chain in pm.health && pm.health - {chain} == old(pm.health) - {chain}
    ensures var (i, h1) := Pick(pm.config, old(pm.health)[chain], now);
      && pm.health[chain] == h1 && (prov.Some? <==> i.Some?)
      && (i.Some? ==> idx == i.value < |pm.providers[chain]| && prov.value == pm.providers[chain][idx])
  {
    prov := pm.GetProvider(chain, now);
    idx := 0;
    if prov.Some? {
      var index := pm.GetProviderIndex(chain, prov.value);
      idx := if index.Some? then index.value else 0;
    }
  }

  /** One iteration, `tried` before it: pick, reserve a slot, run, mark.  `None` when no provider can be picked. */
  method TryOnce<T>(
    pm: ProviderManager, limiter: AsyncRateLimiter?, chain: string, o: Options, retryEnabled: bool,
    op: (nat, nat, nat) -> Attempt<T>, clock: nat -> int, arrival: nat -> real, random: nat -> real, a: nat,
    ghost cursor: real, ghost tried: seq<nat>, ghost count: nat)
    returns (idx: Option<nat>, r: Reply<T>, calls: nat)
    requires pm.Valid() && chain in pm.providers && |tried| == a < count && Paced(limiter, cursor, arrival, a)
    modifies pm`health, if limiter == null then {} else {limiter}
    ensures pm.Valid() && chain in pm.health && pm.health - {chain} == old(pm.health) - {chain}
    ensures Paced(limiter, cursor, arrival, if idx.Some? then a + 1 else a)
    ensures var eo, ids := Effective(o, retryEnabled), pm.providers[chain];
      var c := Call(pm.config, old(pm.health)[chain], Works(eo, op, ids), clock, tried, count);
      match idx
      case None => c == CallResult(pm.health[chain], tried, false)
      case Some(i) =>
        && i < |ids| && r == Outcome(eo, op, ids[i], a) && calls == Invoked(eo, op, ids[i], a)
        && c == if r.Done? then CallResult(pm.health[chain], tried + [i], true)
                else Call(pm.config, pm.health[chain], Works(eo, op, ids), clock, tried + [i], count)
  {
    var prov, i := PickIndexed(pm, chain, clock(2 * a));
    if prov.None? {
      return None, Failed(None), 0;
    }
    AcquireRpcRateLimiter(limiter, arrival, cursor, a);
    r, calls := RunWithRetry(o, retryEnabled, op, prov.value, a, random);
    assert Works(Effective(o, retryEnabled), op, pm.providers[chain])(i, a) == r.Done?;
    if r.Done? {
      pm.MarkSuccess(chain, i);
    } else {
      pm.MarkFailure(chain, i, clock(2 * a + 1));
    }
    idx := Some(i);
  }

  /** The same with the reply and the count of invocations brought up to date; `more` tells if there was a provider. */
  method TryAndReport<T>(
    pm: ProviderManager, limiter: AsyncRateLimiter?, chain: string, o: Options, retryEnabled: bool,
    op: (nat, nat, nat) -> Attempt<T>, clock: nat -> int, arrival: nat -> real, random: nat -> real, a: nat,
    r0: Reply<T>, n0: nat, ghost cursor: real, ghost tried: seq<nat>, ghost count: nat)
    returns (more: bool, r: Reply<T>, n: nat, ghost tried': seq<nat>)
    requires pm.Valid() && chain in pm.providers && |tried| == a < count && Paced(limiter, cursor, arrival, a)
    requires Report(Effective(o, retryEnabled), op, pm.providers[chain], tried, r0, n0) && !r0.Done?
    modifies pm`health, if limiter == null then {} else {limiter}
    ensures pm.Valid() && chain in pm.health && pm.health - {chain} == old(pm.health) - {chain}
    ensures Paced(limiter, cursor, arrival, |tried'|) && |tried'| == (if more then a + 1 else a)
    ensures Report(Effective(o, retryEnabled), op, pm.providers[chain], tried', r, n) && (r.Done? ==> more)
    ensures var W := Works(Effective(o, retryEnabled), op, pm.providers[chain]);
      Call(pm.config, old(pm.health)[chain], W, clock, tried, count)
      == if r.Done? || !more then CallResult(pm.health[chain], tried', r.Done?)
         else Call(pm.config, pm.health[chain], W, clock, tried', count)
  {
    var idx, reply, calls :=
      TryOnce(pm, limiter, chain, o, retryEnabled, op, clock, arrival, random, a, cursor, tried, count);
    if idx.None? {
      return false, r0, n0, tried;
    }
    ReportStep(Effective(o, retryEnabled), op, pm.providers[chain], tried, r0, n0, idx.value);
    return true, reply, n0 + calls, tried + [idx.value];
  }

  /** The failover loop over a registered chain; every attempt reserves one slot. */
  method RunWithFailover<T>(
    pm: ProviderManager, limiter: AsyncRateLimiter?, chain: string, o: Options, retryEnabled: bool,
    op: (nat, nat, nat) -> Attempt<T>, clock: nat -> int, arrival: nat -> real, random: nat -> real)
    returns (r: Reply<T>, invocations: nat)
    requires pm.Valid() && chain in pm.providers
    modifies pm`health, if limiter == null then {} else {limiter}
    ensures pm.Valid()
    ensures var eo, ids := Effective(o, retryEnabled), pm.providers[chain];
      var c := Call(pm.config, old(pm.health)[chain], Works(eo, op, ids), clock, [], |ids|);
      && chain in pm.health && pm.health[chain] == c.health && pm.health - {chain} == old(pm.health) - {chain}
      && Report(eo, op, ids, c.tried, r, invocations) && (r.Done? <==> c.ok)
      && Paced(limiter, if limiter == null then 0.0 else old(limiter.nextSlot), arrival, |c.tried|)
  {
    var count := pm.GetProviderCount(chain);
    ghost var eo, ids := Effective(o, retryEnabled), pm.providers[chain];
    ghost var c := Call(pm.config, pm.health[chain], Works(eo, op, ids), clock, [], count);
    ghost var cursor := if limiter == null then 0.0 else limiter.nextSlot;
    ghost var tried: seq<nat> := [];
    invocations := 0;
    r := Failed(None);
    var attempt, more := 0, true;
    while attempt < count && !r.Done? && more
      invariant 0 <= attempt <= count == |ids| && pm.Valid() && chain in pm.health
      invariant pm.health - {chain} == old(pm.health) - {chain}
      invariant Report(eo, op, ids, tried, r, invocations) && (r.Done? ==> more)
      invariant Paced(limiter, cursor, arrival, |tried|) && (more ==> |tried| == attempt)
      invariant c == if r.Done? || !more then CallResult(pm.health[chain], tried, r.Done?)
                     else Call(pm.config, pm.health[chain], Works(eo, op, ids), clock, tried, count)
    {
      more, r, invocations, tried := TryAndReport(
        pm, limiter, chain, o, retryEnabled, op, clock, arrival, random, attempt, r, invocations, cursor, tried, count);
      attempt := attempt + 1;
    }
  }

  /** Outside failover: the provider the manager picks, else the one configured for the chain. */
  ghost function Single(
    cfg: Config, registered: Option<(seq<nat>, seq<Health>)>, fallback: Option<nat>, now: int): Option<nat>
  {
    match registered
    case None => fallback
    case Some((ids, h)) =>
      var i := Pick(cfg, h, now).0;
      if i.Some? && i.value < |ids| then Some(ids[i.value]) else fallback
  }

  /** The lowest healthy provider, else the lowest whose cooldown is over, else what is configured. */
  lemma SingleIsLowest(cfg: Config, ids: seq<nat>, h: seq<Health>, fallback: Option<nat>, now: int, i: nat)
    requires |ids| == |h|
    ensures var p := Single(cfg, Some((ids, h)), fallback, now);
      && (i < |h| && h[i].isHealthy && (forall k :: 0 <= k < i ==> !h[k].isHealthy) ==> p == Some(ids[i]))
      && (&& i < |h| && (forall k :: 0 <= k < |h| ==> !h[k].isHealthy) && Cooled(cfg, h[i], now)
          && (forall k :: 0 <= k < i ==> !Cooled(cfg, h[k], now))
          ==> p == Some(ids[i]))
      && ((forall k :: 0 <= k < |h| ==> !h[k].isHealthy && !Cooled(cfg, h[k], now)) ==> p == fallback)
    ensures Single(cfg, None, fallback, now) == fallback
  {
    PickMeaning(cfg, h, now);
  }

  /** `getProviderForChain` */
  method GetProviderForChain(pm: ProviderManager, chain: string, fallback: Option<nat>, now: int)
    returns (p: Option<nat>)
    requires pm.Valid()
    modifies pm`health
    ensures pm.Valid()
    ensures chain !in pm.providers ==> p == fallback && pm.health == old(pm.health)
    ensures chain in pm.providers ==>
              && p == Single(pm.config, Some((pm.providers[chain], old(pm.health)[chain])), fallback, now)
              && pm.health == old(pm.health)[chain := Pick(pm.config, old(pm.health)[chain], now).1]
  {
    p := pm.GetProvider(chain, now);
    if chain in pm.providers { PickMeaning(pm.config, old(pm.health)[chain], now); }
    if p.None? {
      p := fallback;
    }
  }

  /**
   `op(p, a, k)` is what invocation `k` of attempt `a` on provider `p` does.  With failover off or
   nothing registered, a single provider is retried and nothing is marked.
   */
  method WithRpcFailover<T>(
    pm: ProviderManager, limiter: AsyncRateLimiter?, chain: string, enabled: bool, fallback: Option<nat>,
    o: Options, retryEnabled: bool, op: (nat, nat, nat) -> Attempt<T>,
    clock: nat -> int, arrival: nat -> real, random: nat -> real)
    returns (r: Reply<T>, invocations: nat)
    requires pm.Valid()
    modifies pm`health, if limiter == null then {} else {limiter}
    ensures pm.Valid()
    ensures !(enabled && chain in pm.providers) ==>
              var eo := Effective(o, retryEnabled);
              var p := if chain in pm.providers
                       then Single(pm.config, Some((pm.providers[chain], old(pm.health)[chain])), fallback, clock(0))
                       else fallback;
              && pm.health == (if chain in pm.providers
                               then old(pm.health)[chain := Pick(pm.config, old(pm.health)[chain], clock(0)).1]
                               else old(pm.health))
              && invocations <= Budget(eo) && r == (if p.None? then NoProvider else Outcome(eo, op, p.value, 0))
              && Paced(limiter, if limiter == null then 0.0 else old(limiter.nextSlot), arrival, if p.None? then 0 else 1)
    ensures enabled && chain in pm.providers ==>
              var eo, ids := Effective(o, retryEnabled), pm.providers[chain];
              var c := Call(pm.config, old(pm.health)[chain], Works(eo, op, ids), clock, [], |ids|);
              && chain in pm.health && pm.health[chain] == c.health && pm.health - {chain} == old(pm.health) - {chain}
              && Report(eo, op, ids, c.tried, r, invocations) && (r.Done? <==> c.ok)
              && invocations <= |ids| * Budget(eo)
              && Paced(limiter, if limiter == null then 0.0 else old(limiter.nextSlot), arrival, |c.tried|)
  {
    var count := pm.GetProviderCount(chain);
    if enabled && count > 0 {
      ghost var eo, ids := Effective(o, retryEnabled), pm.providers[chain];
      ghost var c := Call(pm.config, pm.health[chain], Works(eo, op, ids), clock, [], |ids|);
      r, invocations := RunWithFailover(pm, limiter, chain, o, retryEnabled, op, clock, arrival, random);
      CallLength(pm.config, old(pm.health)[chain], Works(eo, op, ids), clock, [], |ids|);
      TotalInvokedBound(eo, op, ids, c.tried, |ids|);
    } else {
      var p := GetProviderForChain(pm, chain, fallback, clock(0));
      if p.None? {
        return NoProvider, 0;
      }
      AcquireRpcRateLimiter(limiter, arrival, if limiter == null then 0.0 else limiter.nextSlot, 0);
      r, invocations := RunWithRetry(o, retryEnabled, op, p.value, 0, random);
    }
  }
}
