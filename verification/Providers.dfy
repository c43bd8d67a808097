/** RPC provider health: failure counts, unhealthy marks and cooldown, one list per chain. */
module Providers {
  import opened Common

  datatype Config = Config(failoverCooldown: int, maxFailures: int)

  datatype Health = Health(failureCount: nat, lastFailure: int, isHealthy: bool)

  const FRESH := Health(0, 0, true)

  // ----- One chain's health list -----

  /** A provider is healthy exactly while its failure count is below the limit. */
  predicate Consistent(cfg: Config, h: seq<Health>) {
    forall i :: 0 <= i < |h| ==> (h[i].isHealthy <==> h[i].failureCount < cfg.maxFailures)
  }

  predicate Cooled(cfg: Config, x: Health, now: int) {
    !x.isHealthy && now - x.lastFailure >= cfg.failoverCooldown
  }

  function FirstHealthy(h: seq<Health>, from: nat): (r: Option<nat>)
    requires from <= |h|
    ensures r.Some? ==> from <= r.value < |h| && h[r.value].isHealthy
                        && forall i :: from <= i < r.value ==> !h[i].isHealthy
    ensures r.None? ==> forall i :: from <= i < |h| ==> !h[i].isHealthy
    decreases |h| - from
  {
    if from == |h| then None else if h[from].isHealthy then Some(from) else FirstHealthy(h, from + 1)
  }

  function FirstCooled(cfg: Config, h: seq<Health>, now: int, from: nat): (r: Option<nat>)
    requires from <= |h|
    ensures r.Some? ==> from <= r.value < |h| && Cooled(cfg, h[r.value], now)
                        && forall i :: from <= i < r.value ==> !Cooled(cfg, h[i], now)
    ensures r.None? ==> forall i :: from <= i < |h| ==> !Cooled(cfg, h[i], now)
    decreases |h| - from
  {
    if from == |h| then None
    else if Cooled(cfg, h[from], now) then Some(from) else FirstCooled(cfg, h, now, from + 1)
  }

  function Revive(h: seq<Health>, i: nat): seq<Health>
    requires i < |h|
  {
    h[i := h[i].(isHealthy := true, failureCount := 0)]
  }

  /** The provider `getProvider` hands out, and the list after it. */
  function Pick(cfg: Config, h: seq<Health>, now: int): (Option<nat>, seq<Health>) {
    match FirstHealthy(h, 0)
    case Some(i) => (Some(i), h)
    case None =>
      match FirstCooled(cfg, h, now, 0)
      case Some(i) => (Some(i), Revive(h, i))
      case None => (None, h)
  }

  function Fail(cfg: Config, h: seq<Health>, i: int, now: int): seq<Health> {
    if !(0 <= i < |h|) then h else
    var n := h[i].failureCount + 1;
    h[i := Health(n, now, h[i].isHealthy && n < cfg.maxFailures)]
  }

  function Succeed(h: seq<Health>, i: int): seq<Health> {
    if !(0 <= i < |h|) then h else h[i := Health(0, h[i].lastFailure, true)]
  }

  function AllFresh(n: nat): (h: seq<Health>)
    ensures |h| == n && forall i :: 0 <= i < n ==> h[i] == FRESH
  {
    seq(n, _ => FRESH)
  }

  /** Every operation keeps health and failure count in agreement, in any order and for any clock. */
  lemma OperationsKeepConsistent(cfg: Config, h: seq<Health>, i: int, now: int)
    requires cfg.maxFailures >= 1 && Consistent(cfg, h)
    ensures Consistent(cfg, Pick(cfg, h, now).1) && Consistent(cfg, Fail(cfg, h, i, now))
    ensures Consistent(cfg, Succeed(h, i)) && Consistent(cfg, AllFresh(|h|))
  {}

  /**
   What a choice means: the lowest healthy provider; with none healthy, the lowest one whose
   cooldown has passed, which alone is revived; nobody exactly when neither exists.
   */
  lemma PickMeaning(cfg: Config, h: seq<Health>, now: int)
    ensures var (r, h') := Pick(cfg, h, now);
      && (r.None? <==> forall i :: 0 <= i < |h| ==> !h[i].isHealthy && !Cooled(cfg, h[i], now))
      && (r.None? ==> h' == h)
      && (r.Some? ==>
            && r.value < |h| == |h'| && h'[r.value].isHealthy
            && (forall i :: 0 <= i < r.value ==> !h[i].isHealthy)
            && (forall i :: 0 <= i < |h| && i != r.value ==> h'[i] == h[i])
            && (h[r.value].isHealthy ==> h' == h)
            && (!h[r.value].isHealthy ==>
                  && (forall i :: 0 <= i < |h| ==> !h[i].isHealthy)
                  && Cooled(cfg, h[r.value], now) && h'[r.value].failureCount == 0
                  && (forall i :: 0 <= i < r.value ==> !Cooled(cfg, h[i], now))))
  {}

  /** The list after `n` failures of provider `i`. */
  function FailTimes(cfg: Config, h: seq<Health>, i: nat, clock: nat -> int, n: nat): (r: seq<Health>)
    ensures |r| == |h|
  {
    if n == 0 then h else Fail(cfg, FailTimes(cfg, h, i, clock, n - 1), i, clock(n - 1))
  }

  /** A provider is given up with the failure that fills its count up to the limit, no earlier and no later. */
  lemma {:induction false} GivenUpAtLimit(cfg: Config, h: seq<Health>, i: nat, clock: nat -> int, n: nat)
    requires cfg.maxFailures >= 1 && Consistent(cfg, h) && i < |h|
    ensures var h' := FailTimes(cfg, h, i, clock, n);
      && |h'| == |h| && Consistent(cfg, h')
      && (h'[i].isHealthy <==> h[i].failureCount + n < cfg.maxFailures)
      && h'[i].failureCount == h[i].failureCount + n
      && forall k :: 0 <= k < |h| && k != i ==> h'[k] == h[k]
  {
    if n > 0 { GivenUpAtLimit(cfg, h, i, clock, n - 1); }
  }

  /** What is reported of a provider. */
  datatype Mark = Responded | Erred(at: int)

  function Marked(cfg: Config, h: seq<Health>, i: nat, marks: seq<Mark>): seq<Health> {
    if marks == [] then h else
    var before := Marked(cfg, h, i, marks[..|marks| - 1]);
    match marks[|marks| - 1]
    case Responded => Succeed(before, i)
    case Erred(at) => Fail(cfg, before, i, at)
  }

  /** The failures since the last success, on top of `count` if there was none. */
  function Streak(count: nat, marks: seq<Mark>): nat {
    if marks == [] then count
    else if marks[|marks| - 1].Responded? then 0
    else Streak(count, marks[..|marks| - 1]) + 1
  }

  function LastFailed(at: int, marks: seq<Mark>): int {
    if marks == [] then at
    else if marks[|marks| - 1].Erred? then marks[|marks| - 1].at
    else LastFailed(at, marks[..|marks| - 1])
  }

  /**
   Over any successes and failures of a provider its count is the number of failures since the last
   success, it is given up exactly while that reaches the limit, and no other record changes.
   */
  lemma {:induction false} CountsSinceSuccess(cfg: Config, h: seq<Health>, i: nat, marks: seq<Mark>)
    requires cfg.maxFailures >= 1 && Consistent(cfg, h) && i < |h|
    ensures var h' := Marked(cfg, h, i, marks);
      && |h'| == |h|
      && h'[i].failureCount == Streak(h[i].failureCount, marks)
      && (h'[i].isHealthy <==> Streak(h[i].failureCount, marks) < cfg.maxFailures)
      && h'[i].lastFailure == LastFailed(h[i].lastFailure, marks)
      && forall k :: 0 <= k < |h| && k != i ==> h'[k] == h[k]
  {
    if marks != [] { CountsSinceSuccess(cfg, h, i, marks[..|marks| - 1]); }
  }

  /**
   With nobody healthy, a provider is picked again exactly when its cooldown since its last failure
   is over and no lower one's is; it then has its full count of failures ahead of it.
   */
  lemma RevivedExactly(cfg: Config, h: seq<Health>, i: nat, at: int, now: int, clock: nat -> int, n: nat)
    requires cfg.maxFailures >= 1 && Consistent(cfg, h) && i < |h|
    requires forall k :: 0 <= k < |h| ==> !Fail(cfg, h, i, at)[k].isHealthy
    ensures var h1 := Fail(cfg, h, i, at);
      var (r, h2) := Pick(cfg, h1, now);
      && (r == Some(i) <==>
            && now >= at + cfg.failoverCooldown
            && forall k :: 0 <= k < i ==> now < h[k].lastFailure + cfg.failoverCooldown)
      && (r == Some(i) ==> |h2| == |h| && (FailTimes(cfg, h2, i, clock, n)[i].isHealthy <==> n < cfg.maxFailures))
  {
    var h1 := Fail(cfg, h, i, at);
    PickMeaning(cfg, h1, now);
    var (r, h2) := Pick(cfg, h1, now);
    assert forall k :: 0 <= k < i ==> h1[k] == h[k];
    OperationsKeepConsistent(cfg, h, i, at);
    OperationsKeepConsistent(cfg, h1, i, now);
    if r == Some(i) { GivenUpAtLimit(cfg, h2, i, clock, n); }
  }

  // ----- The class -----

  function CountUsable(usable: seq<bool>): nat {
    if usable == [] then 0
    else CountUsable(usable[..|usable| - 1]) + (if usable[|usable| - 1] then 1 else 0)
  }

  predicate Distinct(ids: seq<nat>) { forall i, j :: 0 <= i < j < |ids| ==> ids[i] != ids[j] }

  /** A registered chain has as many health records as distinct providers, and they are consistent. */
  ghost predicate ListsOk(cfg: Config, ids: seq<nat>, h: seq<Health>) {
    |ids| == |h| > 0 && Distinct(ids) && (cfg.maxFailures >= 1 ==> Consistent(cfg, h))
  }

  /** Provider objects are numbered in order of construction; `usable` tells which URLs construct. */
  class ProviderManager {
    var providers: map<string, seq<nat>>
    var health: map<string, seq<Health>>
    var nextId: nat
    const config: Config

    ghost predicate Valid()
      reads this
    {
      providers.Keys == health.Keys && forall c :: c in providers ==> ListsOk(config, providers[c], health[c])
    }

    constructor (config: Config)
      ensures Valid() && this.config == config && providers == map[] && health == map[]
    {
      this.config := config;
      providers, health, nextId := map[], map[], 0;
    }

    /** Unusable URLs are skipped; with none usable an earlier registration stays. */
    method AddProviders(chain: string, usable: seq<bool>)
      requires Valid()
      modifies this
      ensures Valid()
      ensures var n := CountUsable(usable);
        if n == 0 then providers == old(providers) && health == old(health)
        else
          && providers == old(providers)[chain := seq(n, i requires 0 <= i < n => old(nextId) + i)]
          && health == old(health)[chain := AllFresh(n)]
    {
      var list: seq<nat>, healthList: seq<Health> := [], [];
      ghost var first := nextId;
      var i := 0;
      while i < |usable|
        invariant 0 <= i <= |usable|
        invariant |list| == |healthList| == CountUsable(usable[..i]) && nextId == first + |list|
        invariant forall k :: 0 <= k < |list| ==> list[k] == first + k && healthList[k] == FRESH
        invariant providers == old(providers) && health == old(health)
      {
        assert usable[..i + 1][..i] == usable[..i];
        if usable[i] {
          list := list + [nextId];
          healthList := healthList + [FRESH];
          nextId := nextId + 1;
        }
        i := i + 1;
      }
      assert usable[..i] == usable;
      if |list| > 0 {
        assert list == seq(|list|, k requires 0 <= k < |list| => first + k) && healthList == AllFresh(|list|);
        providers := providers[chain := list];
        health := health[chain := healthList];
      }
    }

    method GetProvider(chain: string, now: int) returns (p: Option<nat>)
      requires Valid()
      modifies this`health
      ensures Valid()
      ensures chain !in providers ==> p == None && health == old(health)
      ensures chain in providers ==>
                var (i, h') := Pick(config, old(health)[chain], now);
                && health == old(health)[chain := h']
                && p == (if i.Some? then Some(providers[chain][i.value]) else None)
    {
      if chain !in providers || chain !in health || |providers[chain]| == 0 {
        return None;
      }
      var list, healthList := providers[chain], health[chain];
      var i := 0;
      while i < |list|
        invariant 0 <= i <= |list|
        invariant FirstHealthy(healthList, 0) == FirstHealthy(healthList, i)
      {
        if healthList[i].isHealthy {
          return Some(list[i]);
        }
        i := i + 1;
      }
      i := 0;
      while i < |list|
        invariant 0 <= i <= |list|
        invariant FirstCooled(config, healthList, now, 0) == FirstCooled(config, healthList, now, i)
      {
        var x := healthList[i];
        if !x.isHealthy && now - x.lastFailure >= config.failoverCooldown {
          health := health[chain := healthList[i := x.(isHealthy := true, failureCount := 0)]];
          return Some(list[i]);
        }
        i := i + 1;
      }
      return None;
    }

    method GetProviderCount(chain: string) returns (n: nat)
      requires Valid()
      ensures n == if chain in providers then |providers[chain]| else 0
    {
      n := if chain in providers then |providers[chain]| else 0;
    }

    /** `indexOf`, with `null` for an unknown chain or provider. */
    method GetProviderIndex(chain: string, p: nat) returns (r: Option<nat>)
      requires Valid()
      ensures r.Some? <==> chain in providers && p in providers[chain]
      ensures r.Some? ==> r.value < |providers[chain]| && providers[chain][r.value] == p
    {
      if chain !in providers { return None; }
      var i := 0;
      while i < |providers[chain]|
        invariant 0 <= i <= |providers[chain]|
        invariant forall k :: 0 <= k < i ==> providers[chain][k] != p
      {
        if providers[chain][i] == p { return Some(i); }
        i := i + 1;
      }
      return None;
    }

    method MarkFailure(chain: string, index: int, now: int)
      requires Valid()
      modifies this`health
      ensures Valid()
      ensures health == if chain in old(health)
                        then old(health)[chain := Fail(config, old(health)[chain], index, now)] else old(health)
    {
      if chain !in health || index < 0 || index >= |health[chain]| { return; }
      var x := health[chain][index];
      x := x.(failureCount := x.failureCount + 1);
      x := x.(lastFailure := now);
      if x.failureCount >= config.maxFailures {
        x := x.(isHealthy := false);
      }
      health := health[chain := health[chain][index := x]];
    }

    method MarkSuccess(chain: string, index: int)
      requires Valid()
      modifies this`health
      ensures Valid()
      ensures health == if chain in old(health)
                        then old(health)[chain := Succeed(old(health)[chain], index)] else old(health)
    {
      if chain !in health || index < 0 || index >= |health[chain]| { return; }
      var x := health[chain][index];
      x := x.(failureCount := 0);
      x := x.(isHealthy := true);
      health := health[chain := health[chain][index := x]];
    }

    method ResetChain(chain: string)
      requires Valid()
      modifies this`health
      ensures Valid()
      ensures health == if chain in old(health)
                        then old(health)[chain := AllFresh(|old(health)[chain]|)] else old(health)
    {
      if chain !in health { return; }
      var h := health[chain];
      var i := 0;
      while i < |h|
        invariant 0 <= i <= |h| == |health[chain]|
        invariant forall k :: 0 <= k < i ==> h[k] == FRESH
      {
        h := h[i := Health(0, 0, true)];
        i := i + 1;
      }
      assert h == AllFresh(|h|);
      health := health[chain := h];
    }
  }
}
