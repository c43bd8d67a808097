/**
 `withRpcFailover` calls that overlap on one chain: between a call's pick of a provider and its mark
 other calls pick and mark too.  An action is a call entering, picking or finishing an attempt.
 */
module FailoverInterleaved {
  import opened Common
  import opened Providers
  import opened Failover
  import Runs = FailoverRuns

  datatype Phase = Picking | Trying(provider: nat) | Worked | Gave

  /** `failed`: how many of the call's attempts have failed. */
  datatype Caller = Caller(failed: nat, phase: Phase)

  datatype State = State(health: seq<Health>, callers: seq<Caller>)

  datatype Action = Enter | Choose(c: nat, now: int) | Finish(c: nat, ok: bool, now: int)

  predicate Enabled(s: State, a: Action) {
    match a
    case Enter => true
    case Choose(c, _) => c < |s.callers| && s.callers[c].phase.Picking?
    case Finish(c, _, _) => c < |s.callers| && s.callers[c].phase.Trying?
  }

  function Move(s: State, c: nat, x: Caller): State
    requires c < |s.callers|
  {
    s.(callers := s.callers[c := x])
  }

  /** A call gives up after one attempt per provider, or when no provider can be picked. */
  function ChooseStep(cfg: Config, s: State, c: nat, now: int): State
    requires c < |s.callers|
  {
    var x := s.callers[c];
    if x.failed >= |s.health| then Move(s, c, x.(phase := Gave)) else
    match Pick(cfg, s.health, now)
    case (None, _) => Move(s, c, x.(phase := Gave))
    case (Some(i), h) => Move(s.(health := h), c, x.(phase := Trying(i)))
  }

  function FinishStep(cfg: Config, s: State, c: nat, ok: bool, now: int): State
    requires c < |s.callers| && s.callers[c].phase.Trying?
  {
    var x := s.callers[c];
    if ok then Move(s.(health := Succeed(s.health, x.phase.provider)), c, x.(phase := Worked))
    else Move(s.(health := Fail(cfg, s.health, x.phase.provider, now)), c, Caller(x.failed + 1, Picking))
  }

  function Step(cfg: Config, s: State, a: Action): State {
    if !Enabled(s, a) then s else
    match a
    case Enter => s.(callers := s.callers + [Caller(0, Picking)])
    case Choose(c, now) => ChooseStep(cfg, s, c, now)
    case Finish(c, ok, now) => FinishStep(cfg, s, c, ok, now)
  }

  function Run(cfg: Config, s: State, acts: seq<Action>): State
    decreases acts
  {
    if acts == [] then s else Run(cfg, Step(cfg, s, acts[0]), acts[1..])
  }

  // ----- Runs in which provider `j` always works and earlier ones always fail -----

  predicate Truthful(s: State, a: Action, j: nat) {
    a.Finish? && Enabled(s, a) ==>
      && (s.callers[a.c].phase.provider == j ==> a.ok)
      && (s.callers[a.c].phase.provider < j ==> !a.ok)
  }

  function Flying(cs: seq<Caller>): nat {
    if cs == [] then 0 else Flying(cs[..|cs| - 1]) + (if cs[|cs| - 1].phase.Trying? then 1 else 0)
  }

  /** Every outcome is that of its provider, and never more than `limit` attempts are in flight. */
  ghost predicate Bounded(cfg: Config, s: State, acts: seq<Action>, j: nat, limit: nat)
    decreases acts
  {
    && Flying(s.callers) <= limit
    && (acts != [] ==> Truthful(s, acts[0], j) && Bounded(cfg, Step(cfg, s, acts[0]), acts[1..], j, limit))
  }

  ghost predicate Inv(cfg: Config, s: State, j: nat) {
    && cfg.maxFailures >= 1 && Consistent(cfg, s.health) && j < |s.health| && s.health[j].isHealthy
    && (forall c :: 0 <= c < |s.callers| && s.callers[c].phase.Trying? ==> s.callers[c].phase.provider <= j)
    && (forall c :: 0 <= c < |s.callers| && s.callers[c].phase.Gave? ==> s.callers[c].failed >= |s.health|)
  }

  /** Attempts in flight on provider `i`. */
  function On(cs: seq<Caller>, i: nat): nat {
    if cs == [] then 0 else On(cs[..|cs| - 1], i) + (if cs[|cs| - 1].phase == Trying(i) then 1 else 0)
  }

  lemma {:induction false} OnUpdate(cs: seq<Caller>, c: nat, x: Caller, i: nat)
    requires c < |cs|
    ensures On(cs[c := x], i) + (if cs[c].phase == Trying(i) then 1 else 0)
            == On(cs, i) + (if x.phase == Trying(i) then 1 else 0)
    decreases cs
  {
    var n := |cs| - 1;
    if c < n {
      OnUpdate(cs[..n], c, x, i);
      assert cs[c := x][..n] == cs[..n][c := x];
    } else {
      assert cs[c := x][..n] == cs[..n];
    }
  }

  lemma {:induction false} OnFlying(cs: seq<Caller>, i: nat)
    ensures On(cs, i) <= Flying(cs)
  {
    if cs != [] { OnFlying(cs[..|cs| - 1], i); }
  }

  // ----- What the earlier providers can still cost -----

  /**
   The failures still to come from the providers before `j`: a healthy one fails up to its limit and
   then at most `limit - 1` attempts already in flight fail too; an unhealthy one only has those.
   */
  function Cost(cfg: Config, s: State, j: nat, limit: nat): int
    requires j <= |s.health|
  {
    if j == 0 then 0 else
    Cost(cfg, s, j - 1, limit)
    + (if s.health[j - 1].isHealthy then cfg.maxFailures - s.health[j - 1].failureCount + limit - 1
       else On(s.callers, j - 1))
  }

  function HealthyBefore(h: seq<Health>, j: nat): nat
    requires j <= |h|
  {
    if j == 0 then 0 else HealthyBefore(h, j - 1) + (if h[j - 1].isHealthy then 1 else 0)
  }

  function AllFailed(cs: seq<Caller>): nat {
    if cs == [] then 0 else AllFailed(cs[..|cs| - 1]) + cs[|cs| - 1].failed
  }

  function Throws(cs: seq<Caller>): nat {
    if cs == [] then 0 else Throws(cs[..|cs| - 1]) + (if cs[|cs| - 1].phase.Gave? then 1 else 0)
  }

  lemma {:induction false} AllFailedUpdate(cs: seq<Caller>, c: nat, x: Caller)
    requires c < |cs|
    ensures AllFailed(cs[c := x]) + cs[c].failed == AllFailed(cs) + x.failed
    decreases cs
  {
    var n := |cs| - 1;
    if c < n {
      AllFailedUpdate(cs[..n], c, x);
      assert cs[c := x][..n] == cs[..n][c := x];
    } else {
      assert cs[c := x][..n] == cs[..n];
    }
  }

  /** The same providers, the same flights on those before `j`. */
  lemma {:induction false} CostFrame(cfg: Config, s: State, s': State, j: nat, limit: nat)
    requires j <= |s.health| == |s'.health|
    requires forall i :: 0 <= i < j ==> s'.health[i] == s.health[i]
    requires forall i :: 0 <= i < j && !s.health[i].isHealthy ==> On(s'.callers, i) == On(s.callers, i)
    ensures Cost(cfg, s', j, limit) == Cost(cfg, s, j, limit)
  {
    if j > 0 { CostFrame(cfg, s, s', j - 1, limit); }
  }

  /** A failure on provider `p` takes at least one from the cost. */
  lemma {:induction false} CostDrops(cfg: Config, s: State, s': State, j: nat, limit: nat, p: nat)
    requires p < j <= |s.health| == |s'.health| && cfg.maxFailures >= 1 && Consistent(cfg, s.health)
    requires forall i :: 0 <= i < j && i != p ==> s'.health[i] == s.health[i] && On(s'.callers, i) == On(s.callers, i)
    requires s'.health[p].failureCount == s.health[p].failureCount + 1
    requires s'.health[p].isHealthy <==> s.health[p].isHealthy && s.health[p].failureCount + 1 < cfg.maxFailures
    requires On(s'.callers, p) == On(s.callers, p) - 1 && On(s.callers, p) <= limit
    ensures Cost(cfg, s', j, limit) <= Cost(cfg, s, j, limit) - 1
  {
    if p == j - 1 {
      CostFrame(cfg, s, s', p, limit);
    } else {
      CostDrops(cfg, s, s', j - 1, limit, p);
    }
  }

  lemma {:induction false} ChooseKeepsInv(cfg: Config, s: State, c: nat, now: int, j: nat, limit: nat)
    requires Inv(cfg, s, j) && Enabled(s, Choose(c, now))
    ensures var s' := ChooseStep(cfg, s, c, now);
      && Inv(cfg, s', j) && s'.health == s.health && |s'.callers| == |s.callers|
      && Cost(cfg, s', j, limit) == Cost(cfg, s, j, limit) && AllFailed(s'.callers) == AllFailed(s.callers)
  {
    PickMeaning(cfg, s.health, now);
    var s' := ChooseStep(cfg, s, c, now);
    var x := s'.callers[c];
    assert s'.callers == s.callers[c := x];
    AllFailedUpdate(s.callers, c, x);
    forall i | 0 <= i < j && !s.health[i].isHealthy ensures On(s'.callers, i) == On(s.callers, i) {
      OnUpdate(s.callers, c, x, i);
    }
    CostFrame(cfg, s, s', j, limit);
  }

  lemma {:induction false} FinishKeepsInv(cfg: Config, s: State, c: nat, ok: bool, now: int, j: nat, limit: nat)
    requires Inv(cfg, s, j) && Enabled(s, Finish(c, ok, now)) && Truthful(s, Finish(c, ok, now), j)
    requires Flying(s.callers) <= limit
    ensures var s' := FinishStep(cfg, s, c, ok, now);
      && Inv(cfg, s', j)
      && AllFailed(s'.callers) + Cost(cfg, s', j, limit) <= AllFailed(s.callers) + Cost(cfg, s, j, limit)
  {
    var s', p := FinishStep(cfg, s, c, ok, now), s.callers[c].phase.provider;
    var x := s'.callers[c];
    assert s'.callers == s.callers[c := x];
    OperationsKeepConsistent(cfg, s.health, p, now);
    AllFailedUpdate(s.callers, c, x);
    forall i: nat ensures On(s'.callers, i) == On(s.callers, i) - (if i == p then 1 else 0) {
      OnUpdate(s.callers, c, x, i);
    }
    OnFlying(s.callers, p);
    if ok { CostFrame(cfg, s, s', j, limit); } else { CostDrops(cfg, s, s', j, limit, p); }
  }

  lemma {:induction false} EnterKeepsInv(cfg: Config, s: State, j: nat, limit: nat)
    requires Inv(cfg, s, j)
    ensures var s' := Step(cfg, s, Enter);
      && Inv(cfg, s', j) && Cost(cfg, s', j, limit) == Cost(cfg, s, j, limit)
      && AllFailed(s'.callers) == AllFailed(s.callers)
  {
    var s' := Step(cfg, s, Enter);
    assert s'.callers[..|s.callers|] == s.callers;
    forall i | 0 <= i < j && !s.health[i].isHealthy ensures On(s'.callers, i) == On(s.callers, i) {}
    CostFrame(cfg, s, s', j, limit);
  }

  /** Over any bounded run, failures come out of the cost. */
  lemma {:induction false} RunPays(cfg: Config, s: State, acts: seq<Action>, j: nat, limit: nat)
    requires Inv(cfg, s, j) && Bounded(cfg, s, acts, j, limit)
    ensures var s' := Run(cfg, s, acts);
      && Inv(cfg, s', j) && |s'.health| == |s.health|
      && AllFailed(s'.callers) + Cost(cfg, s', j, limit) <= AllFailed(s.callers) + Cost(cfg, s, j, limit)
    decreases acts
  {
    if acts != [] {
      if Enabled(s, acts[0]) {
        match acts[0]
        case Enter => EnterKeepsInv(cfg, s, j, limit);
        case Choose(c, now) => ChooseKeepsInv(cfg, s, c, now, j, limit);
        case Finish(c, ok, now) => FinishKeepsInv(cfg, s, c, ok, now, j, limit);
      }
      RunPays(cfg, Step(cfg, s, acts[0]), acts[1..], j, limit);
    }
  }

  lemma {:induction false} CostAtStart(cfg: Config, h: seq<Health>, j: nat, limit: nat)
    requires j <= |h| && Consistent(cfg, h)
    ensures Cost(cfg, State(h, []), j, limit) == Runs.Potential(cfg, h, j) + (limit - 1) * HealthyBefore(h, j)
  {
    if j > 0 { CostAtStart(cfg, h, j - 1, limit); }
  }

  lemma {:induction false} CostPositive(cfg: Config, s: State, j: nat, limit: nat)
    requires j <= |s.health| && Consistent(cfg, s.health) && limit >= 1
    ensures Cost(cfg, s, j, limit) >= 0
  {
    if j > 0 { CostPositive(cfg, s, j - 1, limit); }
  }

  lemma {:induction false} ThrowsCost(cs: seq<Caller>, n: nat)
    requires forall c :: 0 <= c < |cs| && cs[c].phase.Gave? ==> cs[c].failed >= n
    ensures Throws(cs) * n <= AllFailed(cs)
  {
    if cs != [] {
      var init, last := cs[..|cs| - 1], cs[|cs| - 1];
      ThrowsCost(init, n);
      assert (Throws(init) + 1) * n == Throws(init) * n + n;
    }
  }

  lemma ThrowsDivided(t: nat, n: nat, b: nat)
    requires n > 0 && t * n <= b
    ensures t <= b / n
  {
    var q := b / n;
    Runs.Quotient(b, n, q);
    if t > q { Runs.Multiples(q, t, n); }
  }

  /**
   Overlapping calls, at most `limit` attempts in flight at a time, provider `j` always working and
   all earlier ones always failing: over an unbounded run the failed attempts are at most the potential
   plus `limit - 1` for each earlier healthy provider, and the throwing calls accordingly few.
   */
  lemma {:induction false} InterleavedTotals(cfg: Config, h: seq<Health>, acts: seq<Action>, j: nat, limit: nat)
    requires cfg.maxFailures >= 1 && Consistent(cfg, h) && j < |h| && h[j].isHealthy && limit >= 1
    requires Bounded(cfg, State(h, []), acts, j, limit)
    ensures var cs, b := Run(cfg, State(h, []), acts).callers, Runs.Potential(cfg, h, j) + (limit - 1) * HealthyBefore(h, j);
      AllFailed(cs) <= b && Throws(cs) <= b / |h|
  {
    var s, s' := State(h, []), Run(cfg, State(h, []), acts);
    RunPays(cfg, s, acts, j, limit);
    CostAtStart(cfg, h, j, limit);
    CostPositive(cfg, s', j, limit);
    ThrowsCost(s'.callers, |h|);
    ThrowsDivided(Throws(s'.callers), |h|, Runs.Potential(cfg, h, j) + (limit - 1) * HealthyBefore(h, j));
  }

  // ----- A run that attains the bound -----

  /** The actions lead to `s'` within the limit and fail `n` attempts. */
  ghost predicate Pays(cfg: Config, s: State, acts: seq<Action>, j: nat, limit: nat, s': State, n: nat) {
    && Bounded(cfg, s, acts, j, limit) && Run(cfg, s, acts) == s'
    && AllFailed(s'.callers) == AllFailed(s.callers) + n
  }

  lemma {:induction false} OnePays(cfg: Config, s: State, a: Action, j: nat, limit: nat)
    requires Flying(s.callers) <= limit && Truthful(s, a, j) && Flying(Step(cfg, s, a).callers) <= limit
    requires AllFailed(s.callers) <= AllFailed(Step(cfg, s, a).callers)
    ensures var s' := Step(cfg, s, a);
      Pays(cfg, s, [a], j, limit, s', AllFailed(s'.callers) - AllFailed(s.callers))
  {
    assert [a][1..] == [];
    assert Bounded(cfg, Step(cfg, s, a), [], j, limit);
  }

  lemma {:induction false} JoinPays(
    cfg: Config, s: State, a: seq<Action>, s1: State, n: nat, b: seq<Action>, s2: State, m: nat, j: nat, limit: nat)
    requires Pays(cfg, s, a, j, limit, s1, n) && Pays(cfg, s1, b, j, limit, s2, m)
    ensures Pays(cfg, s, a + b, j, limit, s2, n + m)
  {
    JoinRuns(cfg, s, a, b, j, limit);
  }

  lemma {:induction false} JoinRuns(cfg: Config, s: State, a: seq<Action>, b: seq<Action>, j: nat, limit: nat)
    requires Bounded(cfg, s, a, j, limit) && Bounded(cfg, Run(cfg, s, a), b, j, limit)
    ensures Bounded(cfg, s, a + b, j, limit) && Run(cfg, s, a + b) == Run(cfg, Run(cfg, s, a), b)
    decreases a
  {
    if a == [] {
      assert a + b == b;
    } else {
      assert (a + b)[0] == a[0] && (a + b)[1..] == a[1..] + b;
      JoinRuns(cfg, Step(cfg, s, a[0]), a[1..], b, j, limit);
    }
  }

  lemma {:induction false} FlyingUpdate(cs: seq<Caller>, c: nat, x: Caller)
    requires c < |cs|
    ensures Flying(cs[c := x]) + (if cs[c].phase.Trying? then 1 else 0)
            == Flying(cs) + (if x.phase.Trying? then 1 else 0)
    decreases cs
  {
    var n := |cs| - 1;
    if c < n {
      FlyingUpdate(cs[..n], c, x);
      assert cs[c := x][..n] == cs[..n][c := x];
    } else {
      assert cs[c := x][..n] == cs[..n];
    }
  }

  lemma {:induction false} Appended(cs: seq<Caller>, x: Caller)
    ensures AllFailed(cs + [x]) == AllFailed(cs) + x.failed
    ensures Flying(cs + [x]) == Flying(cs) + (if x.phase.Trying? then 1 else 0)
  {
    assert (cs + [x])[..|cs|] == cs;
  }

  /** Provider `i`, before `j`, is the one that is picked. */
  ghost predicate Next(cfg: Config, s: State, i: nat, j: nat) {
    Inv(cfg, s, j) && i < j && s.health[i].isHealthy && forall k :: 0 <= k < i ==> !s.health[k].isHealthy
  }

  /** A new call that picks provider `i`. */
  lemma {:induction false} Launch(cfg: Config, s: State, i: nat, j: nat, limit: nat)
    returns (acts: seq<Action>, s': State)
    requires Next(cfg, s, i, j) && Flying(s.callers) < limit
    ensures s' == s.(callers := s.callers + [Caller(0, Trying(i))]) && Pays(cfg, s, acts, j, limit, s', 0)
    ensures Next(cfg, s', i, j) && Flying(s'.callers) == Flying(s.callers) + 1
  {
    var n := |s.callers|;
    var s1 := Step(cfg, s, Enter);
    Appended(s.callers, Caller(0, Picking));
    OnePays(cfg, s, Enter, j, limit);
    s' := Step(cfg, s1, Choose(n, 0));
    assert FirstHealthy(s.health, 0) == Some(i);
    assert s'.callers == s.callers + [Caller(0, Trying(i))];
    Appended(s.callers, Caller(0, Trying(i)));
    OnePays(cfg, s1, Choose(n, 0), j, limit);
    acts := [Enter] + [Choose(n, 0)];
    JoinPays(cfg, s, [Enter], s1, 0, [Choose(n, 0)], s', 0, j, limit);
  }

  /** The attempt of call `c` on provider `i` fails. */
  lemma {:induction false} Land(cfg: Config, s: State, c: nat, i: nat, now: int, j: nat, limit: nat)
    returns (s': State)
    requires Inv(cfg, s, j) && c < |s.callers| && s.callers[c] == Caller(0, Trying(i)) && i < j && Flying(s.callers) <= limit
    ensures s' == State(Fail(cfg, s.health, i, now), s.callers[c := Caller(1, Picking)])
    ensures Pays(cfg, s, [Finish(c, false, now)], j, limit, s', 1)
    ensures Inv(cfg, s', j) && Flying(s'.callers) == Flying(s.callers) - 1
  {
    s' := Step(cfg, s, Finish(c, false, now));
    FlyingUpdate(s.callers, c, Caller(1, Picking));
    AllFailedUpdate(s.callers, c, Caller(1, Picking));
    FinishInv(cfg, s, c, false, now, j);
    OnePays(cfg, s, Finish(c, false, now), j, limit);
  }

  /** `k` new calls have failed on provider `i`, and nothing else is left of them in flight. */
  ghost predicate Landed(
    cfg: Config, s: State, acts: seq<Action>, i: nat, j: nat, limit: nat, clock: nat -> int, k: nat, s': State)
  {
    && Pays(cfg, s, acts, j, limit, s', k) && Inv(cfg, s', j)
    && s'.health == FailTimes(cfg, s.health, i, clock, k)
    && s.callers <= s'.callers && Flying(s'.callers) == Flying(s.callers)
  }

  lemma {:induction false} NoneLanded(cfg: Config, s: State, i: nat, j: nat, limit: nat, clock: nat -> int)
    requires Inv(cfg, s, j) && Flying(s.callers) <= limit
    ensures Landed(cfg, s, [], i, j, limit, clock, 0, s)
  {}

  /** They all pick it before any of them fails on it. */
  lemma {:induction false} Burst(cfg: Config, s: State, i: nat, j: nat, limit: nat, clock: nat -> int, k: nat)
    returns (acts: seq<Action>, s': State)
    requires Next(cfg, s, i, j) && Flying(s.callers) + k <= limit
    ensures Landed(cfg, s, acts, i, j, limit, clock, k, s')
    decreases k
  {
    if k == 0 {
      NoneLanded(cfg, s, i, j, limit, clock);
      acts, s' := [], s;
    } else {
      var up, s1 := Launch(cfg, s, i, j, limit);
      var inner, s2 := Burst(cfg, s1, i, j, limit, clock, k - 1);
      acts, s' := Enclose(cfg, s, up, s1, inner, s2, k - 1, i, clock, j, limit);
    }
  }

  /** Last of all the first of them fails. */
  lemma {:induction false} Enclose(
    cfg: Config, s: State, up: seq<Action>, s1: State, inner: seq<Action>, s2: State, n: nat, i: nat, clock: nat -> int,
    j: nat, limit: nat)
    returns (acts: seq<Action>, s': State)
    requires i < j && Pays(cfg, s, up, j, limit, s1, 0) && s1 == s.(callers := s.callers + [Caller(0, Trying(i))])
    requires Landed(cfg, s1, inner, i, j, limit, clock, n, s2) && Flying(s1.callers) == Flying(s.callers) + 1 <= limit
    ensures Landed(cfg, s, acts, i, j, limit, clock, n + 1, s')
  {
    var c, now := |s.callers|, clock(n);
    assert s2.callers[c] == s1.callers[c];
    s' := Land(cfg, s2, c, i, now, j, limit);
    JoinPays(cfg, s, up, s1, 0, inner, s2, n, j, limit);
    acts := up + inner + [Finish(c, false, now)];
    JoinPays(cfg, s, up + inner, s2, n, [Finish(c, false, now)], s', 1, j, limit);
    assert s.callers <= s'.callers;
  }

  /** What provider `i` had to give is taken: no other changed, and it is out. */
  ghost predicate Spent(h: seq<Health>, h': seq<Health>, i: nat) {
    && i < |h| == |h'| && h[i].isHealthy && !h'[i].isHealthy
    && forall k :: 0 <= k < |h| && k != i ==> h'[k] == h[k]
  }

  /** One failure at a time until one is left to the limit, then `limit` at once. */
  lemma {:induction false} Drain(cfg: Config, s: State, i: nat, j: nat, limit: nat)
    returns (acts: seq<Action>, s': State)
    requires Next(cfg, s, i, j) && Flying(s.callers) == 0 && limit >= 1
    ensures Inv(cfg, s', j) && Spent(s.health, s'.health, i) && Flying(s'.callers) == 0
    ensures Pays(cfg, s, acts, j, limit, s', cfg.maxFailures - s.health[i].failureCount + limit - 1)
    decreases cfg.maxFailures - s.health[i].failureCount
  {
    var clock: nat -> int := _ => 0;
    var r := cfg.maxFailures - s.health[i].failureCount;
    if r == 1 {
      acts, s' := Burst(cfg, s, i, j, limit, clock, limit);
      GivenUpAtLimit(cfg, s.health, i, clock, limit);
    } else {
      var one, s1 := Burst(cfg, s, i, j, limit, clock, 1);
      GivenUpAtLimit(cfg, s.health, i, clock, 1);
      var rest;
      rest, s' := Drain(cfg, s1, i, j, limit);
      acts := one + rest;
      JoinPays(cfg, s, one, s1, 1, rest, s', r - 1 + limit - 1, j, limit);
    }
  }

  /** What the providers before `j` cost when nothing is in flight. */
  function Owed(cfg: Config, h: seq<Health>, j: nat, limit: nat): int
    requires j <= |h|
  {
    Cost(cfg, State(h, []), j, limit)
  }

  lemma {:induction false} OwedDrops(cfg: Config, h: seq<Health>, h': seq<Health>, i: nat, j: nat, limit: nat)
    requires Spent(h, h', i) && j <= |h|
    ensures Owed(cfg, h', j, limit)
            == Owed(cfg, h, j, limit) - (if i < j then cfg.maxFailures - h[i].failureCount + limit - 1 else 0)
    decreases j
  {
    if j > 0 { OwedDrops(cfg, h, h', i, j - 1, limit); }
  }

  lemma {:induction false} NothingOwed(cfg: Config, h: seq<Health>, j: nat, limit: nat)
    requires j <= |h| && forall k :: 0 <= k < j ==> !h[k].isHealthy
    ensures Owed(cfg, h, j, limit) == 0
  {
    if j > 0 { NothingOwed(cfg, h, j - 1, limit); }
  }

  /** The providers from `i` on are drained in turn. */
  lemma {:induction false} DrainAll(cfg: Config, s: State, i: nat, j: nat, limit: nat)
    returns (acts: seq<Action>, s': State)
    requires Inv(cfg, s, j) && i <= j && Flying(s.callers) == 0 && limit >= 1
    requires forall k :: 0 <= k < i ==> !s.health[k].isHealthy
    ensures Owed(cfg, s.health, j, limit) >= 0 && Pays(cfg, s, acts, j, limit, s', Owed(cfg, s.health, j, limit))
    decreases j - i
  {
    if i == j {
      NothingOwed(cfg, s.health, j, limit);
      acts, s' := [], s;
    } else if !s.health[i].isHealthy {
      acts, s' := DrainAll(cfg, s, i + 1, j, limit);
    } else {
      var first, s1 := Drain(cfg, s, i, j, limit);
      var rest;
      rest, s' := DrainAll(cfg, s1, i + 1, j, limit);
      OwedDrops(cfg, s.health, s1.health, i, j, limit);
      acts := first + rest;
      JoinPays(cfg, s, first, s1, cfg.maxFailures - s.health[i].failureCount + limit - 1,
               rest, s', Owed(cfg, s1.health, j, limit), j, limit);
    }
  }

  /** The bound on failed attempts is attained: some run of overlapping calls makes exactly as many. */
  lemma BoundIsAttained(cfg: Config, h: seq<Health>, j: nat, limit: nat) returns (acts: seq<Action>)
    requires cfg.maxFailures >= 1 && Consistent(cfg, h) && j < |h| && h[j].isHealthy && limit >= 1
    ensures Bounded(cfg, State(h, []), acts, j, limit)
    ensures AllFailed(Run(cfg, State(h, []), acts).callers)
            == Runs.Potential(cfg, h, j) + (limit - 1) * HealthyBefore(h, j)
  {
    var s';
    acts, s' := DrainAll(cfg, State(h, []), 0, j, limit);
    CostAtStart(cfg, h, j, limit);
  }

  // ----- One call among any number of others -----

  /** An attempt under way on an earlier provider that has meanwhile been given up. */
  function Late(s: State, c: nat, j: nat): nat
    requires c < |s.callers|
  {
    var x := s.callers[c].phase;
    if x.Trying? && x.provider < j && x.provider < |s.health| && !s.health[x.provider].isHealthy then 1 else 0
  }

  /** What a call has failed comes out of the potential that was there when it entered. */
  ghost predicate Affords(cfg: Config, s: State, j: nat, p: nat)
    requires j <= |s.health|
  {
    && Runs.Potential(cfg, s.health, j) <= p
    && forall c :: 0 <= c < |s.callers| ==>
         s.callers[c].failed + Late(s, c, j) + Runs.Potential(cfg, s.health, j) <= p
  }

  lemma StepAffords(cfg: Config, s: State, a: Action, j: nat, p: nat)
    requires Inv(cfg, s, j) && Truthful(s, a, j) && Affords(cfg, s, j, p)
    ensures Inv(cfg, Step(cfg, s, a), j) && |Step(cfg, s, a).health| == |s.health|
    ensures Affords(cfg, Step(cfg, s, a), j, p)
  {
    if Enabled(s, a) {
      match a
      case Enter => EnterKeepsInv(cfg, s, j, 1);
      case Choose(c, now) =>
        ChooseKeepsInv(cfg, s, c, now, j, 1);
        ChooseAffords(cfg, s, c, now, j, p);
      case Finish(c, ok, now) =>
        FinishInv(cfg, s, c, ok, now, j);
        FinishAffords(cfg, s, c, ok, now, j, p);
    }
  }

  lemma FinishInv(cfg: Config, s: State, c: nat, ok: bool, now: int, j: nat)
    requires Inv(cfg, s, j) && Enabled(s, Finish(c, ok, now)) && Truthful(s, Finish(c, ok, now), j)
    ensures Inv(cfg, FinishStep(cfg, s, c, ok, now), j)
  {
    FinishKeepsInv(cfg, s, c, ok, now, j, Flying(s.callers));
  }

  lemma ChooseAffords(cfg: Config, s: State, c: nat, now: int, j: nat, p: nat)
    requires Inv(cfg, s, j) && Affords(cfg, s, j, p) && Enabled(s, Choose(c, now))
    ensures Affords(cfg, ChooseStep(cfg, s, c, now), j, p)
  {
    PickMeaning(cfg, s.health, now);
    var s' := ChooseStep(cfg, s, c, now);
    assert s'.health == s.health;
  }

  lemma FinishAffords(cfg: Config, s: State, c: nat, ok: bool, now: int, j: nat, p: nat)
    requires Inv(cfg, s, j) && Affords(cfg, s, j, p)
    requires Enabled(s, Finish(c, ok, now)) && Truthful(s, Finish(c, ok, now), j)
    ensures Affords(cfg, FinishStep(cfg, s, c, ok, now), j, p)
  {
    var s', i := FinishStep(cfg, s, c, ok, now), s.callers[c].phase.provider;
    if ok {
      assert i == j;
      Runs.PotentialUpdate(cfg, s.health, j, j, s'.health[j]);
    } else {
      FailPotential(cfg, s.health, i, now, j);
    }
  }

  /** A failure lowers the potential by one as long as the provider is healthy, and not at all afterwards. */
  lemma {:induction false} FailPotential(cfg: Config, h: seq<Health>, i: nat, now: int, j: nat)
    requires cfg.maxFailures >= 1 && Consistent(cfg, h) && i < j <= |h|
    ensures Runs.Potential(cfg, Fail(cfg, h, i, now), j)
            == Runs.Potential(cfg, h, j) - (if h[i].isHealthy then 1 else 0)
  {
    var h' := Fail(cfg, h, i, now);
    if h[i].isHealthy {
      Runs.PotentialUpdate(cfg, h, j, i, h'[i]);
    } else {
      SpentPotential(cfg, h, h', i, j);
    }
  }

  lemma {:induction false} SpentPotential(cfg: Config, h: seq<Health>, h': seq<Health>, i: nat, j: nat)
    requires j <= |h| == |h'| && i < |h| && forall k :: 0 <= k < |h| && k != i ==> h'[k] == h[k]
    requires h[i].failureCount >= cfg.maxFailures && h'[i].failureCount >= cfg.maxFailures
    ensures Runs.Potential(cfg, h', j) == Runs.Potential(cfg, h, j)
  {
    if j > 0 { SpentPotential(cfg, h, h', i, j - 1); }
  }

  ghost predicate AllTruthful(cfg: Config, s: State, acts: seq<Action>, j: nat)
    decreases acts
  {
    acts != [] ==> Truthful(s, acts[0], j) && AllTruthful(cfg, Step(cfg, s, acts[0]), acts[1..], j)
  }

  lemma {:induction false} RunAffords(cfg: Config, s: State, acts: seq<Action>, j: nat, p: nat)
    requires Inv(cfg, s, j) && AllTruthful(cfg, s, acts, j) && Affords(cfg, s, j, p)
    ensures var s' := Run(cfg, s, acts); Inv(cfg, s', j) && |s'.health| == |s.health| && Affords(cfg, s', j, p)
    decreases acts
  {
    if acts != [] {
      StepAffords(cfg, s, acts[0], j, p);
      RunAffords(cfg, Step(cfg, s, acts[0]), acts[1..], j, p);
    }
  }

  /**
   However many calls overlap, no call fails more often than the potential at the start, so that none
   throws when that is less than the number of providers; with a limit of one failure it always is.
   */
  lemma {:induction false} InterleavedNeverThrows(cfg: Config, h: seq<Health>, acts: seq<Action>, j: nat, c: nat)
    requires cfg.maxFailures >= 1 && Consistent(cfg, h) && j < |h| && h[j].isHealthy
    requires AllTruthful(cfg, State(h, []), acts, j) && c < |Run(cfg, State(h, []), acts).callers|
    ensures var x := Run(cfg, State(h, []), acts).callers[c];
      && x.failed <= Runs.Potential(cfg, h, j)
      && (Runs.Potential(cfg, h, j) < |h| || cfg.maxFailures == 1 ==> !x.phase.Gave?)
  {
    RunAffords(cfg, State(h, []), acts, j, Runs.Potential(cfg, h, j));
    var s' := Run(cfg, State(h, []), acts);
    assert s'.callers[c].failed + Late(s', c, j) + Runs.Potential(cfg, s'.health, j) <= Runs.Potential(cfg, h, j);
    Runs.PotentialBound(cfg, h, j);
  }

  // ----- When a provider is given up -----

  /** The outcomes of the attempts on provider `i`, in the order in which they end. */
  function Outcomes(cfg: Config, s: State, acts: seq<Action>, i: nat): seq<bool>
    decreases acts
  {
    if acts == [] then [] else
    (if Ends(s, acts[0], i) then [acts[0].ok] else []) + Outcomes(cfg, Step(cfg, s, acts[0]), acts[1..], i)
  }

  predicate Ends(s: State, a: Action, i: nat) { a.Finish? && Enabled(s, a) && s.callers[a.c].phase == Trying(i) }

  /** After `count` failures in a row there are never `limit` in a row, counting on. */
  predicate NeverInARow(count: nat, oks: seq<bool>, limit: int)
    decreases oks
  {
    count < limit && (oks == [] || NeverInARow(if oks[0] then 0 else count + 1, oks[1..], limit))
  }

  /** Provider `i` is healthy at the start and after every action. */
  ghost predicate HealthyThroughout(cfg: Config, s: State, acts: seq<Action>, i: nat)
    decreases acts
  {
    && i < |s.health| && s.health[i].isHealthy
    && (acts != [] ==> HealthyThroughout(cfg, Step(cfg, s, acts[0]), acts[1..], i))
  }

  lemma StepCounts(cfg: Config, s: State, a: Action, i: nat)
    requires cfg.maxFailures >= 1 && Consistent(cfg, s.health) && i < |s.health| && s.health[i].isHealthy
    ensures var s' := Step(cfg, s, a);
      && Consistent(cfg, s'.health) && |s'.health| == |s.health|
      && s'.health[i].failureCount
         == if !Ends(s, a, i) then s.health[i].failureCount else if a.ok then 0 else s.health[i].failureCount + 1
  {
    if Enabled(s, a) {
      match a
      case Enter =>
      case Choose(c, now) => PickMeaning(cfg, s.health, now);
      case Finish(c, ok, now) => OperationsKeepConsistent(cfg, s.health, s.callers[c].phase.provider, now);
    }
  }

  /**
   In every interleaving a provider stays healthy throughout exactly if its attempts never end in as
   many failures in a row as the limit, however many fail in all.
   */
  lemma {:induction false} GivenUpExactly(cfg: Config, s: State, acts: seq<Action>, i: nat)
    requires cfg.maxFailures >= 1 && Consistent(cfg, s.health) && i < |s.health|
    ensures HealthyThroughout(cfg, s, acts, i)
            <==> NeverInARow(s.health[i].failureCount, Outcomes(cfg, s, acts, i), cfg.maxFailures)
    decreases acts
  {
    if acts != [] && s.health[i].isHealthy {
      StepCounts(cfg, s, acts[0], i);
      GivenUpExactly(cfg, Step(cfg, s, acts[0]), acts[1..], i);
      if Ends(s, acts[0], i) {
        assert ([acts[0].ok] + Outcomes(cfg, Step(cfg, s, acts[0]), acts[1..], i))[1..]
               == Outcomes(cfg, Step(cfg, s, acts[0]), acts[1..], i);
      } else {
        assert Outcomes(cfg, s, acts, i) == Outcomes(cfg, Step(cfg, s, acts[0]), acts[1..], i);
      }
    }
  }

  // ----- A call that overlaps with none is such a run -----

  /** The actions of call number `c`, which has tried `tried` in vain. */
  function Alone(
    cfg: Config, h: seq<Health>, works: (nat, nat) -> bool, clock: nat -> int, tried: seq<nat>, c: nat): seq<Action>
    decreases |h| - |tried|
  {
    var a := |tried|;
    var pick := Choose(c, clock(2 * a));
    if a >= |h| then [pick] else
    match Pick(cfg, h, clock(2 * a))
    case (None, _) => [pick]
    case (Some(i), h1) =>
      if works(i, a) then [pick, Finish(c, true, clock(2 * a))]
      else
        var h2 := Fail(cfg, h1, i, clock(2 * a + 1));
        assert |h2| == |h|;
        [pick, Finish(c, false, clock(2 * a + 1))] + Alone(cfg, h2, works, clock, tried + [i], c)
  }

  lemma {:induction false} RunTwo(cfg: Config, s: State, a: Action, b: Action, rest: seq<Action>)
    ensures Run(cfg, s, [a, b] + rest) == Run(cfg, Step(cfg, Step(cfg, s, a), b), rest)
  {
    assert ([a, b] + rest)[1..] == [b] + rest && ([b] + rest)[1..] == rest;
  }

  lemma {:induction false} RunOne(cfg: Config, s: State, a: Action)
    ensures Run(cfg, s, [a]) == Step(cfg, s, a)
  {
    assert [a][1..] == [];
  }

  /** Call `c` among callers `cs`. */
  function With(h: seq<Health>, cs: seq<Caller>, c: nat, x: Caller): State
    requires c < |cs|
  {
    State(h, cs[c := x])
  }

  lemma {:induction false} OneAttempt(cfg: Config, h: seq<Health>, cs: seq<Caller>, c: nat, a: nat, ok: bool, t0: int, t1: int)
    requires c < |cs| && a < |h| && Pick(cfg, h, t0).0.Some?
    ensures var (i, h1) := Pick(cfg, h, t0);
      Step(cfg, Step(cfg, With(h, cs, c, Caller(a, Picking)), Choose(c, t0)), Finish(c, ok, t1))
      == if ok then With(Succeed(h1, i.value), cs, c, Caller(a, Worked))
         else With(Fail(cfg, h1, i.value, t1), cs, c, Caller(a + 1, Picking))
  {
    var (i, h1) := Pick(cfg, h, t0);
    var s1 := Step(cfg, With(h, cs, c, Caller(a, Picking)), Choose(c, t0));
    assert s1 == With(h1, cs, c, Caller(a, Trying(i.value)));
  }

  /** How a call ends: it worked after its failed attempts, or gave up. */
  function Ended(r: CallResult): Caller {
    if r.ok && r.tried != [] then Caller(|r.tried| - 1, Worked) else Caller(|r.tried|, Gave)
  }

  /** The call makes no further attempt, or makes one that works. */
  lemma {:induction false} LastAttempt(
    cfg: Config, h: seq<Health>, works: (nat, nat) -> bool, clock: nat -> int, tried: seq<nat>, cs: seq<Caller>, c: nat)
    requires c < |cs| && |tried| <= |h|
    requires |tried| < |h| ==>
               var i := Pick(cfg, h, clock(2 * |tried|)).0; i.None? || works(i.value, |tried|)
    ensures var r := Call(cfg, h, works, clock, tried, |h|);
      && Run(cfg, With(h, cs, c, Caller(|tried|, Picking)), Alone(cfg, h, works, clock, tried, c))
         == With(r.health, cs, c, Ended(r))
      && (r.ok ==> r.tried != [])
  {
    var a := |tried|;
    var s, pick := With(h, cs, c, Caller(a, Picking)), Choose(c, clock(2 * a));
    if a >= |h| || Pick(cfg, h, clock(2 * a)).0.None? {
      RunOne(cfg, s, pick);
    } else {
      OneAttempt(cfg, h, cs, c, a, true, clock(2 * a), clock(2 * a));
      RunTwo(cfg, s, pick, Finish(c, true, clock(2 * a)), []);
      assert [pick, Finish(c, true, clock(2 * a))] + [] == [pick, Finish(c, true, clock(2 * a))];
    }
  }

  /** `withRpcFailover` undisturbed does to the providers what its actions do one by one, and ends alike. */
  lemma {:induction false} CallIsRun(
    cfg: Config, h: seq<Health>, works: (nat, nat) -> bool, clock: nat -> int, tried: seq<nat>, cs: seq<Caller>, c: nat)
    requires c < |cs| && |tried| <= |h|
    ensures var r := Call(cfg, h, works, clock, tried, |h|);
      && Run(cfg, With(h, cs, c, Caller(|tried|, Picking)), Alone(cfg, h, works, clock, tried, c))
         == With(r.health, cs, c, Ended(r))
      && (r.ok ==> r.tried != [])
    decreases |h| - |tried|
  {
    var a := |tried|;
    var (i, h1) := Pick(cfg, h, clock(2 * a));
    if a >= |h| || i.None? || works(i.value, a) {
      LastAttempt(cfg, h, works, clock, tried, cs, c);
    } else {
      PickMeaning(cfg, h, clock(2 * a));
      var h2, fail := Fail(cfg, h1, i.value, clock(2 * a + 1)), Finish(c, false, clock(2 * a + 1));
      OneAttempt(cfg, h, cs, c, a, false, clock(2 * a), clock(2 * a + 1));
      RunTwo(cfg, With(h, cs, c, Caller(a, Picking)), Choose(c, clock(2 * a)), fail,
             Alone(cfg, h2, works, clock, tried + [i.value], c));
      CallIsRun(cfg, h2, works, clock, tried + [i.value], cs, c);
    }
  }

  /** The actions of calls one after another. */
  function OneByOne(cfg: Config, h: seq<Health>, scripts: seq<Runs.Script>, c: nat): seq<Action>
    decreases scripts
  {
    if scripts == [] then [] else
    [Enter] + Alone(cfg, h, scripts[0].works, scripts[0].clock, [], c)
    + OneByOne(cfg, Call(cfg, h, scripts[0].works, scripts[0].clock, [], |h|).health, scripts[1..], c + 1)
  }

  function HealthAfter(cfg: Config, h: seq<Health>, scripts: seq<Runs.Script>): seq<Health>
    decreases scripts
  {
    if scripts == [] then h
    else HealthAfter(cfg, Call(cfg, h, scripts[0].works, scripts[0].clock, [], |h|).health, scripts[1..])
  }

  lemma {:induction false} RunConcat(cfg: Config, s: State, a: seq<Action>, b: seq<Action>)
    ensures Run(cfg, s, a + b) == Run(cfg, Run(cfg, s, a), b)
    decreases a
  {
    if a == [] {
      assert a + b == b;
    } else {
      assert (a + b)[0] == a[0] && (a + b)[1..] == a[1..] + b;
      RunConcat(cfg, Step(cfg, s, a[0]), a[1..], b);
    }
  }

  lemma {:induction false} CallsAreRun(cfg: Config, h: seq<Health>, scripts: seq<Runs.Script>, cs: seq<Caller>)
    ensures Run(cfg, State(h, cs), OneByOne(cfg, h, scripts, |cs|)).health == HealthAfter(cfg, h, scripts)
    decreases scripts
  {
    if scripts != [] {
      var works, clock := scripts[0].works, scripts[0].clock;
      var first, cs1 := Alone(cfg, h, works, clock, [], |cs|), cs + [Caller(0, Picking)];
      var r := Call(cfg, h, works, clock, [], |h|);
      var rest, cs2 := OneByOne(cfg, r.health, scripts[1..], |cs| + 1), cs1[|cs| := Ended(r)];
      CallIsRun(cfg, h, works, clock, [], cs1, |cs|);
      assert cs1[|cs| := Caller(0, Picking)] == cs1;
      RunOne(cfg, State(h, cs), Enter);
      RunConcat(cfg, State(h, cs), [Enter], first);
      RunConcat(cfg, State(h, cs), [Enter] + first, rest);
      CallsAreRun(cfg, r.health, scripts[1..], cs2);
    }
  }

  lemma {:induction false} HealthyAtEnd(cfg: Config, s: State, acts: seq<Action>, i: nat)
    requires HealthyThroughout(cfg, s, acts, i)
    ensures i < |Run(cfg, s, acts).health| && Run(cfg, s, acts).health[i].isHealthy
    decreases acts
  {
    if acts != [] { HealthyAtEnd(cfg, Step(cfg, s, acts[0]), acts[1..], i); }
  }

  /** So over whole calls a provider that never fails as often in a row as the limit ends healthy. */
  lemma {:induction false} NeverGivenUp(cfg: Config, h: seq<Health>, scripts: seq<Runs.Script>, i: nat)
    requires cfg.maxFailures >= 1 && Consistent(cfg, h) && i < |h|
    requires NeverInARow(
               h[i].failureCount, Outcomes(cfg, State(h, []), OneByOne(cfg, h, scripts, 0), i), cfg.maxFailures)
    ensures i < |HealthAfter(cfg, h, scripts)| && HealthAfter(cfg, h, scripts)[i].isHealthy
  {
    GivenUpExactly(cfg, State(h, []), OneByOne(cfg, h, scripts, 0), i);
    HealthyAtEnd(cfg, State(h, []), OneByOne(cfg, h, scripts, 0), i);
    CallsAreRun(cfg, h, scripts, []);
  }
}
