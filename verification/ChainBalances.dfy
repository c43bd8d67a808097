/**
 `_collectChainBalances`: the ERC20 sweep inside `withRpcFailover`.  Every invocation is a sweep of its
 own; what its workers report goes straight into the shared lists, whether the sweep rejects or not.
 */
module ChainBalances {
  import opened Common
  import opened Retry
  import opened Providers
  import opened Failover
  import opened WorkerPool
  import Runs = FailoverRuns

  /** `run(p, a, k)` are the workers' actions in invocation `k` of attempt `a` on provider `p`. */
  datatype Sweeps = Sweeps(choices: seq<Choice>, concurrency: int, run: (nat, nat, nat) -> seq<Action>) {
    /** Where the workers of an invocation end up. */
    function End(p: nat, a: nat, k: nat): State { Run(choices, Init(concurrency), run(p, a, k)) }

    /** Every sweep runs its course: its workers go on, rejected or not, until they have nothing left to do. */
    ghost predicate Complete() { forall p, a, k :: Idle(End(p, a, k)) }

    predicate SomeThrows() { exists i :: 0 <= i < |choices| && choices[i].Throws? }

    /** Usable, with a worker of the sweep left for it. */
    predicate Reaches(i: nat) { Reached(choices, concurrency, i) }
  }

  /** The error of a choice that throws is a plain type error: no status, no network words in it. */
  const TYPE_ERROR := Err(None, None, false, false, 0)

  /** The callback that `withRpcFailover` is given. */
  function Callback(s: Sweeps): (nat, nat, nat) -> Attempt<()> {
    (p: nat, a: nat, k: nat) => if Rejects(s.End(p, a, k)) then Thrown(TYPE_ERROR) else Returned(())
  }

  /** How often `n` invocations of attempt `a` report token `i`. */
  function AttemptReports(s: Sweeps, p: nat, a: nat, n: nat, i: nat): nat {
    if n == 0 then 0 else AttemptReports(s, p, a, n - 1, i) + Reports(s.End(p, a, n), i)
  }

  /** How often the whole call does. */
  function CallReports(s: Sweeps, o: Options, ids: seq<nat>, tried: seq<nat>, i: nat): nat
    requires Indices(ids, tried)
  {
    if tried == [] then 0 else
    var a := |tried| - 1;
    CallReports(s, o, ids, tried[..a], i) + AttemptReports(s, ids[tried[a]], a, Invoked(o, Callback(s), ids[tried[a]], a), i)
  }

  lemma SweepReports(s: Sweeps, p: nat, a: nat, k: nat, i: nat)
    requires s.Complete()
    ensures Reports(s.End(p, a, k), i) == if s.Reaches(i) then 1 else 0
    ensures Rejects(s.End(p, a, k)) <==> s.SomeThrows()
  {
    assert Idle(s.End(p, a, k));
    RejectsExactly(s.choices, s.concurrency, s.run(p, a, k));
    ReportedExactly(s.choices, s.concurrency, s.run(p, a, k), i);
  }

  lemma {:induction false} ReportsPerAttempt(s: Sweeps, p: nat, a: nat, n: nat, i: nat)
    requires s.Complete()
    ensures AttemptReports(s, p, a, n, i) == if s.Reaches(i) then n else 0
  {
    if n > 0 {
      ReportsPerAttempt(s, p, a, n - 1, i);
      SweepReports(s, p, a, n, i);
    }
  }

  /** A token that the workers reach is reported exactly once for every invocation of the sweep, any other never. */
  lemma {:induction false} ReportedPerInvocation(s: Sweeps, o: Options, ids: seq<nat>, tried: seq<nat>, i: nat)
    requires s.Complete() && Indices(ids, tried)
    ensures CallReports(s, o, ids, tried, i) == if s.Reaches(i) then TotalInvoked(o, Callback(s), ids, tried) else 0
  {
    if tried != [] {
      var a := |tried| - 1;
      ReportedPerInvocation(s, o, ids, tried[..a], i);
      ReportsPerAttempt(s, ids[tried[a]], a, Invoked(o, Callback(s), ids[tried[a]], a), i);
    }
  }

  /** An attempt invokes the sweep once: it completes, or its error is not one to retry. */
  lemma {:induction false} InvokedOnce(s: Sweeps, o: Options, ids: seq<nat>, tried: seq<nat>)
    requires Indices(ids, tried) && o.maxAttempts >= 1
    ensures TotalInvoked(o, Callback(s), ids, tried) == |tried|
  {
    if tried != [] {
      var a := |tried| - 1;
      InvokedOnce(s, o, ids, tried[..a]);
      assert Settles(o, Invocations(Callback(s), ids[tried[a]], a), 1);
    }
  }

  /** Whatever throws and whatever the providers' health, a token the workers reach is reported once per attempt. */
  lemma {:induction false} ReportedPerAttempt(
    s: Sweeps, cfg: Config, h: seq<Health>, o: Options, ids: seq<nat>, clock: nat -> int, i: nat)
    requires s.Complete() && |h| == |ids| && o.maxAttempts >= 1
    ensures var c := Call(cfg, h, Works(o, Callback(s), ids), clock, [], |ids|);
      Indices(ids, c.tried) && CallReports(s, o, ids, c.tried, i) == if s.Reaches(i) then |c.tried| else 0
  {
    var c := Call(cfg, h, Works(o, Callback(s), ids), clock, [], |ids|);
    CallIndices(cfg, h, Works(o, Callback(s), ids), clock, [], |ids|);
    InvokedOnce(s, o, ids, c.tried);
    ReportedPerInvocation(s, o, ids, c.tried, i);
  }

  /**
   If no token throws, the sweep runs once and adds no duplicates: each usable token is reported exactly
   once if a provider can be picked, and nothing is reported if none can.
   */
  lemma {:induction false} CollectedOnce(
    s: Sweeps, cfg: Config, h: seq<Health>, o: Options, ids: seq<nat>, clock: nat -> int, i: nat)
    requires s.Complete() && !s.SomeThrows() && |h| == |ids| > 0 && o.maxAttempts >= 1
    ensures var c := Call(cfg, h, Works(o, Callback(s), ids), clock, [], |ids|);
      && Indices(ids, c.tried) && (c.ok <==> Pick(cfg, h, clock(0)).0.Some?)
      && CallReports(s, o, ids, c.tried, i) == if c.ok && i < |s.choices| && s.choices[i].Usable? then 1 else 0
  {
    forall p, a, k ensures Callback(s)(p, a, k).Returned? { SweepReports(s, p, a, k, i); }
    NeverThrowingRunsOnce(cfg, h, o, Callback(s), ids, clock);
    ReportedPerInvocation(s, o, ids, Call(cfg, h, Works(o, Callback(s), ids), clock, [], |ids|).tried, i);
    if i < |s.choices| { FewThrows(s.choices, i); }
  }

  /** If some token throws, every sweep rejects, and the call fails over from one provider to the next. */
  lemma ThrowingNeverWorks(s: Sweeps, o: Options, ids: seq<nat>)
    requires s.Complete() && s.SomeThrows() && o.maxAttempts >= 1
    ensures forall p, a :: !Works(o, Callback(s), ids)(p, a)
  {
    forall p: nat, a: nat ensures !Works(o, Callback(s), ids)(p, a) {
      if p < |ids| {
        var n := Settling(o, Invocations(Callback(s), ids[p], a), 1);
        SweepReports(s, ids[p], a, n, 0);
        assert Callback(s)(ids[p], a, n).Thrown?;
      }
    }
  }

  /** With nothing working, a second attempt is made exactly if a provider can be picked after the first failure. */
  lemma {:induction false} SecondAttemptExactly(cfg: Config, h: seq<Health>, works: (nat, nat) -> bool, clock: nat -> int,
      n: nat)
    requires forall p, a :: !works(p, a)
    ensures |Call(cfg, h, works, clock, [], n).tried| > 1 <==> n > 1 && FailsOver(cfg, h, clock)
  {
    PickMeaning(cfg, h, clock(0));
    var (i, h1) := Pick(cfg, h, clock(0));
    if n > 1 && i.Some? {
      var h2 := Fail(cfg, h1, i.value, clock(1));
      assert !works(i.value, 0) && |[i.value]| == 1;
      assert [] + [i.value] == [i.value];
      assert Call(cfg, h, works, clock, [], n) == Call(cfg, h2, works, clock, [i.value], n);
      if Pick(cfg, h2, clock(2)).0.Some? {
        var k := Pick(cfg, h2, clock(2)).0.value;
        assert !works(k, 1);
        TriedGrows(cfg, Fail(cfg, Pick(cfg, h2, clock(2)).1, k, clock(3)), works, clock, [i.value] + [k], n);
      }
    }
  }

  lemma {:induction false} TriedGrows(
    cfg: Config, h: seq<Health>, works: (nat, nat) -> bool, clock: nat -> int, tried: seq<nat>, n: nat)
    ensures |Call(cfg, h, works, clock, tried, n).tried| >= |tried|
    decreases n - |tried|
  {
    var a := |tried|;
    if a < n {
      match Pick(cfg, h, clock(2 * a))
      case (None, _) =>
      case (Some(i), h1) => TriedGrows(cfg, Fail(cfg, h1, i, clock(2 * a + 1)), works, clock, tried + [i], n);
    }
  }

  /** A provider can be picked, and, once it has failed, one can be picked again. */
  predicate FailsOver(cfg: Config, h: seq<Health>, clock: nat -> int) {
    var (i, h1) := Pick(cfg, h, clock(0));
    i.Some? && Pick(cfg, Fail(cfg, h1, i.value, clock(1)), clock(2)).0.Some?
  }

  /**
   Exactly when balances are reported more than once: some token throws, several providers are
   registered, and after the first one's failure one can be picked again.
   */
  lemma {:induction false} DuplicatesExactly(
    s: Sweeps, cfg: Config, h: seq<Health>, o: Options, ids: seq<nat>, clock: nat -> int, i: nat)
    requires s.Complete() && |h| == |ids| > 0 && o.maxAttempts >= 1
    ensures var c := Call(cfg, h, Works(o, Callback(s), ids), clock, [], |ids|);
      && Indices(ids, c.tried)
      && (CallReports(s, o, ids, c.tried, i) > 1
          <==> s.Reaches(i) && s.SomeThrows() && |ids| > 1 && FailsOver(cfg, h, clock))
  {
    ReportedPerAttempt(s, cfg, h, o, ids, clock, i);
    if s.SomeThrows() {
      ThrowingNeverWorks(s, o, ids);
      SecondAttemptExactly(cfg, h, Works(o, Callback(s), ids), clock, |ids|);
    } else {
      CollectedOnce(s, cfg, h, o, ids, clock, i);
    }
  }

  /**
   In particular after a fresh registration, and before a cooldown is over, a token that throws makes
   every token the workers reach be reported once for every registered provider.
   */
  lemma {:induction false} ThrowingTokenDuplicates(
    s: Sweeps, cfg: Config, o: Options, ids: seq<nat>, clock: nat -> int, base: int, i: nat)
    requires s.Complete() && s.SomeThrows() && o.maxAttempts >= 1 && cfg.maxFailures >= 1
    requires forall t: nat :: base <= clock(t) < base + cfg.failoverCooldown
    ensures var c := Call(cfg, AllFresh(|ids|), Works(o, Callback(s), ids), clock, [], |ids|);
      Indices(ids, c.tried) && !c.ok && CallReports(s, o, ids, c.tried, i) == if s.Reaches(i) then |ids| else 0
  {
    var W := Works(o, Callback(s), ids);
    ThrowingNeverWorks(s, o, ids);
    Runs.FreshIsUnused(cfg, |ids|, base);
    Runs.OneCallDuringOutage(cfg, AllFresh(|ids|), Runs.Script(W, clock), base, 0);
    ReportedPerAttempt(s, cfg, AllFresh(|ids|), o, ids, clock, i);
  }
}
