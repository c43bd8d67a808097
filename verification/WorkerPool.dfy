/**
 `_fetchErc20Balances`: a fixed number of workers share one cursor over the tokens.  A worker's
 code from one await to the next is one atomic action; runs are arbitrary action sequences.
 */
module WorkerPool {
  import opened Common
  import opened Text

  // ----- Choosing a token's address on the chain -----

  /** What the token table has of a token in one environment; a missing or empty field is `None`. */
  datatype Row = Row(chainId: int, env: Option<string>, address: Option<string>)

  /** The address whose balance is read.  `Throws`: the choice itself throws, outside any `try`. */
  datatype Choice = Usable(address: string) | Skipped | Throws

  const ZERO_ADDRESS := "0x0000000000000000000000000000000000000000"

  function OfRow(r: Row): Choice {
    if r.address.None? || r.address.value == "" || r.address.value == ZERO_ADDRESS then Skipped else Usable(r.address.value)
  }

  /** The first row of the chain itself. */
  function ByChain(rows: seq<Row>, chainId: int): Option<Row> {
    if rows == [] then None else if rows[0].chainId == chainId then Some(rows[0]) else ByChain(rows[1..], chainId)
  }

  predicate Fuji(chainName: string) { Contains(LowerCase(chainName), "fuji") }

  predicate Avalanche(chainName: string) { Contains(LowerCase(chainName), "avalanche") }

  /** Otherwise the first row whose environment goes with the chain's name; reading a missing environment throws. */
  function ByName(rows: seq<Row>, chainName: string): Choice {
    if rows == [] then Skipped else
    var r := rows[0];
    if (Fuji(chainName) || Avalanche(chainName)) && r.env.None? then Throws
    else if Fuji(chainName) && Contains(r.env.value, "fuji") then OfRow(r)
    else if Avalanche(chainName) && Contains(r.env.value, "prod") then OfRow(r)
    else ByName(rows[1..], chainName)
  }

  function Choose(rows: seq<Row>, chainId: int, chainName: string): Choice {
    match ByChain(rows, chainId)
    case Some(r) => OfRow(r)
    case None => ByName(rows, chainName)
  }

  /** The environment goes with the chain's name. */
  predicate Goes(r: Row, chainName: string) {
    && r.env.Some?
    && ((Fuji(chainName) && Contains(r.env.value, "fuji")) || (Avalanche(chainName) && Contains(r.env.value, "prod")))
  }

  lemma {:induction false} NameThrowsExactly(rows: seq<Row>, chainName: string)
    ensures ByName(rows, chainName).Throws? <==>
              && (Fuji(chainName) || Avalanche(chainName))
              && exists i :: 0 <= i < |rows| && rows[i].env.None? && forall k :: 0 <= k < i ==> !Goes(rows[k], chainName)
  {
    if rows != [] {
      NameThrowsExactly(rows[1..], chainName);
      if i :| 0 <= i < |rows| && rows[i].env.None? && forall k :: 0 <= k < i ==> !Goes(rows[k], chainName) {
        if i > 0 {
          assert rows[1..][i - 1].env.None? && forall k :: 0 <= k < i - 1 ==> rows[1..][k] == rows[k + 1];
        }
      }
      if i :| 0 <= i < |rows[1..]| && rows[1..][i].env.None? && forall k :: 0 <= k < i ==> !Goes(rows[1..][k], chainName) {
        if !Goes(rows[0], chainName) {
          forall k | 0 <= k < i + 1 ensures !Goes(rows[k], chainName) {
            if k > 0 { assert rows[k] == rows[1..][k - 1]; }
          }
          assert rows[i + 1].env.None?;
        }
      }
    }
  }

  lemma {:induction false} ByChainMeaning(rows: seq<Row>, chainId: int)
    ensures ByChain(rows, chainId).None? <==> forall r :: r in rows ==> r.chainId != chainId
  {
    if rows != [] { ByChainMeaning(rows[1..], chainId); }
  }

  /**
   The choice throws exactly when no row is of the chain, the chain's name is one that is looked up by
   environment, and a row without environment comes before every row that goes with the name.
   */
  lemma ChoiceThrowsExactly(rows: seq<Row>, chainId: int, chainName: string)
    ensures Choose(rows, chainId, chainName).Throws? <==>
              && (forall r :: r in rows ==> r.chainId != chainId) && (Fuji(chainName) || Avalanche(chainName))
              && exists i :: 0 <= i < |rows| && rows[i].env.None? && forall k :: 0 <= k < i ==> !Goes(rows[k], chainName)
  {
    ByChainMeaning(rows, chainId);
    NameThrowsExactly(rows, chainName);
  }

  /** `c` is what row `r` gives: its address, if there is one and it is not zero. */
  predicate TakenFrom(c: Choice, r: Row) {
    && !c.Throws?
    && (c.Usable? <==> r.address.Some? && r.address.value != "" && r.address.value != ZERO_ADDRESS)
    && (c.Usable? ==> r.address == Some(c.address))
  }

  /** Row `i` is the first of those with the property. */
  ghost predicate First(rows: seq<Row>, i: nat, p: Row -> bool) {
    i < |rows| && p(rows[i]) && forall k :: 0 <= k < i ==> !p(rows[k])
  }

  function OfChain(chainId: int): Row -> bool { (r: Row) => r.chainId == chainId }

  /** Rows at which the lookup by name ends: one that goes with the name, or one without environment. */
  function EndsLookup(chainName: string): Row -> bool {
    (r: Row) => (Fuji(chainName) || Avalanche(chainName)) && (r.env.None? || Goes(r, chainName))
  }

  lemma {:induction false} ByChainIsFirst(rows: seq<Row>, chainId: int, i: nat)
    requires First(rows, i, OfChain(chainId))
    ensures ByChain(rows, chainId) == Some(rows[i])
  {
    if i > 0 {
      assert forall k :: 0 <= k < i - 1 ==> rows[1..][k] == rows[k + 1];
      assert First(rows[1..], i - 1, OfChain(chainId));
      ByChainIsFirst(rows[1..], chainId, i - 1);
    }
  }

  lemma {:induction false} ByNameIsFirst(rows: seq<Row>, chainName: string, i: nat)
    requires First(rows, i, EndsLookup(chainName)) && rows[i].env.Some?
    ensures TakenFrom(ByName(rows, chainName), rows[i])
  {
    if i > 0 {
      assert !EndsLookup(chainName)(rows[0]);
      assert forall k :: 0 <= k < i - 1 ==> rows[1..][k] == rows[k + 1];
      assert First(rows[1..], i - 1, EndsLookup(chainName));
      ByNameIsFirst(rows[1..], chainName, i - 1);
    }
  }

  lemma {:induction false} ByNameSkips(rows: seq<Row>, chainName: string)
    requires forall r :: r in rows ==> !EndsLookup(chainName)(r)
    ensures ByName(rows, chainName).Skipped?
  {
    if rows != [] {
      assert rows[0] in rows;
      ByNameSkips(rows[1..], chainName);
    }
  }

  /**
   Which address is read: that of the first row of the chain; with none, that of the first row whose
   environment goes with the chain's name; with none of these either, none.
   */
  lemma AddressIsOfFirstRow(rows: seq<Row>, chainId: int, chainName: string)
    ensures forall i: nat :: First(rows, i, OfChain(chainId)) ==> TakenFrom(Choose(rows, chainId, chainName), rows[i])
    ensures (forall r :: r in rows ==> r.chainId != chainId) ==>
              && (forall i: nat :: First(rows, i, EndsLookup(chainName)) && rows[i].env.Some? ==>
                    TakenFrom(Choose(rows, chainId, chainName), rows[i]))
              && ((forall r :: r in rows ==> !EndsLookup(chainName)(r)) ==> Choose(rows, chainId, chainName).Skipped?)
  {
    ByChainMeaning(rows, chainId);
    forall i: nat | First(rows, i, OfChain(chainId)) ensures TakenFrom(Choose(rows, chainId, chainName), rows[i]) {
      ByChainIsFirst(rows, chainId, i);
    }
    forall i: nat | First(rows, i, EndsLookup(chainName)) && rows[i].env.Some?
      ensures TakenFrom(ByName(rows, chainName), rows[i])
    {
      ByNameIsFirst(rows, chainName, i);
    }
    if forall r :: r in rows ==> !EndsLookup(chainName)(r) { ByNameSkips(rows, chainName); }
  }

  // ----- The sweep -----

  /** `Crashed`: the choice of a token threw and the worker's promise is rejected. */
  datatype Worker = Unstarted | Reading(token: nat) | Finished | Crashed

  /** `balances` and `errors` list the tokens reported, in order of arrival. */
  datatype State = State(nextIndex: nat, workers: seq<Worker>, balances: seq<nat>, errors: seq<nat>)

  datatype Action = Start(w: nat) | Answer(w: nat, ok: bool)

  function Max(x: int, y: int): int { if x >= y then x else y }

  function Init(concurrency: int): State {
    State(0, seq(Max(1, concurrency), _ => Unstarted), [], [])
  }

  /** The worker's state at its next await, and the cursor then; `choices` are those of the tokens. */
  function Claim(choices: seq<Choice>, nextIndex: nat): (Worker, nat)
    decreases |choices| - nextIndex
  {
    if nextIndex >= |choices| then (Finished, nextIndex) else
    match choices[nextIndex]
    case Usable(_) => (Reading(nextIndex), nextIndex + 1)
    case Throws => (Crashed, nextIndex + 1)
    case Skipped => Claim(choices, nextIndex + 1)
  }

  function Continue(choices: seq<Choice>, s: State, w: nat): State
    requires w < |s.workers|
  {
    var (x, next) := Claim(choices, s.nextIndex);
    s.(nextIndex := next, workers := s.workers[w := x])
  }

  predicate Enabled(s: State, a: Action) {
    match a
    case Start(w) => w < |s.workers| && s.workers[w].Unstarted?
    case Answer(w, _) => w < |s.workers| && s.workers[w].Reading?
  }

  function Step(choices: seq<Choice>, s: State, a: Action): State {
    if !Enabled(s, a) then s else
    match a
    case Start(w) => Continue(choices, s, w)
    case Answer(w, ok) =>
      var i := s.workers[w].token;
      Continue(choices, if ok then s.(balances := s.balances + [i]) else s.(errors := s.errors + [i]), w)
  }

  function Run(choices: seq<Choice>, s: State, acts: seq<Action>): State
    decreases acts
  {
    if acts == [] then s else Run(choices, Step(choices, s, acts[0]), acts[1..])
  }

  /** `Promise.all` has nothing left to wait for; it rejects if a worker has. */
  predicate Idle(s: State) { forall w :: 0 <= w < |s.workers| ==> s.workers[w].Finished? || s.workers[w].Crashed? }

  predicate Rejects(s: State) { exists w :: 0 <= w < |s.workers| && s.workers[w].Crashed? }

  // ----- Exactly once -----

  /** How many workers are reading token `i`, and how many have crashed. */
  function Reads(ws: seq<Worker>, i: nat): nat {
    if ws == [] then 0 else Reads(ws[..|ws| - 1], i) + (if ws[|ws| - 1] == Reading(i) then 1 else 0)
  }

  function Crashes(ws: seq<Worker>): nat {
    if ws == [] then 0 else Crashes(ws[..|ws| - 1]) + (if ws[|ws| - 1].Crashed? then 1 else 0)
  }

  /** How often token `i` is reported. */
  function Reports(s: State, i: nat): nat { multiset(s.balances)[i] + multiset(s.errors)[i] }

  function Due(choices: seq<Choice>, n: nat, i: nat): nat {
    if i < n && i < |choices| && choices[i].Usable? then 1 else 0
  }

  function ThrowsBefore(choices: seq<Choice>, n: nat): nat
    requires n <= |choices|
  {
    if n == 0 then 0 else ThrowsBefore(choices, n - 1) + (if choices[n - 1].Throws? then 1 else 0)
  }

  /**
   Every usable token before the cursor is being read or reported, once; every throwing one has crashed
   one worker, and a worker was left to claim whatever is before the cursor; who has finished saw the
   end.
   */
  ghost predicate Inv(choices: seq<Choice>, s: State) {
    && s.nextIndex <= |choices|
    && (forall i: nat :: Reports(s, i) + Reads(s.workers, i) == Due(choices, s.nextIndex, i))
    && Crashes(s.workers) == ThrowsBefore(choices, s.nextIndex)
    && (forall i :: 0 <= i < s.nextIndex ==> ThrowsBefore(choices, i) < |s.workers|)
    && (forall w :: 0 <= w < |s.workers| && s.workers[w].Finished? ==> s.nextIndex == |choices|)
  }

  lemma {:induction false} ClaimEffect(choices: seq<Choice>, nextIndex: nat, i: nat)
    requires nextIndex <= |choices|
    ensures var (x, next) := Claim(choices, nextIndex);
      && nextIndex <= next <= |choices| && (x.Finished? ==> next == |choices|) && !x.Unstarted?
      && Due(choices, next, i) == Due(choices, nextIndex, i) + (if x == Reading(i) then 1 else 0)
      && ThrowsBefore(choices, next) == ThrowsBefore(choices, nextIndex) + (if x.Crashed? then 1 else 0)
      && (!x.Finished? ==> nextIndex < next)
      && (forall k :: nextIndex <= k < next ==> ThrowsBefore(choices, k) == ThrowsBefore(choices, nextIndex))
    decreases |choices| - nextIndex
  {
    if nextIndex < |choices| && choices[nextIndex].Skipped? { ClaimEffect(choices, nextIndex + 1, i); }
  }

  lemma {:induction false} ReadsUpdate(ws: seq<Worker>, w: nat, x: Worker, i: nat)
    requires w < |ws|
    ensures Reads(ws[w := x], i) + (if ws[w] == Reading(i) then 1 else 0)
            == Reads(ws, i) + (if x == Reading(i) then 1 else 0)
    decreases ws
  {
    var n := |ws| - 1;
    if w < n {
      ReadsUpdate(ws[..n], w, x, i);
      assert ws[w := x][..n] == ws[..n][w := x];
    } else {
      assert ws[w := x][..n] == ws[..n];
    }
  }

  lemma {:induction false} CrashesUpdate(ws: seq<Worker>, w: nat, x: Worker)
    requires w < |ws|
    ensures Crashes(ws[w := x]) + (if ws[w].Crashed? then 1 else 0) == Crashes(ws) + (if x.Crashed? then 1 else 0)
    decreases ws
  {
    var n := |ws| - 1;
    if w < n {
      CrashesUpdate(ws[..n], w, x);
      assert ws[w := x][..n] == ws[..n][w := x];
    } else {
      assert ws[w := x][..n] == ws[..n];
    }
  }

  lemma {:induction false} CrashesBound(ws: seq<Worker>, w: nat)
    requires w < |ws| && !ws[w].Crashed?
    ensures Crashes(ws) < |ws|
    decreases ws
  {
    var n := |ws| - 1;
    if w < n { CrashesBound(ws[..n], w); } else { AllCrashesBound(ws[..n]); }
  }

  lemma {:induction false} AllCrashesBound(ws: seq<Worker>)
    ensures Crashes(ws) <= |ws|
    ensures (forall w :: 0 <= w < |ws| ==> ws[w].Crashed?) ==> Crashes(ws) == |ws|
  {
    if ws != [] { AllCrashesBound(ws[..|ws| - 1]); }
  }

  /** A worker goes on, its own read, if any, being accounted for elsewhere. */
  lemma {:induction false} ContinueKeepsInv(choices: seq<Choice>, s: State, w: nat)
    requires w < |s.workers| && s.nextIndex <= |choices| && !s.workers[w].Crashed?
    requires forall i: nat :: Reports(s, i) + Reads(s.workers, i)
                              == Due(choices, s.nextIndex, i) + (if s.workers[w] == Reading(i) then 1 else 0)
    requires Crashes(s.workers) == ThrowsBefore(choices, s.nextIndex)
    requires forall i :: 0 <= i < s.nextIndex ==> ThrowsBefore(choices, i) < |s.workers|
    requires forall v :: 0 <= v < |s.workers| && s.workers[v].Finished? ==> s.nextIndex == |choices|
    ensures Inv(choices, Continue(choices, s, w))
  {
    var s' := Continue(choices, s, w);
    ClaimEffect(choices, s.nextIndex, 0);
    CrashesUpdate(s.workers, w, s'.workers[w]);
    CrashesBound(s.workers, w);
    forall i: nat ensures Reports(s', i) + Reads(s'.workers, i) == Due(choices, s'.nextIndex, i) {
      ClaimEffect(choices, s.nextIndex, i);
      ReadsUpdate(s.workers, w, s'.workers[w], i);
      assert Reports(s', i) == Reports(s, i);
    }
  }

  lemma StepKeepsInv(choices: seq<Choice>, s: State, a: Action)
    requires Inv(choices, s)
    ensures Inv(choices, Step(choices, s, a)) && |Step(choices, s, a).workers| == |s.workers|
  {
    if Enabled(s, a) {
      match a
      case Start(w) => ContinueKeepsInv(choices, s, w);
      case Answer(w, ok) =>
        var token := s.workers[w].token;
        var s1 := if ok then s.(balances := s.balances + [token]) else s.(errors := s.errors + [token]);
        assert forall i: nat :: Reports(s1, i) == Reports(s, i) + (if i == token then 1 else 0);
        ContinueKeepsInv(choices, s1, w);
    }
  }

  lemma {:induction false} RunKeepsInv(choices: seq<Choice>, s: State, acts: seq<Action>)
    requires Inv(choices, s)
    ensures Inv(choices, Run(choices, s, acts)) && |Run(choices, s, acts).workers| == |s.workers|
    decreases acts
  {
    if acts != [] {
      StepKeepsInv(choices, s, acts[0]);
      RunKeepsInv(choices, Step(choices, s, acts[0]), acts[1..]);
    }
  }

  lemma {:induction false} NoReads(ws: seq<Worker>, i: nat)
    requires forall w :: 0 <= w < |ws| ==> !ws[w].Reading?
    ensures Reads(ws, i) == 0
    decreases ws
  {
    if ws != [] { NoReads(ws[..|ws| - 1], i); }
  }

  lemma {:induction false} SomeCrash(ws: seq<Worker>)
    ensures Crashes(ws) > 0 <==> exists w :: 0 <= w < |ws| && ws[w].Crashed?
    decreases ws
  {
    if ws != [] {
      var init, last := ws[..|ws| - 1], ws[|ws| - 1];
      SomeCrash(init);
      assert ws == init + [last];
    }
  }

  lemma {:induction false} SomeThrow(choices: seq<Choice>, n: nat)
    requires n <= |choices|
    ensures ThrowsBefore(choices, n) > 0 <==> exists i :: 0 <= i < n && choices[i].Throws?
  {
    if n > 0 { SomeThrow(choices, n - 1); }
  }

  lemma InitInv(choices: seq<Choice>, concurrency: int)
    ensures Inv(choices, Init(concurrency))
  {
    var ws := Init(concurrency).workers;
    forall i: nat ensures Reads(ws, i) == 0 { NoReads(ws, i); }
    SomeCrash(ws);
  }

  /**
   In every interleaving of any number of workers no token is claimed twice: it is being read or
   has been reported at most once, and only if it has a usable address.
   */
  lemma {:induction false} ClaimedAtMostOnce(choices: seq<Choice>, concurrency: int, acts: seq<Action>, i: nat)
    ensures var s := Run(choices, Init(concurrency), acts);
      Reports(s, i) + Reads(s.workers, i) <= (if i < |choices| && choices[i].Usable? then 1 else 0)
  {
    InitInv(choices, concurrency);
    RunKeepsInv(choices, Init(concurrency), acts);
    var s := Run(choices, Init(concurrency), acts);
    assert Reports(s, i) + Reads(s.workers, i) == Due(choices, s.nextIndex, i);
  }

  function InFlight(ws: seq<Worker>): nat {
    if ws == [] then 0 else InFlight(ws[..|ws| - 1]) + (if ws[|ws| - 1].Reading? then 1 else 0)
  }

  lemma {:induction false} InFlightBound(ws: seq<Worker>)
    ensures InFlight(ws) <= |ws|
  {
    if ws != [] { InFlightBound(ws[..|ws| - 1]); }
  }

  /** There are never more reads in flight than the configured concurrency, or one. */
  lemma {:induction false} AtMostConcurrencyReads(choices: seq<Choice>, concurrency: int, acts: seq<Action>)
    ensures InFlight(Run(choices, Init(concurrency), acts).workers) <= Max(1, concurrency)
  {
    InitInv(choices, concurrency);
    RunKeepsInv(choices, Init(concurrency), acts);
    InFlightBound(Run(choices, Init(concurrency), acts).workers);
  }

  /** When no worker has anything left to do, the sweep rejects exactly if the choice of some token throws. */
  lemma {:induction false} RejectsExactly(choices: seq<Choice>, concurrency: int, acts: seq<Action>)
    requires Idle(Run(choices, Init(concurrency), acts))
    ensures Rejects(Run(choices, Init(concurrency), acts)) <==> exists i :: 0 <= i < |choices| && choices[i].Throws?
  {
    InitInv(choices, concurrency);
    RunKeepsInv(choices, Init(concurrency), acts);
    var s := Run(choices, Init(concurrency), acts);
    SomeCrash(s.workers);
    SomeThrow(choices, s.nextIndex);
    assert s.workers[0].Finished? || s.workers[0].Crashed?;
  }

  /** A worker is left for token `i`: fewer throw before it than there are workers. */
  predicate Reached(choices: seq<Choice>, concurrency: int, i: nat) {
    i < |choices| && choices[i].Usable? && ThrowsBefore(choices, i) < Max(1, concurrency)
  }

  lemma {:induction false} ThrowsGrow(choices: seq<Choice>, m: nat, n: nat)
    requires m <= n <= |choices|
    ensures ThrowsBefore(choices, m) <= ThrowsBefore(choices, n)
    decreases n
  {
    if m < n { ThrowsGrow(choices, m, n - 1); }
  }

  /**
   When no worker has anything left to do, a token has been reported exactly once if it is usable and
   fewer choices throw before it than there are workers, and not at all otherwise.
   */
  lemma {:induction false} ReportedExactly(choices: seq<Choice>, concurrency: int, acts: seq<Action>, i: nat)
    requires Idle(Run(choices, Init(concurrency), acts))
    ensures Reports(Run(choices, Init(concurrency), acts), i) == if Reached(choices, concurrency, i) then 1 else 0
  {
    InitInv(choices, concurrency);
    RunKeepsInv(choices, Init(concurrency), acts);
    var s := Run(choices, Init(concurrency), acts);
    NoReads(s.workers, i);
    assert Reports(s, i) + Reads(s.workers, i) == Due(choices, s.nextIndex, i);
    if s.nextIndex <= i < |choices| {
      assert forall w :: 0 <= w < |s.workers| ==> s.workers[w].Crashed?;
      AllCrashesBound(s.workers);
      ThrowsGrow(choices, s.nextIndex, i);
    }
  }

  lemma {:induction false} FewThrows(choices: seq<Choice>, i: nat)
    requires i <= |choices| && forall k :: 0 <= k < i ==> !choices[k].Throws?
    ensures ThrowsBefore(choices, i) == 0
  {
    if i > 0 { FewThrows(choices, i - 1); }
  }

  /** So if no choice throws, every usable token is reported, each exactly once. */
  lemma {:induction false} AllReportedOnce(choices: seq<Choice>, concurrency: int, acts: seq<Action>, i: nat)
    requires Idle(Run(choices, Init(concurrency), acts)) && forall k :: 0 <= k < |choices| ==> !choices[k].Throws?
    ensures var s := Run(choices, Init(concurrency), acts);
      multiset(s.balances)[i] + multiset(s.errors)[i] == if i < |choices| && choices[i].Usable? then 1 else 0
  {
    ReportedExactly(choices, concurrency, acts, i);
    if i < |choices| { FewThrows(choices, i); }
  }

  /**
   And all usable tokens are reported whatever throws exactly if none of them has as many throwing
   choices before it as there are workers.
   */
  lemma {:induction false} NoneLostExactly(choices: seq<Choice>, concurrency: int, acts: seq<Action>)
    requires Idle(Run(choices, Init(concurrency), acts))
    ensures (forall i :: 0 <= i < |choices| && choices[i].Usable? ==> Reports(Run(choices, Init(concurrency), acts), i) == 1)
            <==> forall i :: 0 <= i < |choices| && choices[i].Usable? ==> ThrowsBefore(choices, i) < Max(1, concurrency)
  {
    forall i | 0 <= i < |choices| && choices[i].Usable?
      ensures Reports(Run(choices, Init(concurrency), acts), i) == 1 <==> ThrowsBefore(choices, i) < Max(1, concurrency)
    {
      ReportedExactly(choices, concurrency, acts, i);
    }
  }

  /** `good(i)` tells whether reading token `i` succeeds; every answer of the run is that of its token. */
  ghost predicate Truthful(choices: seq<Choice>, s: State, acts: seq<Action>, good: nat -> bool)
    decreases acts
  {
    acts != [] ==>
      && (acts[0].Answer? && Enabled(s, acts[0]) ==> acts[0].ok == good(s.workers[acts[0].w].token))
      && Truthful(choices, Step(choices, s, acts[0]), acts[1..], good)
  }

  ghost predicate Sorted(s: State, good: nat -> bool) {
    && (forall i :: i in s.balances ==> good(i))
    && (forall i :: i in s.errors ==> !good(i))
  }

  lemma {:induction false} RunKeepsSorted(choices: seq<Choice>, s: State, acts: seq<Action>, good: nat -> bool)
    requires Truthful(choices, s, acts, good) && Sorted(s, good)
    ensures Sorted(Run(choices, s, acts), good)
    decreases acts
  {
    if acts != [] { RunKeepsSorted(choices, Step(choices, s, acts[0]), acts[1..], good); }
  }

  /**
   So the outcome does not depend on the interleaving: each token that a worker is left for is reported
   once, as a balance if its read succeeds and as an error if it does not.  It depends on the number of
   workers exactly in so far as they run out.
   */
  lemma {:induction false} OutcomeFixed(choices: seq<Choice>, concurrency: int, acts: seq<Action>, good: nat -> bool, i: nat)
    requires Truthful(choices, Init(concurrency), acts, good) && Idle(Run(choices, Init(concurrency), acts))
    ensures var s := Run(choices, Init(concurrency), acts);
      && multiset(s.balances)[i] == (if Reached(choices, concurrency, i) && good(i) then 1 else 0)
      && multiset(s.errors)[i] == (if Reached(choices, concurrency, i) && !good(i) then 1 else 0)
  {
    var s := Run(choices, Init(concurrency), acts);
    ReportedExactly(choices, concurrency, acts, i);
    RunKeepsSorted(choices, Init(concurrency), acts, good);
    assert i in multiset(s.balances) ==> i in s.balances;
    assert i in multiset(s.errors) ==> i in s.errors;
  }

  // ----- The sweep ends -----

  function Unclaimed(choices: seq<Choice>, s: State): nat {
    if s.nextIndex <= |choices| then |choices| - s.nextIndex else 0
  }

  function Busy(ws: seq<Worker>): nat {
    if ws == [] then 0
    else Busy(ws[..|ws| - 1]) + (if ws[|ws| - 1].Finished? || ws[|ws| - 1].Crashed? then 0 else 1)
  }

  lemma {:induction false} BusyUpdate(ws: seq<Worker>, w: nat, x: Worker)
    requires w < |ws|
    ensures Busy(ws[w := x]) + (if ws[w].Finished? || ws[w].Crashed? then 0 else 1)
            == Busy(ws) + (if x.Finished? || x.Crashed? then 0 else 1)
    decreases ws
  {
    var n := |ws| - 1;
    if w < n {
      BusyUpdate(ws[..n], w, x);
      assert ws[w := x][..n] == ws[..n][w := x];
    } else {
      assert ws[w := x][..n] == ws[..n];
    }
  }

  lemma {:induction false} BusyBound(ws: seq<Worker>)
    ensures Busy(ws) <= |ws|
  {
    if ws != [] { BusyBound(ws[..|ws| - 1]); }
  }

  function Budget(choices: seq<Choice>, s: State): nat { Unclaimed(choices, s) + Busy(s.workers) }

  lemma StepSpends(choices: seq<Choice>, s: State, a: Action)
    requires Inv(choices, s) && Enabled(s, a)
    ensures Budget(choices, Step(choices, s, a)) < Budget(choices, s)
  {
    var w := match a case Start(w) => w case Answer(w, _) => w;
    ClaimEffect(choices, s.nextIndex, 0);
    BusyUpdate(s.workers, w, Step(choices, s, a).workers[w]);
  }

  /** Every action is a worker's start or the answer to its read. */
  ghost predicate Working(choices: seq<Choice>, s: State, acts: seq<Action>)
    decreases acts
  {
    acts != [] ==> Enabled(s, acts[0]) && Working(choices, Step(choices, s, acts[0]), acts[1..])
  }

  lemma {:induction false} RunSpends(choices: seq<Choice>, s: State, acts: seq<Action>)
    requires Inv(choices, s) && Working(choices, s, acts)
    ensures |acts| + Budget(choices, Run(choices, s, acts)) <= Budget(choices, s)
    decreases acts
  {
    if acts != [] {
      StepSpends(choices, s, acts[0]);
      StepKeepsInv(choices, s, acts[0]);
      RunSpends(choices, Step(choices, s, acts[0]), acts[1..]);
    }
  }

  /**
   The sweep always completes: whatever the interleaving and however the reads end, it takes at most one
   action for each worker and each token, and where no action is left the workers are done.
   */
  lemma {:induction false} SweepTerminates(choices: seq<Choice>, concurrency: int, acts: seq<Action>)
    requires Working(choices, Init(concurrency), acts)
    ensures |acts| <= |choices| + Max(1, concurrency)
    ensures (forall a :: !Enabled(Run(choices, Init(concurrency), acts), a)) ==> Idle(Run(choices, Init(concurrency), acts))
  {
    InitInv(choices, concurrency);
    RunSpends(choices, Init(concurrency), acts);
    BusyBound(Init(concurrency).workers);
    var s := Run(choices, Init(concurrency), acts);
    if forall a :: !Enabled(s, a) {
      forall w | 0 <= w < |s.workers| ensures s.workers[w].Finished? || s.workers[w].Crashed? {
        assert !Enabled(s, Start(w)) && !Enabled(s, Answer(w, true));
      }
    }
  }

  // ----- The class -----

  class Sweep {
    const choices: seq<Choice>
    var nextIndex: nat
    var workers: seq<Worker>
    var balances: seq<nat>
    var errors: seq<nat>

    ghost function Abs(): State
      reads this
    {
      State(nextIndex, workers, balances, errors)
    }

    constructor (choices: seq<Choice>, concurrency: int)
      ensures this.choices == choices && Abs() == Init(concurrency)
    {
      this.choices := choices;
      nextIndex := 0;
      workers := seq(Max(1, concurrency), _ => Unstarted);
      balances, errors := [], [];
    }

    /** The worker's loop up to its next await, or to the choice that throws. */
    method Loop(w: nat)
      requires w < |workers|
      modifies this`nextIndex, this`workers
      ensures Abs() == Continue(choices, old(Abs()), w)
    {
      while nextIndex < |choices|
        invariant Claim(choices, nextIndex) == Claim(choices, old(nextIndex))
        invariant workers == old(workers)
        decreases |choices| - nextIndex
      {
        var current := nextIndex;
        nextIndex := nextIndex + 1;
        match choices[current] {
          case Usable(_) =>
            workers := workers[w := Reading(current)];
            return;
          case Throws =>
            workers := workers[w := Crashed];
            return;
          case Skipped =>
        }
      }
      workers := workers[w := Finished];
    }

    method Begin(w: nat)
      requires Enabled(Abs(), Start(w))
      modifies this
      ensures Abs() == Step(choices, old(Abs()), Start(w))
    {
      Loop(w);
    }

    /** The balance read of worker `w` has answered or thrown. */
    method Answered(w: nat, ok: bool)
      requires Enabled(Abs(), Answer(w, ok))
      modifies this
      ensures Abs() == Step(choices, old(Abs()), Answer(w, ok))
    {
      var token := workers[w].token;
      if ok {
        balances := balances + [token];
      } else {
        errors := errors + [token];
      }
      Loop(w);
    }
  }
}
