/**
 Per-(chain, address) nonce sequencing.  A call of `getNonce` or `resetNonce` is a ticket;
 the promise chain of `acquireLock` is the `prev` link of each ticket, and the code between
 two awaits is one atomic action.  Runs are arbitrary sequences of actions: an action that
 is not enabled leaves the state alone, so a lemma about every action sequence speaks of
 every interleaving.
 */
module NonceManager {
  import opened Common
  import opened Text

  type Key = string

  datatype Op = Get | Reset

  /** What the caller of a completed ticket observes. */
  datatype Outcome = Issued(nonce: int) | WasReset | ReadFailed

  /** Waiting for the previous tail, holding the lock, reading the chain, lock released. */
  datatype Phase = Waiting | Granted | Reading | Released(outcome: Outcome)

  datatype Ticket = Ticket(key: Key, op: Op, prev: Option<nat>, phase: Phase)

  datatype State = State(nonces: map<Key, int>, locks: map<Key, nat>, tickets: seq<Ticket>)

  datatype Action =
    | Acquire(key: Key, op: Op)
    | Grant(t: nat)
    | Enter(t: nat)
    | ReadOk(t: nat, count: int)
    | ReadThrows(t: nat)
    | Clear(key: Key)
    | ClearAll

  const INIT := State(map[], map[], [])

  predicate Holding(p: Phase) { p.Granted? || p.Reading? }

  predicate Enabled(s: State, a: Action) {
    match a
    case Acquire(_, _) => true
    case Grant(t) =>
      t < |s.tickets| && s.tickets[t].phase.Waiting? &&
      (s.tickets[t].prev.Some? ==>
         s.tickets[t].prev.value < |s.tickets| && s.tickets[s.tickets[t].prev.value].phase.Released?)
    case Enter(t) => t < |s.tickets| && s.tickets[t].phase.Granted?
    case ReadOk(t, _) => t < |s.tickets| && s.tickets[t].phase.Reading?
    case ReadThrows(t) => t < |s.tickets| && s.tickets[t].phase.Reading?
    case Clear(_) => true
    case ClearAll => true
  }

  function SetPhase(s: State, t: nat, p: Phase): State
    requires t < |s.tickets|
  {
    s.(tickets := s.tickets[t := s.tickets[t].(phase := p)])
  }

  /** `release()`: resolve the ticket's promise and drop the map entry only if still the tail. */
  function Release(s: State, t: nat, o: Outcome): State
    requires t < |s.tickets|
  {
    var key := s.tickets[t].key;
    SetPhase(s, t, Released(o)).(locks := if Lookup(s.locks, key) == Some(t) then s.locks - {key} else s.locks)
  }

  function AcquireStep(s: State, key: Key, op: Op): State {
    s.(locks := s.locks[key := |s.tickets|],
       tickets := s.tickets + [Ticket(key, op, Lookup(s.locks, key), Waiting)])
  }

  /** Store a nonce, then run the `finally` block. */
  function WriteStep(s: State, t: nat, nonce: int, o: Outcome): State
    requires t < |s.tickets|
  {
    Release(s.(nonces := s.nonces[s.tickets[t].key := nonce]), t, o)
  }

  /** From the lock grant to the next await: hand out the cached nonce plus one, or read the chain. */
  function EnterStep(s: State, t: nat): State
    requires t < |s.tickets|
  {
    var key := s.tickets[t].key;
    if s.tickets[t].op.Get? && key in s.nonces then
      WriteStep(s, t, s.nonces[key] + 1, Issued(s.nonces[key] + 1))
    else
      SetPhase(s, t, Reading)
  }

  function ReadOkStep(s: State, t: nat, count: int): State
    requires t < |s.tickets|
  {
    if s.tickets[t].op.Get? then
      WriteStep(s, t, count, Issued(count))
    else
      WriteStep(s, t, count - 1, WasReset)
  }

  function Step(s: State, a: Action): State {
    if !Enabled(s, a) then s else
    match a
    case Acquire(key, op) => AcquireStep(s, key, op)
    case Grant(t) => SetPhase(s, t, Granted)
    case Enter(t) => EnterStep(s, t)
    case ReadOk(t, count) => ReadOkStep(s, t, count)
    case ReadThrows(t) => Release(s, t, ReadFailed)
    case Clear(key) => s.(nonces := s.nonces - {key})
    case ClearAll => s.(nonces := map[])
  }

  function Run(s: State, acts: seq<Action>): State
    decreases acts
  {
    if acts == [] then s else Run(Step(s, acts[0]), acts[1..])
  }

  // ----- The lock -----

  /** A ticket's `prev` is the closest earlier ticket of its key. */
  ghost predicate Links(ts: seq<Ticket>) {
    forall t :: 0 <= t < |ts| && ts[t].prev.Some? ==> LinkOk(ts, t)
  }

  ghost predicate LinkOk(ts: seq<Ticket>, t: nat)
    requires t < |ts| && ts[t].prev.Some?
  {
    var p := ts[t].prev.value;
    p < t && ts[p].key == ts[t].key && forall u :: p < u < t ==> ts[u].key != ts[t].key
  }

  /** Every earlier ticket of `t`'s key has released the lock. */
  ghost predicate Turn(ts: seq<Ticket>, t: nat)
    requires t < |ts|
  {
    forall u :: 0 <= u < t && ts[u].key == ts[t].key ==> ts[u].phase.Released?
  }

  /** A ticket is past waiting, or waits for nobody, only when its turn has come. */
  ghost predicate Fifo(ts: seq<Ticket>) {
    forall t :: 0 <= t < |ts| && (!ts[t].phase.Waiting? || ts[t].prev.None?) ==> Turn(ts, t)
  }

  /** `locks[k]` is the newest ticket of `k` and is present exactly while one is unreleased. */
  ghost predicate Tails(locks: map<Key, nat>, ts: seq<Ticket>) {
    && (forall k :: k in locks ==> locks[k] < |ts| && ts[locks[k]].key == k && !ts[locks[k]].phase.Released?)
    && (forall t :: 0 <= t < |ts| && ts[t].key in locks ==> t <= locks[ts[t].key])
    && (forall t :: 0 <= t < |ts| && !ts[t].phase.Released? ==> ts[t].key in locks)
  }

  /** While a `getNonce` reads the chain nobody has cached a nonce for its key. */
  ghost predicate ReadersFresh(s: State) {
    forall t :: 0 <= t < |s.tickets| && s.tickets[t].phase.Reading? && s.tickets[t].op.Get? ==>
      s.tickets[t].key !in s.nonces
  }

  /** What every reachable state satisfies. */
  ghost predicate Inv(s: State) {
    Links(s.tickets) && Fifo(s.tickets) && Tails(s.locks, s.tickets) && ReadersFresh(s)
  }

  lemma AcquireKeepsInv(s: State, key: Key, op: Op)
    requires Inv(s)
    ensures Inv(AcquireStep(s, key, op))
  {
    var s' := AcquireStep(s, key, op);
    var n := |s.tickets|;
    forall t | 0 <= t < n + 1 && s'.tickets[t].prev.Some? ensures LinkOk(s'.tickets, t) {
      if t < n { assert LinkOk(s.tickets, t); }
    }
    forall t | 0 <= t < n + 1 && (!s'.tickets[t].phase.Waiting? || s'.tickets[t].prev.None?)
      ensures Turn(s'.tickets, t)
    {
      if t < n { assert Turn(s.tickets, t); }
    }
  }

  /** A phase change of a ticket whose turn has come, never undoing a release. */
  lemma SetPhaseKeepsOrder(s: State, t: nat, p: Phase)
    requires Links(s.tickets) && Fifo(s.tickets)
    requires t < |s.tickets| && Turn(s.tickets, t) && !s.tickets[t].phase.Released? && !p.Waiting?
    ensures Links(SetPhase(s, t, p).tickets) && Fifo(SetPhase(s, t, p).tickets)
  {
    var ts' := SetPhase(s, t, p).tickets;
    forall u | 0 <= u < |ts'| && ts'[u].prev.Some? ensures LinkOk(ts', u) {
      assert LinkOk(s.tickets, u);
    }
    forall u | 0 <= u < |ts'| && (!ts'[u].phase.Waiting? || ts'[u].prev.None?) ensures Turn(ts', u) {
      assert Turn(s.tickets, u);
    }
  }

  /** The promise a waiting ticket awaits is settled only once its turn has come. */
  lemma GrantIsTurn(s: State, t: nat)
    requires Inv(s) && Enabled(s, Grant(t))
    ensures Turn(s.tickets, t)
  {
    if s.tickets[t].prev.Some? {
      assert LinkOk(s.tickets, t);
      assert Turn(s.tickets, s.tickets[t].prev.value);
    }
  }

  lemma OnlyHolder(s: State, t: nat, u: nat)
    requires Fifo(s.tickets) && t < |s.tickets| && u < |s.tickets| && s.tickets[t].key == s.tickets[u].key
    requires Holding(s.tickets[t].phase) && Holding(s.tickets[u].phase)
    ensures t == u
  {
    assert Turn(s.tickets, t) && Turn(s.tickets, u);
  }

  lemma ReleaseKeepsTails(s: State, t: nat, o: Outcome)
    requires Tails(s.locks, s.tickets) && t < |s.tickets| && Holding(s.tickets[t].phase) && Turn(s.tickets, t)
    ensures Tails(Release(s, t, o).locks, Release(s, t, o).tickets)
  {}

  lemma ReleaseKeepsReaders(s: State, s1: State, t: nat, o: Outcome)
    requires Fifo(s.tickets) && ReadersFresh(s) && t < |s.tickets| && Holding(s.tickets[t].phase)
    requires s1.tickets == s.tickets && s1.nonces.Keys <= s.nonces.Keys + {s.tickets[t].key}
    ensures ReadersFresh(Release(s1, t, o))
  {
    var s' := Release(s1, t, o);
    forall u | 0 <= u < |s'.tickets| && s'.tickets[u].phase.Reading? && s'.tickets[u].op.Get?
      ensures s'.tickets[u].key !in s'.nonces
    {
      if s.tickets[u].key == s.tickets[t].key { OnlyHolder(s, t, u); }
    }
  }

  lemma ReleaseKeepsInv(s: State, s1: State, t: nat, o: Outcome)
    requires Inv(s) && t < |s.tickets| && Holding(s.tickets[t].phase)
    requires s1.tickets == s.tickets && s1.locks == s.locks
    requires s1.nonces.Keys <= s.nonces.Keys + {s.tickets[t].key}
    ensures Inv(Release(s1, t, o))
  {
    assert Turn(s.tickets, t);
    SetPhaseKeepsOrder(s1, t, Released(o));
    ReleaseKeepsTails(s1, t, o);
    ReleaseKeepsReaders(s, s1, t, o);
  }

  lemma HoldKeepsInv(s: State, t: nat, p: Phase)
    requires Inv(s) && t < |s.tickets| && Turn(s.tickets, t) && !s.tickets[t].phase.Released? && Holding(p)
    requires p.Reading? && s.tickets[t].op.Get? ==> s.tickets[t].key !in s.nonces
    ensures Inv(SetPhase(s, t, p))
  {
    SetPhaseKeepsOrder(s, t, p);
  }

  lemma WriteKeepsInv(s: State, t: nat, nonce: int, o: Outcome)
    requires Inv(s) && t < |s.tickets| && Holding(s.tickets[t].phase)
    ensures Inv(WriteStep(s, t, nonce, o))
  {
    ReleaseKeepsInv(s, s.(nonces := s.nonces[s.tickets[t].key := nonce]), t, o);
  }

  lemma ForgetKeepsInv(s: State, nonces: map<Key, int>)
    requires Inv(s) && nonces.Keys <= s.nonces.Keys
    ensures Inv(s.(nonces := nonces))
  {}

  lemma SameStateKeepsInv(s: State, s': State)
    requires Inv(s) && s' == s
    ensures Inv(s')
  {}

  lemma ServeIsWrite(s: State, t: nat, nonce: int)
    requires t < |s.tickets| && s.tickets[t].op.Get? && s.tickets[t].key in s.nonces
    requires nonce == s.nonces[s.tickets[t].key] + 1
    ensures EnterStep(s, t) == WriteStep(s, t, nonce, Issued(nonce))
  {}

  lemma ServeKeepsInv(s: State, t: nat)
    requires Inv(s) && t < |s.tickets| && Holding(s.tickets[t].phase)
    requires s.tickets[t].op.Get? && s.tickets[t].key in s.nonces
    ensures Inv(EnterStep(s, t))
  {
    var nonce := s.nonces[s.tickets[t].key] + 1;
    ServeIsWrite(s, t, nonce);
    WriteKeepsInv(s, t, nonce, Issued(nonce));
    SameStateKeepsInv(WriteStep(s, t, nonce, Issued(nonce)), EnterStep(s, t));
  }

  lemma AskKeepsInv(s: State, t: nat)
    requires Inv(s) && t < |s.tickets| && s.tickets[t].phase.Granted?
    requires s.tickets[t].op.Get? ==> s.tickets[t].key !in s.nonces
    ensures Inv(EnterStep(s, t))
  {
    assert Turn(s.tickets, t);
    HoldKeepsInv(s, t, Reading);
  }

  lemma EnterKeepsInv(s: State, t: nat)
    requires Inv(s) && t < |s.tickets| && s.tickets[t].phase.Granted?
    ensures Inv(EnterStep(s, t))
  {
    if s.tickets[t].op.Get? && s.tickets[t].key in s.nonces { ServeKeepsInv(s, t); } else { AskKeepsInv(s, t); }
  }

  lemma StepKeepsInv(s: State, a: Action)
    requires Inv(s)
    ensures Inv(Step(s, a))
  {
    if Enabled(s, a) {
      match a
      case Acquire(key, op) => AcquireKeepsInv(s, key, op);
      case Grant(t) => GrantIsTurn(s, t); HoldKeepsInv(s, t, Granted);
      case Enter(t) => EnterKeepsInv(s, t);
      case ReadOk(t, count) =>
        WriteKeepsInv(s, t, if s.tickets[t].op.Get? then count else count - 1,
                      if s.tickets[t].op.Get? then Issued(count) else WasReset);
      case ReadThrows(t) => ReleaseKeepsInv(s, s, t, ReadFailed);
      case Clear(key) => ForgetKeepsInv(s, s.nonces - {key});
      case ClearAll => ForgetKeepsInv(s, map[]);
    }
  }

  lemma {:induction false} RunKeepsInv(s: State, acts: seq<Action>)
    requires Inv(s)
    ensures Inv(Run(s, acts))
    decreases acts
  {
    if acts != [] {
      StepKeepsInv(s, acts[0]);
      RunKeepsInv(Step(s, acts[0]), acts[1..]);
    }
  }

  /** Mutual exclusion, in every state of every interleaving. */
  lemma {:induction false} MutualExclusion(acts: seq<Action>, t: nat, u: nat)
    requires t < |Run(INIT, acts).tickets| && u < |Run(INIT, acts).tickets|
    requires Run(INIT, acts).tickets[t].key == Run(INIT, acts).tickets[u].key
    requires Holding(Run(INIT, acts).tickets[t].phase) && Holding(Run(INIT, acts).tickets[u].phase)
    ensures t == u
  {
    RunKeepsInv(INIT, acts);
    OnlyHolder(Run(INIT, acts), t, u);
  }

  /** Grants follow the order of `acquireLock` calls: who is past waiting has no unreleased elder. */
  lemma {:induction false} GrantsInCallOrder(acts: seq<Action>, t: nat, u: nat)
    requires t < u < |Run(INIT, acts).tickets|
    requires Run(INIT, acts).tickets[t].key == Run(INIT, acts).tickets[u].key
    requires !Run(INIT, acts).tickets[u].phase.Waiting?
    ensures Run(INIT, acts).tickets[t].phase.Released?
  {
    RunKeepsInv(INIT, acts);
    assert Turn(Run(INIT, acts).tickets, u);
  }

  /** The `locks` map holds a key exactly when a ticket for it is unreleased. */
  lemma {:induction false} LocksTrackUnreleased(acts: seq<Action>, k: Key)
    ensures var s := Run(INIT, acts);
      k in s.locks <==> exists t :: 0 <= t < |s.tickets| && s.tickets[t].key == k && !s.tickets[t].phase.Released?
  {
    RunKeepsInv(INIT, acts);
    var s := Run(INIT, acts);
    if k in s.locks {
      var t := s.locks[k];
      assert s.tickets[t].key == k && !s.tickets[t].phase.Released?;
    }
  }

  // ----- The nonces: every interleaving is a sequential history -----

  /** What one key's users see: a forgotten cache entry, or a call that is over, with the chain's answer to its read. */
  datatype Effect = Cleared | Done(op: Op, outcome: Outcome, answer: Option<int>)

  /** A call that throws is not seen; one whose read has answered always is. */
  function Returned(s: State, s': State, t: nat, k: Key, answer: Option<int>): seq<Effect> {
    if t < |s.tickets| && t < |s'.tickets| && s.tickets[t].key == k && !s.tickets[t].phase.Released?
       && s'.tickets[t].phase.Released? && (answer.Some? || !s'.tickets[t].phase.outcome.ReadFailed?)
    then [Done(s.tickets[t].op, s'.tickets[t].phase.outcome, answer)] else []
  }

  function Effects(s: State, a: Action, k: Key): seq<Effect> {
    match a
    case Acquire(_, _) => []
    case Grant(_) => []
    case Enter(t) => Returned(s, Step(s, a), t, k, None)
    case ReadOk(t, count) => Returned(s, Step(s, a), t, k, Some(count))
    case ReadThrows(t) => Returned(s, Step(s, a), t, k, None)
    case Clear(key) => if key == k then [Cleared] else []
    case ClearAll => [Cleared]
  }

  function History(s: State, acts: seq<Action>, k: Key): seq<Effect>
    decreases acts
  {
    if acts == [] then [] else Effects(s, acts[0], k) + History(Step(s, acts[0]), acts[1..], k)
  }

  /** The sequential specification: one optional counter.  A reset stores one less than the chain's answer. */
  function After(cell: Option<int>, e: Effect): Option<int> {
    match e
    case Done(Get, _, Some(count)) => Some(count)
    case Done(Get, _, None) => if cell.Some? then Some(cell.value + 1) else None
    case Done(Reset, _, Some(count)) => Some(count - 1)
    case _ => None
  }

  /** With no nonce cached a call returns the chain's answer to its own read; with one, the successor, unread. */
  predicate Allowed(cell: Option<int>, e: Effect) {
    match e
    case Cleared => true
    case Done(Get, o, Some(count)) => cell.None? && o == Issued(count)
    case Done(Get, o, None) => cell.Some? && o == Issued(cell.value + 1)
    case Done(Reset, o, answer) => answer.Some? && o == WasReset
  }

  function Final(cell: Option<int>, h: seq<Effect>): Option<int>
    decreases h
  {
    if h == [] then cell else Final(After(cell, h[0]), h[1..])
  }

  predicate Legal(cell: Option<int>, h: seq<Effect>)
    decreases h
  {
    h == [] || (Allowed(cell, h[0]) && Legal(After(cell, h[0]), h[1..]))
  }

  lemma EnterIsSequential(s: State, t: nat, k: Key)
    requires Inv(s) && Enabled(s, Enter(t))
    ensures var e := Returned(s, EnterStep(s, t), t, k, None);
      && Legal(Lookup(s.nonces, k), e)
      && Final(Lookup(s.nonces, k), e) == Lookup(EnterStep(s, t).nonces, k)
  {}

  lemma ReadIsSequential(s: State, t: nat, count: int, k: Key)
    requires Inv(s) && Enabled(s, ReadOk(t, count))
    ensures var e := Returned(s, ReadOkStep(s, t, count), t, k, Some(count));
      && Legal(Lookup(s.nonces, k), e)
      && Final(Lookup(s.nonces, k), e) == Lookup(ReadOkStep(s, t, count).nonces, k)
  {}

  lemma StepIsSequential(s: State, a: Action, k: Key)
    requires Inv(s)
    ensures Legal(Lookup(s.nonces, k), Effects(s, a, k))
    ensures Final(Lookup(s.nonces, k), Effects(s, a, k)) == Lookup(Step(s, a).nonces, k)
  {
    if Enabled(s, a) {
      match a
      case Acquire(_, _) =>
      case Grant(_) =>
      case Enter(t) => EnterIsSequential(s, t, k);
      case ReadOk(t, count) => ReadIsSequential(s, t, count, k);
      case ReadThrows(t) =>
      case Clear(_) =>
      case ClearAll =>
    }
  }

  lemma {:induction false} LegalConcat(cell: Option<int>, h: seq<Effect>, h': seq<Effect>)
    requires Legal(cell, h) && Legal(Final(cell, h), h')
    ensures Legal(cell, h + h') && Final(cell, h + h') == Final(Final(cell, h), h')
    decreases h
  {
    if h == [] {
      assert h + h' == h';
    } else {
      LegalConcat(After(cell, h[0]), h[1..], h');
      assert (h + h')[1..] == h[1..] + h';
    }
  }

  /** Linearizability: what any key's users see is a run of the sequential counter. */
  lemma {:induction false} Linearizable(s: State, acts: seq<Action>, k: Key)
    requires Inv(s)
    ensures Legal(Lookup(s.nonces, k), History(s, acts, k))
    ensures Final(Lookup(s.nonces, k), History(s, acts, k)) == Lookup(Run(s, acts).nonces, k)
    decreases acts
  {
    if acts != [] {
      var s' := Step(s, acts[0]);
      StepIsSequential(s, acts[0], k);
      StepKeepsInv(s, acts[0]);
      Linearizable(s', acts[1..], k);
      LegalConcat(Lookup(s.nonces, k), Effects(s, acts[0], k), History(s', acts[1..], k));
    }
  }

  /** The nonce after which the next `getNonce` counts on: the one returned, or one less than a reset's answer. */
  function Base(e: Effect): int
    requires e.Done? && (e.op.Get? ==> e.outcome.Issued?) && (e.op.Reset? ==> e.answer.Some?)
  {
    if e.op.Get? then e.outcome.nonce else e.answer.value - 1
  }

  lemma {:induction false} CountsOn(cell: Option<int>, h: seq<Effect>)
    requires Legal(cell, h) && cell.Some?
    requires forall i :: 0 <= i < |h| ==> h[i].Done? && h[i].op.Get?
    ensures forall i :: 0 <= i < |h| ==> h[i] == Done(Get, Issued(cell.value + 1 + i), None)
    decreases h
  {
    if h != [] {
      CountsOn(After(cell, h[0]), h[1..]);
      forall i | 0 <= i < |h| ensures h[i] == Done(Get, Issued(cell.value + 1 + i), None) {
        if i > 0 { assert h[i] == h[1..][i - 1]; }
      }
    }
  }

  lemma {:induction false} LegalSuffix(cell: Option<int>, h: seq<Effect>, i: nat)
    requires Legal(cell, h) && i < |h|
    ensures exists c :: Allowed(c, h[i]) && Legal(After(c, h[i]), h[i + 1..])
    decreases i
  {
    if i == 0 {
      assert Allowed(cell, h[0]) && Legal(After(cell, h[0]), h[1..]);
    } else {
      LegalSuffix(After(cell, h[0]), h[1..], i - 1);
      assert h[1..][i - 1] == h[i] && h[1..][i..] == h[i + 1..];
    }
  }

  lemma {:induction false} LegalPrefix(cell: Option<int>, h: seq<Effect>, n: nat)
    requires Legal(cell, h) && n <= |h|
    ensures Legal(cell, h[..n])
    decreases n
  {
    if n > 0 {
      LegalPrefix(After(cell, h[0]), h[1..], n - 1);
      assert h[..n][1..] == h[1..][..n - 1];
    }
  }

  /**
   In every run: a nonce that a call takes from the chain is the answer to that call's own read, and
   a call whose read is answered neither fails nor returns anything else.
   */
  lemma {:induction false} ChainNonceIsAnswer(s: State, acts: seq<Action>, k: Key, i: nat)
    requires Inv(s) && i < |History(s, acts, k)| && History(s, acts, k)[i].Done? && History(s, acts, k)[i].answer.Some?
    ensures var e := History(s, acts, k)[i];
      e.outcome == if e.op.Get? then Issued(e.answer.value) else WasReset
  {
    Linearizable(s, acts, k);
    LegalSuffix(Lookup(s.nonces, k), History(s, acts, k), i);
  }

  /**
   From any reachable state: after a nonce, or a reset whose read answered `n`, the nonces handed out
   until the next clear or reset of the key count on from it, or from `n` itself, with no gap, repeat
   or chain read, whatever other calls, failures and keys interleave.
   */
  lemma {:induction false} NoncesCountOn(s: State, acts: seq<Action>, k: Key, i: nat, j: nat)
    requires Inv(s)
    requires i < j < |History(s, acts, k)| && History(s, acts, k)[i].Done?
    requires forall m :: i < m <= j ==> History(s, acts, k)[m].Done? && History(s, acts, k)[m].op.Get?
    ensures var e := History(s, acts, k)[i];
      && (e.op.Get? ==> e.outcome.Issued?) && (e.op.Reset? ==> e.answer.Some?)
      && History(s, acts, k)[j] == Done(Get, Issued(Base(e) + (j - i)), None)
  {
    Linearizable(s, acts, k);
    LegalCountsOn(Lookup(s.nonces, k), History(s, acts, k), i, j);
  }

  lemma {:induction false} LegalCountsOn(cell: Option<int>, h: seq<Effect>, i: nat, j: nat)
    requires Legal(cell, h) && i < j < |h| && h[i].Done?
    requires forall m :: i < m <= j ==> h[m].Done? && h[m].op.Get?
    ensures (h[i].op.Get? ==> h[i].outcome.Issued?) && (h[i].op.Reset? ==> h[i].answer.Some?)
    ensures h[j] == Done(Get, Issued(Base(h[i]) + (j - i)), None)
  {
    LegalSuffix(cell, h, i);
    var c :| Allowed(c, h[i]) && Legal(After(c, h[i]), h[i + 1..]);
    LegalPrefix(After(c, h[i]), h[i + 1..], j - i);
    var w := h[i + 1..][..j - i];
    assert forall m :: 0 <= m < |w| ==> w[m] == h[i + 1 + m];
    CountsOn(After(c, h[i]), w);
    assert w[j - i - 1] == h[j];
  }

  // ----- Every call is what its caller asked for -----

  /** The calls of a run, in the order in which they take their place in line. */
  function Calls(acts: seq<Action>): seq<(Key, Op)> {
    if acts == [] then [] else
    var last := acts[|acts| - 1];
    Calls(acts[..|acts| - 1]) + (if last.Acquire? then [(last.key, last.op)] else [])
  }

  lemma {:induction false} RunLast(s: State, acts: seq<Action>, a: Action)
    ensures Run(s, acts + [a]) == Step(Run(s, acts), a)
    decreases acts
  {
    if acts == [] {
      assert [a][1..] == [];
    } else {
      assert (acts + [a])[1..] == acts[1..] + [a];
      RunLast(Step(s, acts[0]), acts[1..], a);
    }
  }

  /** Each call has its own ticket, with the key and the operation that were asked for. */
  lemma {:induction false} TicketsAreCalls(acts: seq<Action>)
    ensures var ts := Run(INIT, acts).tickets;
      |ts| == |Calls(acts)| && forall t :: 0 <= t < |ts| ==> (ts[t].key, ts[t].op) == Calls(acts)[t]
  {
    if acts != [] {
      var n := |acts| - 1;
      TicketsAreCalls(acts[..n]);
      assert acts == acts[..n] + [acts[n]];
      RunLast(INIT, acts[..n], acts[n]);
    }
  }

  // ----- Nonce order is call order -----

  predicate IsIssued(x: Ticket, k: Key) {
    x.key == k && x.phase.Released? && x.phase.outcome.Issued?
  }

  function IssuedBefore(ts: seq<Ticket>, k: Key, n: nat): nat
    requires n <= |ts|
  {
    if n == 0 then 0 else IssuedBefore(ts, k, n - 1) + (if IsIssued(ts[n - 1], k) then 1 else 0)
  }

  lemma {:induction false} IssuedBeforeUpdate(ts: seq<Ticket>, k: Key, t: nat, x: Ticket, n: nat)
    requires t < |ts| && n <= |ts| && !IsIssued(ts[t], k)
    ensures IssuedBefore(ts[t := x], k, n) == IssuedBefore(ts, k, n) + (if t < n && IsIssued(x, k) then 1 else 0)
    decreases n
  {
    if n > 0 { IssuedBeforeUpdate(ts, k, t, x, n - 1); }
  }

  lemma {:induction false} IssuedBeforePush(ts: seq<Ticket>, k: Key, x: Ticket, n: nat)
    requires n <= |ts|
    ensures IssuedBefore(ts + [x], k, n) == IssuedBefore(ts, k, n)
    decreases n
  {
    if n > 0 { IssuedBeforePush(ts, k, x, n - 1); }
  }

  lemma {:induction false} IssuedBeforeMonotone(ts: seq<Ticket>, k: Key, m: nat, n: nat)
    requires m <= n <= |ts|
    ensures IssuedBefore(ts, k, m) <= IssuedBefore(ts, k, n)
    decreases n
  {
    if m < n { IssuedBeforeMonotone(ts, k, m, n - 1); }
  }

  /** Nonce `n` of ticket `t` trails the cached nonce by the number of nonces issued to later tickets. */
  ghost predicate Sequenced(s: State, k: Key) {
    && (k in s.nonces ==> 0 < IssuedBefore(s.tickets, k, |s.tickets|))
    && (forall t :: 0 <= t < |s.tickets| && IsIssued(s.tickets[t], k) ==>
          k in s.nonces && Trails(s, k, t))
    && (forall t :: 0 <= t < |s.tickets| && s.tickets[t].key == k ==> s.tickets[t].op.Get?)
  }

  ghost predicate Trails(s: State, k: Key, t: nat)
    requires k in s.nonces && t < |s.tickets| && IsIssued(s.tickets[t], k)
  {
    s.nonces[k] - s.tickets[t].phase.outcome.nonce
    == IssuedBefore(s.tickets, k, |s.tickets|) - 1 - IssuedBefore(s.tickets, k, t)
  }

  /** Neither a clear nor a reset of `k`. */
  predicate Undisturbing(a: Action, k: Key) {
    a != ClearAll && a != Clear(k) && a != Acquire(k, Reset)
  }

  lemma TrailsAfterIssue(s: State, k: Key, t: nat, nonce: int, u: nat)
    requires Inv(s) && Sequenced(s, k) && t < |s.tickets| && Holding(s.tickets[t].phase) && s.tickets[t].key == k
    requires k in s.nonces ==> nonce == s.nonces[k] + 1
    requires u < |s.tickets| && (u == t || IsIssued(s.tickets[u], k))
    ensures Trails(WriteStep(s, t, nonce, Issued(nonce)), k, u)
  {
    var x := s.tickets[t].(phase := Released(Issued(nonce)));
    IssuedBeforeUpdate(s.tickets, k, t, x, |s.tickets|);
    IssuedBeforeUpdate(s.tickets, k, t, x, u);
    if u == t {
      NoLaterIssued(s, k, t, |s.tickets|);
    } else {
      assert u < t by { assert Turn(s.tickets, u); }
      assert Trails(s, k, u);
    }
  }

  lemma IssueKeepsSequenced(s: State, k: Key, t: nat, nonce: int)
    requires Inv(s) && Sequenced(s, k) && t < |s.tickets| && Holding(s.tickets[t].phase) && s.tickets[t].key == k
    requires k in s.nonces ==> nonce == s.nonces[k] + 1
    ensures Sequenced(WriteStep(s, t, nonce, Issued(nonce)), k)
  {
    var x := s.tickets[t].(phase := Released(Issued(nonce)));
    var s' := WriteStep(s, t, nonce, Issued(nonce));
    IssuedBeforeUpdate(s.tickets, k, t, x, |s.tickets|);
    forall u | 0 <= u < |s'.tickets| && IsIssued(s'.tickets[u], k) ensures Trails(s', k, u) {
      TrailsAfterIssue(s, k, t, nonce, u);
    }
  }

  /** While `t` holds the lock nobody after it has been served. */
  lemma {:induction false} NoLaterIssued(s: State, k: Key, t: nat, n: nat)
    requires Fifo(s.tickets) && t < n <= |s.tickets| && s.tickets[t].key == k && !s.tickets[t].phase.Released?
    ensures IssuedBefore(s.tickets, k, n) == IssuedBefore(s.tickets, k, t)
    decreases n
  {
    if n > t + 1 {
      NoLaterIssued(s, k, t, n - 1);
      assert IsIssued(s.tickets[n - 1], k) ==> Turn(s.tickets, n - 1);
    }
  }

  /** A step that issues nothing for `k` and leaves its cache alone. */
  lemma {:induction false} QuietKeepsSequenced(s: State, s': State, k: Key)
    requires Sequenced(s, k) && Lookup(s'.nonces, k) == Lookup(s.nonces, k)
    requires |s'.tickets| >= |s.tickets|
    requires forall n :: 0 <= n <= |s.tickets| ==> IssuedBefore(s'.tickets, k, n) == IssuedBefore(s.tickets, k, n)
    requires IssuedBefore(s'.tickets, k, |s'.tickets|) == IssuedBefore(s.tickets, k, |s.tickets|)
    requires forall t :: 0 <= t < |s'.tickets| && IsIssued(s'.tickets[t], k) ==>
               t < |s.tickets| && s.tickets[t] == s'.tickets[t]
    requires forall t :: 0 <= t < |s'.tickets| && s'.tickets[t].key == k ==> s'.tickets[t].op.Get?
    ensures Sequenced(s', k)
  {
    forall t | 0 <= t < |s'.tickets| && IsIssued(s'.tickets[t], k) ensures k in s'.nonces && Trails(s', k, t) {
      assert IsIssued(s.tickets[t], k) && Trails(s, k, t);
    }
  }

  /** A ticket moves on without being issued a nonce of `k`. */
  lemma PhaseKeepsSequenced(s: State, s': State, k: Key, t: nat, p: Phase)
    requires Sequenced(s, k) && t < |s.tickets| && !s.tickets[t].phase.Released?
    requires s'.tickets == s.tickets[t := s.tickets[t].(phase := p)]
    requires !IsIssued(s'.tickets[t], k) && Lookup(s'.nonces, k) == Lookup(s.nonces, k)
    ensures Sequenced(s', k)
  {
    forall n | 0 <= n <= |s.tickets|
      ensures IssuedBefore(s'.tickets, k, n) == IssuedBefore(s.tickets, k, n)
    {
      IssuedBeforeUpdate(s.tickets, k, t, s'.tickets[t], n);
    }
    QuietKeepsSequenced(s, s', k);
  }

  lemma AcquireKeepsSequenced(s: State, k: Key, key: Key, op: Op)
    requires Sequenced(s, k) && Undisturbing(Acquire(key, op), k)
    ensures Sequenced(AcquireStep(s, key, op), k)
  {
    var s' := AcquireStep(s, key, op);
    var n := |s.tickets|;
    forall m | 0 <= m <= n
      ensures IssuedBefore(s'.tickets, k, m) == IssuedBefore(s.tickets, k, m)
    {
      IssuedBeforePush(s.tickets, k, s'.tickets[n], m);
    }
    QuietKeepsSequenced(s, s', k);
  }

  lemma EnterKeepsSequenced(s: State, t: nat, k: Key)
    requires Inv(s) && Sequenced(s, k) && t < |s.tickets| && s.tickets[t].phase.Granted?
    ensures Sequenced(EnterStep(s, t), k)
  {
    if s.tickets[t].key == k && k in s.nonces {
      IssueKeepsSequenced(s, k, t, s.nonces[k] + 1);
      assert EnterStep(s, t) == WriteStep(s, t, s.nonces[k] + 1, Issued(s.nonces[k] + 1));
    } else {
      PhaseKeepsSequenced(s, EnterStep(s, t), k, t, EnterStep(s, t).tickets[t].phase);
    }
  }

  lemma ReadKeepsSequenced(s: State, t: nat, count: int, k: Key)
    requires Inv(s) && Sequenced(s, k) && t < |s.tickets| && s.tickets[t].phase.Reading?
    ensures Sequenced(ReadOkStep(s, t, count), k)
  {
    if s.tickets[t].key == k {
      IssueKeepsSequenced(s, k, t, count);
      assert ReadOkStep(s, t, count) == WriteStep(s, t, count, Issued(count));
    } else {
      PhaseKeepsSequenced(s, ReadOkStep(s, t, count), k, t, ReadOkStep(s, t, count).tickets[t].phase);
    }
  }

  lemma StepKeepsSequenced(s: State, a: Action, k: Key)
    requires Inv(s) && Sequenced(s, k) && Undisturbing(a, k)
    ensures Sequenced(Step(s, a), k)
  {
    if Enabled(s, a) {
      match a
      case Acquire(key, op) => AcquireKeepsSequenced(s, k, key, op);
      case Grant(t) => PhaseKeepsSequenced(s, Step(s, a), k, t, Granted);
      case Enter(t) => EnterKeepsSequenced(s, t, k);
      case ReadOk(t, count) => ReadKeepsSequenced(s, t, count, k);
      case ReadThrows(t) => PhaseKeepsSequenced(s, Step(s, a), k, t, Released(ReadFailed));
      case Clear(_) => QuietKeepsSequenced(s, Step(s, a), k);
      case ClearAll =>
    }
  }

  lemma {:induction false} RunKeepsSequenced(s: State, acts: seq<Action>, k: Key)
    requires Inv(s) && Sequenced(s, k) && forall i :: 0 <= i < |acts| ==> Undisturbing(acts[i], k)
    ensures Inv(Run(s, acts)) && Sequenced(Run(s, acts), k)
    decreases acts
  {
    if acts != [] {
      StepKeepsInv(s, acts[0]);
      StepKeepsSequenced(s, acts[0], k);
      RunKeepsSequenced(Step(s, acts[0]), acts[1..], k);
    }
  }

  /**
   Without a clear or reset of `k`, the nonces of any two served calls differ by exactly the
   number of calls served from the earlier (inclusive) to the later: failed chain reads leave
   no gap, and no interleaving changes the order or repeats a nonce.
   */
  lemma {:induction false} NonceOrderIsCallOrder(acts: seq<Action>, k: Key, t: nat, u: nat)
    requires forall i :: 0 <= i < |acts| ==> Undisturbing(acts[i], k)
    requires t < u < |Run(INIT, acts).tickets|
    requires IsIssued(Run(INIT, acts).tickets[t], k) && IsIssued(Run(INIT, acts).tickets[u], k)
    ensures var ts := Run(INIT, acts).tickets;
      && ts[u].phase.outcome.nonce - ts[t].phase.outcome.nonce == IssuedBefore(ts, k, u) - IssuedBefore(ts, k, t)
      && ts[t].phase.outcome.nonce < ts[u].phase.outcome.nonce
  {
    RunKeepsSequenced(INIT, acts, k);
    var s := Run(INIT, acts);
    assert Trails(s, k, t) && Trails(s, k, u);
    IssuedBeforeMonotone(s.tickets, k, t + 1, u);
  }

  /** The chain's answer to the first read for `k` that is answered. */
  function FirstAnswer(s: State, acts: seq<Action>, k: Key): Option<int>
    decreases acts
  {
    if acts == [] then None
    else if Answers(s, acts[0], k) then Some(acts[0].count)
    else FirstAnswer(Step(s, acts[0]), acts[1..], k)
  }

  predicate Answers(s: State, a: Action, k: Key) { a.ReadOk? && Enabled(s, a) && s.tickets[a.t].key == k }

  /** Counted from the first answer `c`, the cache stands at the number of nonces issued. */
  ghost predicate Anchored(s: State, k: Key, c: Option<int>) {
    && (k in s.nonces <==> c.Some?)
    && (c.Some? ==> s.nonces[k] == c.value + IssuedBefore(s.tickets, k, |s.tickets|) - 1)
  }

  lemma {:induction false} NoneIssued(s: State, k: Key, n: nat)
    requires Sequenced(s, k) && k !in s.nonces && n <= |s.tickets|
    ensures IssuedBefore(s.tickets, k, n) == 0
  {
    if n > 0 { NoneIssued(s, k, n - 1); }
  }

  lemma IssueAnchors(s: State, k: Key, t: nat, nonce: int, c: Option<int>)
    requires Inv(s) && Sequenced(s, k) && Anchored(s, k, c)
    requires t < |s.tickets| && Holding(s.tickets[t].phase) && s.tickets[t].key == k
    requires k in s.nonces ==> nonce == s.nonces[k] + 1
    ensures Anchored(WriteStep(s, t, nonce, Issued(nonce)), k, if c.Some? then c else Some(nonce))
  {
    IssuedBeforeUpdate(s.tickets, k, t, s.tickets[t].(phase := Released(Issued(nonce))), |s.tickets|);
    if k !in s.nonces { NoneIssued(s, k, |s.tickets|); }
  }

  lemma PhaseKeepsAnchored(s: State, s': State, k: Key, t: nat, p: Phase, c: Option<int>)
    requires Anchored(s, k, c) && t < |s.tickets| && !s.tickets[t].phase.Released?
    requires s'.tickets == s.tickets[t := s.tickets[t].(phase := p)]
    requires !IsIssued(s'.tickets[t], k) && Lookup(s'.nonces, k) == Lookup(s.nonces, k)
    ensures Anchored(s', k, c)
  {
    IssuedBeforeUpdate(s.tickets, k, t, s'.tickets[t], |s.tickets|);
  }

  lemma EnterKeepsAnchored(s: State, t: nat, k: Key, c: Option<int>)
    requires Inv(s) && Sequenced(s, k) && Anchored(s, k, c) && Enabled(s, Enter(t))
    ensures Anchored(EnterStep(s, t), k, c)
  {
    if s.tickets[t].key == k && k in s.nonces {
      IssueAnchors(s, k, t, s.nonces[k] + 1, c);
      ServeIsWrite(s, t, s.nonces[k] + 1);
    } else {
      PhaseKeepsAnchored(s, EnterStep(s, t), k, t, EnterStep(s, t).tickets[t].phase, c);
    }
  }

  lemma ReadKeepsAnchored(s: State, t: nat, count: int, k: Key, c: Option<int>)
    requires Inv(s) && Sequenced(s, k) && Anchored(s, k, c) && Enabled(s, ReadOk(t, count))
    ensures Anchored(ReadOkStep(s, t, count), k, if c.None? && s.tickets[t].key == k then Some(count) else c)
  {
    if s.tickets[t].key == k {
      IssueAnchors(s, k, t, count, c);
      assert ReadOkStep(s, t, count) == WriteStep(s, t, count, Issued(count));
    } else {
      PhaseKeepsAnchored(s, ReadOkStep(s, t, count), k, t, ReadOkStep(s, t, count).tickets[t].phase, c);
    }
  }

  lemma AcquireKeepsAnchored(s: State, key: Key, op: Op, k: Key, c: Option<int>)
    requires Anchored(s, k, c)
    ensures Anchored(AcquireStep(s, key, op), k, c)
  {
    var x := AcquireStep(s, key, op).tickets[|s.tickets|];
    IssuedBeforePush(s.tickets, k, x, |s.tickets|);
  }

  /** The first answer, if this action gives it. */
  function NextAnswer(s: State, a: Action, k: Key, c: Option<int>): Option<int> {
    if c.None? && Answers(s, a, k) then Some(a.count) else c
  }

  lemma StepKeepsAnchored(s: State, a: Action, k: Key, c: Option<int>)
    requires Inv(s) && Sequenced(s, k) && Undisturbing(a, k) && Anchored(s, k, c)
    ensures Anchored(Step(s, a), k, NextAnswer(s, a, k, c))
  {
    if Enabled(s, a) {
      match a
      case Acquire(key, op) => AcquireKeepsAnchored(s, key, op, k, c);
      case Grant(t) => PhaseKeepsAnchored(s, Step(s, a), k, t, Granted, c);
      case Enter(t) => EnterKeepsAnchored(s, t, k, c);
      case ReadOk(t, count) => ReadKeepsAnchored(s, t, count, k, c);
      case ReadThrows(t) => PhaseKeepsAnchored(s, Step(s, a), k, t, Released(ReadFailed), c);
      case Clear(_) =>
      case ClearAll =>
    }
  }

  lemma {:induction false} RunKeepsAnchored(s: State, acts: seq<Action>, k: Key, c: Option<int>)
    requires Inv(s) && Sequenced(s, k) && Anchored(s, k, c)
    requires forall i :: 0 <= i < |acts| ==> Undisturbing(acts[i], k)
    ensures Anchored(Run(s, acts), k, if c.Some? then c else FirstAnswer(s, acts, k))
    decreases acts
  {
    if acts != [] {
      StepKeepsInv(s, acts[0]);
      StepKeepsSequenced(s, acts[0], k);
      StepKeepsAnchored(s, acts[0], k, c);
      RunKeepsAnchored(Step(s, acts[0]), acts[1..], k, NextAnswer(s, acts[0], k, c));
    }
  }

  /**
   So without a clear or reset every nonce is known from the chain's first answer `c`: the call that
   is served after `i` others of its key were returns `c + i`.
   */
  lemma {:induction false} NoncesFromFirstAnswer(acts: seq<Action>, k: Key, t: nat)
    requires forall i :: 0 <= i < |acts| ==> Undisturbing(acts[i], k)
    requires t < |Run(INIT, acts).tickets| && IsIssued(Run(INIT, acts).tickets[t], k)
    ensures var ts := Run(INIT, acts).tickets;
      && FirstAnswer(INIT, acts, k).Some?
      && ts[t].phase.outcome.nonce == FirstAnswer(INIT, acts, k).value + IssuedBefore(ts, k, t)
  {
    RunKeepsSequenced(INIT, acts, k);
    RunKeepsAnchored(INIT, acts, k, None);
    assert Trails(Run(INIT, acts), k, t);
  }

  // ----- Keys are independent; no caller waits for ever -----

  predicate Touches(s: State, a: Action, k: Key) {
    match a
    case Acquire(key, _) => key == k
    case Grant(t) => t < |s.tickets| && s.tickets[t].key == k
    case Enter(t) => t < |s.tickets| && s.tickets[t].key == k
    case ReadOk(t, _) => t < |s.tickets| && s.tickets[t].key == k
    case ReadThrows(t) => t < |s.tickets| && s.tickets[t].key == k
    case Clear(key) => key == k
    case ClearAll => true
  }

  lemma StepFrame(s: State, a: Action, k: Key, t: nat)
    requires !Touches(s, a, k) && t < |s.tickets| && s.tickets[t].key == k
    ensures var s' := Step(s, a);
      && Lookup(s'.nonces, k) == Lookup(s.nonces, k) && Lookup(s'.locks, k) == Lookup(s.locks, k)
      && |s.tickets| <= |s'.tickets| && s'.tickets[t] == s.tickets[t]
  {}

  /** A step elsewhere changes nothing of `k` and neither enables nor disables its tickets. */
  lemma KeysIndependent(s: State, a: Action, k: Key, t: nat)
    requires Inv(s) && !Touches(s, a, k) && t < |s.tickets| && s.tickets[t].key == k
    ensures var s' := Step(s, a);
      && Lookup(s'.nonces, k) == Lookup(s.nonces, k) && Lookup(s'.locks, k) == Lookup(s.locks, k)
      && |s.tickets| <= |s'.tickets| && s'.tickets[t] == s.tickets[t]
      && (Enabled(s', Grant(t)) <==> Enabled(s, Grant(t)))
      && Effects(s, a, k) == []
  {
    StepFrame(s, a, k, t);
    if s.tickets[t].prev.Some? {
      assert LinkOk(s.tickets, t);
      StepFrame(s, a, k, s.tickets[t].prev.value);
    }
    OtherKeysSeeNothing(s, a, k);
  }

  lemma OtherKeysSeeNothing(s: State, a: Action, k: Key)
    requires !Touches(s, a, k)
    ensures Effects(s, a, k) == []
  {}

  /** Actions of a caller already in line; chain reads may answer or throw. */
  predicate Advances(a: Action, t: nat) {
    match a
    case Grant(u) => u == t
    case Enter(u) => u == t
    case ReadOk(u, _) => u == t
    case ReadThrows(u) => u == t
    case _ => false
  }

  function Rank(p: Phase): nat {
    match p
    case Waiting => 3
    case Granted => 2
    case Reading => 1
    case Released(_) => 0
  }

  function Remaining(ts: seq<Ticket>): nat {
    if ts == [] then 0 else Remaining(ts[..|ts| - 1]) + Rank(ts[|ts| - 1].phase)
  }

  lemma {:induction false} RemainingUpdate(ts: seq<Ticket>, t: nat, x: Ticket)
    requires t < |ts|
    ensures Remaining(ts[t := x]) == Remaining(ts) + Rank(x.phase) - Rank(ts[t].phase)
    decreases ts
  {
    var n := |ts| - 1;
    if t < n {
      RemainingUpdate(ts[..n], t, x);
      assert ts[t := x][..n] == ts[..n][t := x];
    } else {
      assert ts[t := x][..n] == ts[..n];
    }
  }

  /** No deadlock: while some ticket of `k` is unreleased, some ticket of `k` can move. */
  lemma {:induction false} SomeoneCanMove(s: State, k: Key, t: nat)
    requires Inv(s) && t < |s.tickets| && s.tickets[t].key == k && !s.tickets[t].phase.Released?
    ensures exists u :: 0 <= u <= t && s.tickets[u].key == k
              && (Enabled(s, Grant(u)) || Enabled(s, Enter(u)) || Enabled(s, ReadThrows(u)))
    decreases t
  {
    if !Enabled(s, Grant(t)) && !Enabled(s, Enter(t)) && !Enabled(s, ReadThrows(t)) {
      assert s.tickets[t].phase.Waiting? && LinkOk(s.tickets, t);
      SomeoneCanMove(s, k, s.tickets[t].prev.value);
    }
  }

  /** Every move of a caller in line uses up some of a finite budget, whoever moves and however reads end. */
  lemma MoveUsesBudget(s: State, a: Action, t: nat)
    requires Enabled(s, a) && Advances(a, t)
    ensures Remaining(Step(s, a).tickets) < Remaining(s.tickets)
  {
    RemainingUpdate(s.tickets, t, Step(s, a).tickets[t]);
  }

  /** Every action is a move of a caller in line. */
  ghost predicate Moving(s: State, acts: seq<Action>)
    decreases acts
  {
    acts != [] ==>
      Enabled(s, acts[0]) && (exists t :: Advances(acts[0], t)) && Moving(Step(s, acts[0]), acts[1..])
  }

  ghost predicate Stuck(s: State) {
    forall t :: !Enabled(s, Grant(t)) && !Enabled(s, Enter(t)) && !Enabled(s, ReadThrows(t))
  }

  lemma StuckIsIdle(s: State)
    requires Inv(s) && Stuck(s)
    ensures s.locks == map[]
  {
    if k :| k in s.locks { SomeoneCanMove(s, k, s.locks[k]); }
  }

  /** Hence a run of moves alone is bounded, and where it can go no further all locks are gone. */
  lemma {:induction false} CallersDrain(s: State, acts: seq<Action>)
    requires Inv(s) && Moving(s, acts)
    ensures |acts| <= Remaining(s.tickets)
    ensures Stuck(Run(s, acts)) ==> Run(s, acts).locks == map[]
    decreases acts
  {
    if acts == [] {
      if Stuck(s) { StuckIsIdle(s); }
    } else {
      var t :| Advances(acts[0], t);
      MoveUsesBudget(s, acts[0], t);
      StepKeepsInv(s, acts[0]);
      CallersDrain(Step(s, acts[0]), acts[1..]);
    }
  }

  // ----- The class -----

  function GetKey(address: string, chainId: nat): Key {
    Decimal(chainId) + ":" + Lower(address)
  }

  /** Two (chain, address) pairs share a lock and a nonce exactly when they differ in letter case only. */
  lemma KeysSeparate(address: string, chainId: nat, address': string, chainId': nat)
    ensures GetKey(address, chainId) == GetKey(address', chainId')
            <==> chainId == chainId' && Lower(address) == Lower(address')
  {
    DecimalRoundTrip(chainId);
    DecimalRoundTrip(chainId');
    if GetKey(address, chainId) == GetKey(address', chainId') {
      SplitAtColon(Decimal(chainId), Lower(address), Decimal(chainId'), Lower(address'));
    }
  }

  /**
   The manager's fields and, for each call in flight, its promise and program counter.  A method
   is the code of a call between two awaits.
   */
  class AsyncNonceManager {
    var nonces: map<Key, int>
    var locks: map<Key, nat>
    var tickets: seq<Ticket>

    ghost function Abs(): State
      reads this
    {
      State(nonces, locks, tickets)
    }

    constructor ()
      ensures Abs() == INIT
    {
      nonces, locks, tickets := map[], map[], [];
    }

    /** `acquireLock` up to its await: capture the tail and publish this call as the new tail. */
    method AcquireLock(key: Key, op: Op) returns (t: nat)
      modifies this
      ensures t == old(|tickets|) && Abs() == Step(old(Abs()), Acquire(key, op))
    {
      var previousPending := if key in locks then Some(locks[key]) else None;
      t := |tickets|;
      locks := locks[key := t];
      tickets := tickets + [Ticket(key, op, previousPending, Waiting)];
    }

    /** The awaited tail has settled. */
    method LockGranted(t: nat)
      requires Enabled(Abs(), Grant(t))
      modifies this`tickets
      ensures Abs() == Step(old(Abs()), Grant(t))
    {
      tickets := tickets[t := tickets[t].(phase := Granted)];
    }

    method ReleaseLock(t: nat, o: Outcome)
      requires t < |tickets|
      modifies this`locks, this`tickets
      ensures Abs() == Release(old(Abs()), t, o)
    {
      var key := tickets[t].key;
      tickets := tickets[t := tickets[t].(phase := Released(o))];
      if key in locks && locks[key] == t {
        locks := locks - {key};
      }
    }

    /** From the grant to the next await or to the return. */
    method Enter(t: nat) returns (nonce: Option<int>)
      requires Enabled(Abs(), Action.Enter(t))
      modifies this
      ensures Abs() == Step(old(Abs()), Action.Enter(t))
      ensures nonce.Some? <==> tickets[t].phase.Released?
      ensures nonce.Some? ==> tickets[t].phase.outcome == Issued(nonce.value)
    {
      var key := tickets[t].key;
      nonce := None;
      if tickets[t].op.Get? && key in nonces {
        nonce := Some(nonces[key] + 1);
        nonces := nonces[key := nonce.value];
        ReleaseLock(t, Issued(nonce.value));
      } else {
        tickets := tickets[t := tickets[t].(phase := Reading)];
      }
    }

    /** `getTransactionCount` has answered. */
    method ReadAnswered(t: nat, count: int)
      requires Enabled(Abs(), ReadOk(t, count))
      modifies this
      ensures Abs() == Step(old(Abs()), ReadOk(t, count))
    {
      var key := tickets[t].key;
      if tickets[t].op.Get? {
        nonces := nonces[key := count];
        ReleaseLock(t, Issued(count));
      } else {
        nonces := nonces[key := count - 1];
        ReleaseLock(t, WasReset);
      }
    }

    /** `getTransactionCount` has thrown: only the `finally` block runs. */
    method ReadFailed(t: nat)
      requires Enabled(Abs(), ReadThrows(t))
      modifies this
      ensures Abs() == Step(old(Abs()), ReadThrows(t))
    {
      ReleaseLock(t, Outcome.ReadFailed);
    }

    method ClearNonce(address: string, chainId: nat)
      modifies this`nonces
      ensures Abs() == Step(old(Abs()), Clear(GetKey(address, chainId)))
    {
      nonces := nonces - {GetKey(address, chainId)};
    }

    method ClearAllNonces()
      modifies this`nonces
      ensures Abs() == Step(old(Abs()), ClearAll)
    {
      nonces := map[];
    }
  }
}
