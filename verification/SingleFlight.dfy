/**
 `withInstanceCache`: concurrent callers of one key share a fetch.  The code between awaits is one
 atomic action; runs are arbitrary action sequences, and an action that is not enabled leaves the
 state alone.
 */
module SingleFlight {
  import opened Common
  import Cache = MemoryCache

  /** What the wrapped function comes to: a value, a `Result` that reports failure, an exception. */
  datatype Outcome = Good(value: Cache.Value) | FailedResult(message: int) | Threw(error: int)

  /** An in-flight or settled promise and the call that created it. */
  datatype Fetch = Fetch(key: string, owner: nat, settled: Option<Outcome>)

  datatype Phase =
    | Owns(fetch: nat)
    | Joined(fetch: nat)
    | Hit(value: Cache.Value)
    | Done(fetch: nat, outcome: Outcome)

  datatype Call = Call(key: string, phase: Phase)

  datatype State = State(cache: Cache.State, fetches: seq<Fetch>, calls: seq<Call>)

  datatype Action =
    | Invoke(key: string, now: real)
    | Settle(fetch: nat, outcome: Outcome, now: real, later: real)
    | Resume(call: nat)
    | Clear
    | Tune(op: Cache.Op)

  function Init(ttlSeconds: real, maxSize: int): State {
    State(Cache.Empty(ttlSeconds, maxSize), [], [])
  }

  /** Promise numbers in `pending` are positions in `fetches`. */
  function InvokeStep(s: State, k: string, now: real): State {
    var (hit, cache) := Cache.GetStep(s.cache, k, now);
    if hit.Some? && hit.value != Cache.Null then
      s.(cache := cache, calls := s.calls + [Call(k, Hit(hit.value))])
    else if k in cache.pending then
      s.(cache := cache, calls := s.calls + [Call(k, Joined(cache.pending[k]))])
    else
      State(cache.(pending := cache.pending[k := |s.fetches|]),
            s.fetches + [Fetch(k, |s.calls|, None)],
            s.calls + [Call(k, Owns(|s.fetches|))])
  }

  /** The wrapped function has finished: store a good value, then settle the promise. */
  function SettleStep(s: State, p: nat, o: Outcome, now: real, later: real): State
    requires p < |s.fetches|
  {
    s.(cache := if o.Good? then Cache.SetStep(s.cache, s.fetches[p].key, o.value, now, later) else s.cache,
       fetches := s.fetches[p := s.fetches[p].(settled := Some(o))])
  }

  /** The awaited promise has settled; an owner also removes the pending entry of its key. */
  function ResumeStep(s: State, c: nat): State
    requires c < |s.calls| && (s.calls[c].phase.Owns? || s.calls[c].phase.Joined?)
    requires s.calls[c].phase.fetch < |s.fetches| && s.fetches[s.calls[c].phase.fetch].settled.Some?
  {
    var x := s.calls[c];
    var p := x.phase.fetch;
    s.(cache := if x.phase.Owns? then s.cache.(pending := s.cache.pending - {x.key}) else s.cache,
       calls := s.calls[c := x.(phase := Done(p, s.fetches[p].settled.value))])
  }

  predicate Enabled(s: State, a: Action) {
    match a
    case Settle(p, _, _, _) => p < |s.fetches| && s.fetches[p].settled.None?
    case Resume(c) =>
      && c < |s.calls| && (s.calls[c].phase.Owns? || s.calls[c].phase.Joined?)
      && s.calls[c].phase.fetch < |s.fetches| && s.fetches[s.calls[c].phase.fetch].settled.Some?
    case Tune(op) => op.SetTtl? || op.SetMaxSize?
    case _ => true
  }

  function Step(s: State, a: Action): State {
    if !Enabled(s, a) then s else
    match a
    case Invoke(k, now) => InvokeStep(s, k, now)
    case Settle(p, o, now, later) => SettleStep(s, p, o, now, later)
    case Resume(c) => ResumeStep(s, c)
    case Clear => s.(cache := Cache.ClearStep(s.cache))
    case Tune(op) => s.(cache := Cache.Step(s.cache, Cache.At(op, 0.0, 0.0)))
  }

  function Run(s: State, acts: seq<Action>): State
    decreases acts
  {
    if acts == [] then s else Run(Step(s, acts[0]), acts[1..])
  }

  // ----- What holds whatever is cleared and when -----

  /** Calls and fetches refer to each other properly, and finished calls report their fetch's outcome. */
  ghost predicate Linked(s: State) {
    && (forall p :: 0 <= p < |s.fetches| ==> FetchOk(s, p))
    && (forall c :: 0 <= c < |s.calls| ==> CallOk(s, c))
  }

  ghost predicate FetchOk(s: State, p: nat)
    requires p < |s.fetches|
  {
    var f := s.fetches[p];
    && f.owner < |s.calls| && s.calls[f.owner].key == f.key
    && (s.calls[f.owner].phase == Owns(p) || (s.calls[f.owner].phase.Done? && s.calls[f.owner].phase.fetch == p))
    && (f.settled.None? ==> s.calls[f.owner].phase == Owns(p))
  }

  ghost predicate CallOk(s: State, c: nat)
    requires c < |s.calls|
  {
    var x := s.calls[c];
    match x.phase
    case Owns(p) => p < |s.fetches| && s.fetches[p].key == x.key && s.fetches[p].owner == c
    case Joined(p) => p < |s.fetches| && s.fetches[p].key == x.key
    case Done(p, o) => p < |s.fetches| && s.fetches[p].key == x.key && s.fetches[p].settled == Some(o)
    case Hit(v) => Fetched(s.fetches, x.key, v)
  }

  /** Some fetch of this key came to this value. */
  ghost predicate Fetched(fs: seq<Fetch>, k: string, v: Cache.Value) {
    exists p :: 0 <= p < |fs| && fs[p].key == k && fs[p].settled == Some(Good(v))
  }

  /** Nothing is stored but good outcomes of fetches of the same key. */
  ghost predicate StoreOk(s: State) {
    forall e :: e in s.cache.store ==> Fetched(s.fetches, e.key, e.value)
  }

  /** Pending promises are fetches of their key. */
  ghost predicate PendingOk(s: State) {
    forall k :: k in s.cache.pending ==>
      s.cache.pending[k] < |s.fetches| && s.fetches[s.cache.pending[k]].key == k
  }

  ghost predicate Sound(s: State) { Linked(s) && StoreOk(s) && PendingOk(s) }

  lemma FetchedStays(fs: seq<Fetch>, fs': seq<Fetch>)
    requires |fs| <= |fs'|
    requires forall p :: 0 <= p < |fs| ==> fs'[p].key == fs[p].key && (fs[p].settled.Some? ==> fs'[p] == fs[p])
    ensures forall k, v :: Fetched(fs, k, v) ==> Fetched(fs', k, v)
  {
    forall k, v | Fetched(fs, k, v) ensures Fetched(fs', k, v) {
      var p :| 0 <= p < |fs| && fs[p].key == k && fs[p].settled == Some(Good(v));
      assert fs'[p] == fs[p];
    }
  }

  lemma CacheOnlySound(s: State, cache: Cache.State)
    requires Sound(s)
    requires forall e :: e in cache.store ==> e in s.cache.store
    requires forall k :: k in cache.pending ==> k in s.cache.pending && cache.pending[k] == s.cache.pending[k]
    ensures Sound(s.(cache := cache))
  {
    var s' := s.(cache := cache);
    forall c | 0 <= c < |s.calls| ensures CallOk(s', c) { assert CallOk(s, c); }
    forall p | 0 <= p < |s.fetches| ensures FetchOk(s', p) { assert FetchOk(s, p); }
  }

  /** A call that is served or joins a fetch. */
  lemma PushCallSound(s: State, x: Call)
    requires Sound(s)
    requires match x.phase
      case Hit(v) => Fetched(s.fetches, x.key, v)
      case Joined(p) => p < |s.fetches| && s.fetches[p].key == x.key
      case _ => false
    ensures Sound(s.(calls := s.calls + [x]))
  {
    var s' := s.(calls := s.calls + [x]);
    forall c | 0 <= c < |s'.calls| ensures CallOk(s', c) {
      if c < |s.calls| { assert CallOk(s, c); }
    }
    forall p | 0 <= p < |s'.fetches| ensures FetchOk(s', p) { assert FetchOk(s, p); }
  }

  /** A call that starts a fetch. */
  lemma PushFetchSound(s: State, k: string)
    requires Sound(s)
    ensures Sound(State(s.cache.(pending := s.cache.pending[k := |s.fetches|]),
                        s.fetches + [Fetch(k, |s.calls|, None)], s.calls + [Call(k, Owns(|s.fetches|))]))
  {
    var s' := State(s.cache.(pending := s.cache.pending[k := |s.fetches|]),
                    s.fetches + [Fetch(k, |s.calls|, None)], s.calls + [Call(k, Owns(|s.fetches|))]);
    FetchedStays(s.fetches, s'.fetches);
    forall c | 0 <= c < |s'.calls| ensures CallOk(s', c) {
      if c < |s.calls| { assert CallOk(s, c); }
    }
    forall p | 0 <= p < |s'.fetches| ensures FetchOk(s', p) {
      if p < |s.fetches| { assert FetchOk(s, p); }
    }
  }

  lemma InvokeSound(s: State, k: string, now: real)
    requires Sound(s)
    ensures Sound(InvokeStep(s, k, now))
  {
    var (hit, cache) := Cache.GetStep(s.cache, k, now);
    assert forall e :: e in cache.store ==> e in s.cache.store;
    CacheOnlySound(s, cache);
    var s1 := s.(cache := cache);
    if hit.Some? && hit.value != Cache.Null {
      var e := s.cache.store[Cache.Find(s.cache.store, k)];
      assert e in s.cache.store && e.key == k && e.value == hit.value;
      PushCallSound(s1, Call(k, Hit(hit.value)));
    } else if k in cache.pending {
      PushCallSound(s1, Call(k, Joined(cache.pending[k])));
    } else {
      PushFetchSound(s1, k);
    }
  }

  lemma SetStores(s: Cache.State, k: string, v: Cache.Value, now: real, later: real)
    ensures forall e :: e in Cache.SetStep(s, k, v, now, later).store ==> e in s.store || (e.key == k && e.value == v)
    ensures Cache.SetStep(s, k, v, now, later).pending == s.pending
  {
    var w := Cache.Write(s, k, v, now);
    Cache.LiveEntriesSub(w.store, later);
    forall e | e in w.store ensures e in s.store || (e.key == k && e.value == v) {
      PutStores(s.store, Cache.Entry(k, v, now + s.ttlMs));
    }
  }

  lemma PutStores(store: seq<Cache.Entry>, x: Cache.Entry)
    ensures forall e :: e in Cache.Put(store, x) ==> e in store || e == x
  {}

  lemma SettleSound(s: State, p: nat, o: Outcome, now: real, later: real)
    requires Sound(s) && p < |s.fetches| && s.fetches[p].settled.None?
    ensures Sound(SettleStep(s, p, o, now, later))
  {
    var s' := SettleStep(s, p, o, now, later);
    FetchedStays(s.fetches, s'.fetches);
    if o.Good? { SetStores(s.cache, s.fetches[p].key, o.value, now, later); }
    assert s'.fetches[p].settled == Some(o);
    forall c | 0 <= c < |s'.calls| ensures CallOk(s', c) {
      assert CallOk(s, c);
    }
    forall q | 0 <= q < |s'.fetches| ensures FetchOk(s', q) {
      assert FetchOk(s, q);
    }
  }

  lemma ResumeSound(s: State, c: nat)
    requires Sound(s) && Enabled(s, Resume(c))
    ensures Sound(ResumeStep(s, c))
  {
    var s' := ResumeStep(s, c);
    assert CallOk(s, c);
    forall d | 0 <= d < |s'.calls| ensures CallOk(s', d) {
      assert CallOk(s, d);
    }
    forall q | 0 <= q < |s'.fetches| ensures FetchOk(s', q) {
      assert FetchOk(s, q);
    }
  }

  lemma StepSound(s: State, a: Action)
    requires Sound(s)
    ensures Sound(Step(s, a))
  {
    if Enabled(s, a) {
      match a
      case Invoke(k, now) => InvokeSound(s, k, now);
      case Settle(p, o, now, later) => SettleSound(s, p, o, now, later);
      case Resume(c) => ResumeSound(s, c);
      case Clear => CacheOnlySound(s, Cache.ClearStep(s.cache));
      case Tune(op) => CacheOnlySound(s, Cache.Step(s.cache, Cache.At(op, 0.0, 0.0)));
    }
  }

  // ----- Single flight -----

  /**
   For one key: the pending entry is the fetch of the one caller that has not run its `finally`
   block, and a fetch still unfinished is that fetch.
   */
  ghost predicate OneFlight(s: State, k: string) {
    && (k in s.cache.pending ==>
          var p := s.cache.pending[k];
          p < |s.fetches| && s.fetches[p].owner < |s.calls| && s.calls[s.fetches[p].owner].phase == Owns(p))
    && (forall c :: 0 <= c < |s.calls| && s.calls[c].key == k && s.calls[c].phase.Owns? ==>
          k in s.cache.pending && s.cache.pending[k] == s.calls[c].phase.fetch)
  }

  /** `clear()` comes only while nobody is fetching `k`. */
  predicate ClearsQuietly(s: State, a: Action, k: string) {
    a.Clear? ==> k !in s.cache.pending
  }

  predicate RunsQuietly(s: State, acts: seq<Action>, k: string)
    decreases acts
  {
    acts == [] || (ClearsQuietly(s, acts[0], k) && RunsQuietly(Step(s, acts[0]), acts[1..], k))
  }

  lemma InvokeOneFlight(s: State, key: string, now: real, k: string)
    requires Sound(s) && OneFlight(s, k)
    ensures OneFlight(InvokeStep(s, key, now), k)
  {
    assert Cache.GetStep(s.cache, key, now).1.pending == s.cache.pending;
    assert forall c :: 0 <= c < |s.calls| ==> CallOk(s, c);
    assert forall p :: 0 <= p < |s.fetches| ==> FetchOk(s, p);
  }

  lemma SettleOneFlight(s: State, p: nat, o: Outcome, now: real, later: real, k: string)
    requires Sound(s) && OneFlight(s, k) && p < |s.fetches|
    ensures OneFlight(SettleStep(s, p, o, now, later), k)
  {
    if o.Good? { SetStores(s.cache, s.fetches[p].key, o.value, now, later); }
  }

  lemma ResumeOneFlight(s: State, c: nat, k: string)
    requires Sound(s) && OneFlight(s, k) && Enabled(s, Resume(c))
    ensures OneFlight(ResumeStep(s, c), k)
  {
    assert CallOk(s, c);
    forall d | 0 <= d < |s.calls| && d != c && s.calls[d].key == k && s.calls[d].phase.Owns?
      ensures s.calls[c].phase.Owns? ==> s.calls[c].key != k
    {
      assert CallOk(s, d);
    }
    if k in s.cache.pending {
      assert FetchOk(s, s.cache.pending[k]);
    }
  }

  lemma StepOneFlight(s: State, a: Action, k: string)
    requires Sound(s) && OneFlight(s, k) && ClearsQuietly(s, a, k)
    ensures OneFlight(Step(s, a), k)
  {
    if Enabled(s, a) {
      match a
      case Invoke(key, now) => InvokeOneFlight(s, key, now, k);
      case Settle(p, o, now, later) => SettleOneFlight(s, p, o, now, later, k);
      case Resume(c) => ResumeOneFlight(s, c, k);
      case Clear =>
      case Tune(_) =>
    }
  }

  lemma {:induction false} RunSound(s: State, acts: seq<Action>)
    requires Sound(s)
    ensures Sound(Run(s, acts))
    decreases acts
  {
    if acts != [] {
      StepSound(s, acts[0]);
      RunSound(Step(s, acts[0]), acts[1..]);
    }
  }

  lemma {:induction false} RunOneFlight(s: State, acts: seq<Action>, k: string)
    requires Sound(s) && OneFlight(s, k) && RunsQuietly(s, acts, k)
    ensures Sound(Run(s, acts)) && OneFlight(Run(s, acts), k)
    decreases acts
  {
    if acts != [] {
      StepSound(s, acts[0]);
      StepOneFlight(s, acts[0], k);
      RunOneFlight(Step(s, acts[0]), acts[1..], k);
    }
  }

  /**
   In every interleaving in which `clear()` does not hit `k` in flight: at most one fetch of `k` is
   unfinished, and `pending` has `k` exactly while the caller that started a fetch has not run its
   `finally` block.
   */
  lemma {:induction false} AtMostOneFetch(ttlSeconds: real, maxSize: int, acts: seq<Action>, k: string)
    requires RunsQuietly(Init(ttlSeconds, maxSize), acts, k)
    ensures var s := Run(Init(ttlSeconds, maxSize), acts);
      && (forall p, q :: 0 <= p < |s.fetches| && 0 <= q < |s.fetches| && Running(s, p, k) && Running(s, q, k) ==> p == q)
      && (k in s.cache.pending <==>
          exists c :: 0 <= c < |s.calls| && s.calls[c].key == k && s.calls[c].phase.Owns?)
  {
    RunOneFlight(Init(ttlSeconds, maxSize), acts, k);
    var s := Run(Init(ttlSeconds, maxSize), acts);
    forall p | 0 <= p < |s.fetches| && Running(s, p, k) ensures k in s.cache.pending && s.cache.pending[k] == p {
      assert FetchOk(s, p);
    }
    if k in s.cache.pending {
      var p := s.cache.pending[k];
      assert FetchOk(s, p) && s.calls[s.fetches[p].owner].phase.Owns?;
    }
  }

  predicate Running(s: State, p: nat, k: string)
    requires p < |s.fetches|
  {
    s.fetches[p].key == k && s.fetches[p].settled.None?
  }

  /** In every interleaving, clears included: only good outcomes are ever stored or served from the store. */
  lemma {:induction false} OnlyGoodValuesServed(ttlSeconds: real, maxSize: int, acts: seq<Action>)
    ensures var s := Run(Init(ttlSeconds, maxSize), acts);
      && (forall e :: e in s.cache.store ==> Fetched(s.fetches, e.key, e.value))
      && (forall c :: 0 <= c < |s.calls| && s.calls[c].phase.Hit? ==>
            Fetched(s.fetches, s.calls[c].key, s.calls[c].phase.value))
  {
    RunSound(Init(ttlSeconds, maxSize), acts);
    var s := Run(Init(ttlSeconds, maxSize), acts);
    forall c | 0 <= c < |s.calls| && s.calls[c].phase.Hit?
      ensures Fetched(s.fetches, s.calls[c].key, s.calls[c].phase.value)
    {
      assert CallOk(s, c);
    }
  }

  /** The fetch a call waits for or has waited for. */
  function FetchOf(x: Call): Option<nat> {
    match x.phase
    case Owns(p) => Some(p)
    case Joined(p) => Some(p)
    case Done(p, _) => Some(p)
    case Hit(_) => None
  }

  lemma {:induction false} CallKeepsFetch(s: State, acts: seq<Action>, c: nat)
    requires Sound(s) && c < |s.calls|
    ensures var s' := Run(s, acts);
      && Sound(s') && c < |s'.calls| && s'.calls[c].key == s.calls[c].key && FetchOf(s'.calls[c]) == FetchOf(s.calls[c])
    decreases acts
  {
    if acts != [] {
      StepSound(s, acts[0]);
      CallKeepsFetch(Step(s, acts[0]), acts[1..], c);
    }
  }

  /** Every caller, owner or joiner, ends with the outcome of the fetch it started or joined. */
  lemma {:induction false} JoinersShareOutcome(s: State, acts: seq<Action>, c: nat)
    requires Sound(s) && c < |s.calls| && (s.calls[c].phase.Owns? || s.calls[c].phase.Joined?)
    requires c < |Run(s, acts).calls| && Run(s, acts).calls[c].phase.Done?
    ensures var s', p := Run(s, acts), s.calls[c].phase.fetch;
      p < |s'.fetches| && s'.fetches[p].key == s.calls[c].key
      && s'.calls[c].phase.fetch == p && s'.fetches[p].settled == Some(s'.calls[c].phase.outcome)
  {
    CallKeepsFetch(s, acts, c);
    assert CallOk(Run(s, acts), c);
  }

  // ----- What is cached is served -----

  /** The store has an unexpired value for `k`. */
  predicate Serves(s: State, k: string, now: real, v: Cache.Value) {
    exists e :: e in s.cache.store && e.key == k && e.value == v && now <= e.expiry
  }

  /** The new call's phase, and that nothing else of calls and fetches has changed but for `started`. */
  ghost predicate Adds(s: State, s': State, k: string, phase: Phase, started: seq<Fetch>) {
    && s'.calls == s.calls + [Call(k, phase)] && s'.fetches == s.fetches + started
    && s'.cache.pending == (if started == [] then s.cache.pending else s.cache.pending[k := |s.fetches|])
  }

  lemma FoundEntry(s: State, k: string, now: real, v: Cache.Value)
    requires Cache.DistinctKeys(s.cache.store)
    ensures Serves(s, k, now, v) <==> Cache.GetStep(s.cache, k, now).0 == Some(v)
  {
    var i := Cache.Find(s.cache.store, k);
    if i < |s.cache.store| { assert s.cache.store[i] in s.cache.store; }
    if e :| e in s.cache.store && e.key == k && e.value == v && now <= e.expiry {
      var j :| 0 <= j < |s.cache.store| && s.cache.store[j] == e;
    }
  }

  /**
   What a call does: with an unexpired value other than null in the store it ends at once with that
   value, fetching nothing; else it joins the fetch in `pending`; else, and only then, it starts one.
   */
  lemma InvokeExactly(s: State, k: string, now: real)
    requires Cache.DistinctKeys(s.cache.store)
    ensures var s' := Step(s, Invoke(k, now));
      && (forall v :: Serves(s, k, now, v) && v != Cache.Null ==> Adds(s, s', k, Hit(v), []))
      && ((forall v :: Serves(s, k, now, v) ==> v == Cache.Null) ==>
            if k in s.cache.pending then Adds(s, s', k, Joined(s.cache.pending[k]), [])
            else Adds(s, s', k, Owns(|s.fetches|), [Fetch(k, |s.calls|, None)]))
      && (|s'.fetches| > |s.fetches| <==>
            (forall v :: Serves(s, k, now, v) ==> v == Cache.Null) && k !in s.cache.pending)
  {
    forall v ensures Serves(s, k, now, v) <==> Cache.GetStep(s.cache, k, now).0 == Some(v) {
      FoundEntry(s, k, now, v);
    }
    assert s.fetches + [] == s.fetches;
    var hit := Cache.GetStep(s.cache, k, now).0;
    if hit.Some? { assert Serves(s, k, now, hit.value); }
  }

  /** What an action does to the cache, as an operation of the cache. */
  function Events(s: State, a: Action): seq<Cache.Event> {
    if !Enabled(s, a) then [] else
    match a
    case Invoke(k, now) => [Cache.At(Cache.Get(k), now, now)]
    case Settle(p, o, now, later) => if o.Good? then [Cache.At(Cache.Set(s.fetches[p].key, o.value), now, later)] else []
    case Resume(_) => []
    case Clear => [Cache.At(Cache.Clear, 0.0, 0.0)]
    case Tune(op) => [Cache.At(op, 0.0, 0.0)]
  }

  function EventsOf(s: State, acts: seq<Action>): seq<Cache.Event>
    decreases acts
  {
    if acts == [] then [] else Events(s, acts[0]) + EventsOf(Step(s, acts[0]), acts[1..])
  }

  /** The cache without its promises. */
  function Plain(c: Cache.State): Cache.State { c.(pending := map[]) }

  lemma {:induction false} StepIsEvents(s: State, a: Action)
    ensures Plain(Step(s, a).cache) == Cache.Run(Plain(s.cache), Events(s, a))
  {
    var es := Events(s, a);
    if es != [] { assert es[1..] == []; }
  }

  lemma {:induction false} CacheRunConcat(c: Cache.State, a: seq<Cache.Event>, b: seq<Cache.Event>)
    ensures Cache.Run(c, a + b) == Cache.Run(Cache.Run(c, a), b)
    decreases a
  {
    if a == [] {
      assert a + b == b;
    } else {
      assert (a + b)[0] == a[0] && (a + b)[1..] == a[1..] + b;
      CacheRunConcat(Cache.Step(c, a[0]), a[1..], b);
    }
  }

  /** A run does to the cache what its cache operations do in order. */
  lemma {:induction false} RunIsEvents(s: State, acts: seq<Action>)
    ensures Plain(Run(s, acts).cache) == Cache.Run(Plain(s.cache), EventsOf(s, acts))
    decreases acts
  {
    if acts != [] {
      StepIsEvents(s, acts[0]);
      RunIsEvents(Step(s, acts[0]), acts[1..]);
      CacheRunConcat(Plain(s.cache), Events(s, acts[0]), EventsOf(Step(s, acts[0]), acts[1..]));
    }
  }

  /** The cache of every run has one entry a key, and no more than its cap. */
  lemma {:induction false} RunCacheOk(ttlSeconds: real, maxSize: int, acts: seq<Action>)
    ensures CacheOk(Run(Init(ttlSeconds, maxSize), acts).cache)
  {
    var s := Init(ttlSeconds, maxSize);
    RunIsEvents(s, acts);
    Cache.RunAgrees(s.cache, Cache.Ledger(map[], ttlSeconds * 1000.0), EventsOf(s, acts));
  }

  /** All calls of `k` since `s` have been served `v`, and none of them has started a fetch. */
  ghost predicate Served(s: State, s': State, k: string, v: Cache.Value) {
    && |s.calls| <= |s'.calls| && |s.fetches| <= |s'.fetches|
    && (forall c :: |s.calls| <= c < |s'.calls| && s'.calls[c].key == k ==> s'.calls[c].phase == Hit(v))
    && (forall p :: |s.fetches| <= p < |s'.fetches| ==> s'.fetches[p].key != k)
  }

  /** What has been served stays so, and fetches keep their keys. */
  ghost predicate Grows(s: State, s': State) {
    && |s.calls| <= |s'.calls| && |s.fetches| <= |s'.fetches|
    && (forall c :: 0 <= c < |s.calls| ==>
          s'.calls[c].key == s.calls[c].key && (s.calls[c].phase.Hit? ==> s'.calls[c] == s.calls[c]))
    && (forall p :: 0 <= p < |s.fetches| ==> s'.fetches[p].key == s.fetches[p].key)
  }

  lemma StepGrows(s: State, a: Action)
    ensures Grows(s, Step(s, a))
  {}

  lemma {:induction false} RunGrows(s: State, acts: seq<Action>)
    ensures Grows(s, Run(s, acts))
    decreases acts
  {
    if acts != [] {
      StepGrows(s, acts[0]);
      RunGrows(Step(s, acts[0]), acts[1..]);
    }
  }

  lemma ServedJoin(s: State, s1: State, s2: State, k: string, v: Cache.Value)
    requires Served(s, s1, k, v) && Served(s1, s2, k, v) && Grows(s1, s2)
    ensures Served(s, s2, k, v)
  {}

  /** The keys behind `k`, if it is stored. */
  ghost function KeysBehind(store: seq<Cache.Entry>, k: string): set<string> {
    if Cache.Holds(store, k) then Cache.Behind(store, k) else {}
  }

  /**
   The run neither clears the cache nor writes `k`, keeps the cap at `cap` or more, ends by `expiry`, and
   with the keys behind `k` those that come in are fewer than `cap`.
   */
  ghost predicate Spared(s: State, acts: seq<Action>, k: string, expiry: real, cap: int) {
    && (forall i :: 0 <= i < |EventsOf(s, acts)| ==> Cache.Spares(EventsOf(s, acts)[i], k, cap, expiry))
    && |KeysBehind(s.cache.store, k) + Cache.Inserted(Plain(s.cache), EventsOf(s, acts), k)| < cap <= s.cache.maxSize
  }

  /** The store holds the entry `x` of `k`. */
  ghost predicate Cached(s: State, k: string, x: Cache.Entry) {
    && Cache.DistinctKeys(s.cache.store)
    && Cache.Holds(s.cache.store, k) && Cache.EntryOf(s.cache.store, k) == x
  }

  lemma StepServes(s: State, a: Action, k: string, x: Cache.Entry)
    requires Cached(s, k, x) && x.value != Cache.Null && (a.Invoke? && a.key == k ==> a.now <= x.expiry)
    ensures Served(s, Step(s, a), k, x.value)
  {
    if a.Invoke? && a.key == k {
      assert x in s.cache.store && Serves(s, k, a.now, x.value);
      InvokeExactly(s, k, a.now);
    }
  }

  lemma {:induction false} StepKeepsCached(s: State, acts: seq<Action>, k: string, x: Cache.Entry, cap: int)
    requires acts != [] && Cached(s, k, x) && Spared(s, acts, k, x.expiry, cap)
    ensures Cached(Step(s, acts[0]), k, x) && Spared(Step(s, acts[0]), acts[1..], k, x.expiry, cap)
  {
    var es, rest, c := Events(s, acts[0]), EventsOf(Step(s, acts[0]), acts[1..]), Plain(s.cache);
    StepIsEvents(s, acts[0]);
    forall i | 0 <= i < |rest| ensures Cache.Spares(rest[i], k, cap, x.expiry) {
      assert EventsOf(s, acts)[|es| + i] == rest[i];
    }
    if es == [] {
      assert es + rest == rest;
    } else {
      assert (es + rest)[0] == es[0] && (es + rest)[1..] == rest && es[1..] == [];
      EventKeepsCached(c, es[0], rest, k, x, cap);
    }
  }

  lemma {:induction false} EventKeepsCached(
    c: Cache.State, e: Cache.Event, rest: seq<Cache.Event>, k: string, x: Cache.Entry, cap: int)
    requires Cache.DistinctKeys(c.store) && Cache.Holds(c.store, k) && Cache.EntryOf(c.store, k) == x
    requires Cache.Spares(e, k, cap, x.expiry)
    requires |Cache.Behind(c.store, k) + (Cache.Arrives(c, e, k) + Cache.Inserted(Cache.Step(c, e), rest, k))| < cap
    requires cap <= c.maxSize
    ensures var c1 := Cache.Step(c, e);
      && Cache.DistinctKeys(c1.store) && Cache.Holds(c1.store, k) && Cache.EntryOf(c1.store, k) == x
      && |Cache.Behind(c1.store, k) + Cache.Inserted(c1, rest, k)| < cap <= c1.maxSize
  {
    var c1, first := Cache.Step(c, e), Cache.Arrives(c, e, k);
    var later := Cache.Inserted(c1, rest, k);
    Cache.Regroup(Cache.Behind(c.store, k), first, later);
    Cache.Fewer(Cache.Behind(c.store, k) + first, Cache.Behind(c.store, k) + first + later);
    Cache.StepSpares(c, e, k, cap);
    Cache.StepDistinct(c, e);
    Cache.Fewer(Cache.Behind(c1.store, k) + later, Cache.Behind(c.store, k) + first + later);
  }

  /** As long as an entry stays cached, every call of its key is served its value. */
  lemma {:induction false} ServedWhileCached(s: State, acts: seq<Action>, k: string, x: Cache.Entry, cap: int)
    requires Cached(s, k, x) && Spared(s, acts, k, x.expiry, cap) && x.value != Cache.Null
    ensures Served(s, Run(s, acts), k, x.value)
    decreases acts
  {
    if acts != [] {
      if acts[0].Invoke? { assert EventsOf(s, acts)[0] == Events(s, acts[0])[0]; }
      StepServes(s, acts[0], k, x);
      StepKeepsCached(s, acts, k, x, cap);
      ServedWhileCached(Step(s, acts[0]), acts[1..], k, x, cap);
      RunGrows(Step(s, acts[0]), acts[1..]);
      ServedJoin(s, Step(s, acts[0]), Run(s, acts), k, x.value);
    }
  }

  /** In `s` a fetch of `x.key` comes to `x.value`, which leads to `s1`. */
  ghost predicate Settles(s: State, p: nat, x: Cache.Entry, now: real, later: real, s1: State) {
    && Enabled(s, Settle(p, Good(x.value), now, later)) && s1 == Step(s, Settle(p, Good(x.value), now, later))
    && x.key == s.fetches[p].key && x.expiry == now + s.cache.ttlMs && later <= x.expiry
  }

  ghost predicate CacheOk(c: Cache.State) {
    Cache.DistinctKeys(c.store) && (|c.store| == 0 || |c.store| <= c.maxSize)
  }

  lemma {:induction false} SettleCaches(s: State, p: nat, x: Cache.Entry, now: real, later: real, s1: State)
    requires CacheOk(s.cache) && Settles(s, p, x, now, later, s1) && s1.cache.maxSize > 0
    ensures Cached(s1, x.key, x)
  {
    Cache.SetStore(s.cache, x.key, x.value, now, later);
    Cache.WriteStored(s.cache, x.key, x.value, now, later);
  }

  /**
   What the cache is for, in every run: once a fetch has come to a value other than null, every call
   of its key gets that value and starts no fetch, until the value expires, is replaced by that of
   another fetch or cleared, or as many other keys as the cap stand behind it or come in.
   */
  lemma {:induction false} ServedUntilExpiry(
    ttlSeconds: real, maxSize: int, before: seq<Action>, s: State, p: nat, x: Cache.Entry, now: real, later: real,
    s1: State, acts: seq<Action>, cap: int)
    requires s == Run(Init(ttlSeconds, maxSize), before) && Settles(s, p, x, now, later, s1) && x.value != Cache.Null
    requires Spared(s1, acts, x.key, x.expiry, cap)
    ensures Served(s1, Run(s1, acts), x.key, x.value)
  {
    RunCacheOk(ttlSeconds, maxSize, before);
    SettleCaches(s, p, x, now, later, s1);
    ServedWhileCached(s1, acts, x.key, x, cap);
  }

  // ----- What a clear in flight breaks -----

  predicate ClearFree(acts: seq<Action>) { forall i :: 0 <= i < |acts| ==> !acts[i].Clear? }

  predicate TwoRunning(s: State, k: string) {
    exists p, q :: 0 <= p < q < |s.fetches| && Running(s, p, k) && Running(s, q, k)
  }

  /** After a `clear()`, the very next caller of `k` starts a second concurrent fetch exactly if one was running. */
  lemma ClearDuplicatesExactly(s: State, k: string, now: real)
    requires Sound(s) && OneFlight(s, k)
    ensures TwoRunning(Step(Step(s, Clear), Invoke(k, now)), k) <==> exists p :: 0 <= p < |s.fetches| && Running(s, p, k)
  {
    var s1 := Step(s, Clear);
    var s2 := Step(s1, Invoke(k, now));
    assert |s2.fetches| == |s.fetches| + 1 && Running(s2, |s.fetches|, k);
    if p, q :| 0 <= p < q < |s2.fetches| && Running(s2, p, k) && Running(s2, q, k) {
      assert Running(s, p, k);
    }
    if p :| 0 <= p < |s.fetches| && Running(s, p, k) {
      assert Running(s2, p, k);
    }
  }

  lemma {:induction false} RunOne(s: State, a: Action, rest: seq<Action>)
    ensures Run(s, [a] + rest) == Run(Step(s, a), rest)
  {
    assert ([a] + rest)[1..] == rest;
  }

  lemma {:induction false} RunThree(s: State, a: Action, b: Action, c: Action)
    ensures Run(s, [a, b, c]) == Step(Step(Step(s, a), b), c)
  {
    assert [a, b, c] == [a] + [b, c] && [b, c] == [b] + [c] && [c] == [c] + [];
    RunOne(s, a, [b, c]);
    RunOne(Step(s, a), b, [c]);
    RunOne(Step(Step(s, a), b), c, []);
  }

  /**
   A `clear()` that comes when the fetch has settled but its owner `c` has not resumed: the owner's
   `finally` removes the next fetch's pending entry, so that another one starts beside it although
   nothing was cleared since.
   */
  lemma OldOwnerUncoversNewFetch(s: State, k: string, c: nat, now: real)
    requires Sound(s) && c < |s.calls| && s.calls[c].key == k && s.calls[c].phase.Owns? && Enabled(s, Resume(c))
    ensures var acts := [Invoke(k, now), Resume(c), Invoke(k, now)];
      ClearFree(acts) && TwoRunning(Run(Step(s, Clear), acts), k)
  {
    var n := |s.fetches|;
    var s1 := Step(s, Clear);
    var s2 := Step(s1, Invoke(k, now));
    assert s2.cache.store == [] && s2.fetches == s.fetches + [Fetch(k, |s.calls|, None)];
    var s3 := Step(s2, Resume(c));
    assert s3.cache.store == [] && k !in s3.cache.pending && s3.fetches == s2.fetches;
    var s4 := Step(s3, Invoke(k, now));
    assert Running(s4, n, k) && Running(s4, n + 1, k);
    RunThree(s1, Invoke(k, now), Resume(c), Invoke(k, now));
  }

  lemma {:induction false} ClearFreeIsQuiet(s: State, acts: seq<Action>, k: string)
    requires ClearFree(acts)
    ensures RunsQuietly(s, acts, k)
    decreases acts
  {
    if acts != [] { ClearFreeIsQuiet(Step(s, acts[0]), acts[1..], k); }
  }

  lemma OneRunning(s: State, k: string)
    requires Sound(s) && OneFlight(s, k)
    ensures !TwoRunning(s, k)
  {
    forall p | 0 <= p < |s.fetches| && Running(s, p, k) ensures k in s.cache.pending && s.cache.pending[k] == p {
      assert FetchOk(s, p);
    }
  }

  lemma {:induction false} QuietClearKeepsOneFlight(s: State, k: string, acts: seq<Action>)
    requires Sound(s) && OneFlight(s, k) && k !in s.cache.pending && ClearFree(acts)
    ensures !TwoRunning(Run(Step(s, Clear), acts), k)
  {
    StepSound(s, Clear);
    StepOneFlight(s, Clear, k);
    ClearFreeIsQuiet(Step(s, Clear), acts, k);
    RunOneFlight(Step(s, Clear), acts, k);
    OneRunning(Run(Step(s, Clear), acts), k);
  }

  /**
   Exactly when a `clear()` breaks single flight: later calls, with no further clear, can bring two
   fetches of `k` to run at once if and only if `pending` held `k` when it came.
   */
  lemma ClearBreaksExactly(s: State, k: string)
    requires Sound(s) && OneFlight(s, k)
    ensures k in s.cache.pending <==> exists acts :: ClearFree(acts) && TwoRunning(Run(Step(s, Clear), acts), k)
  {
    if k in s.cache.pending {
      var p := s.cache.pending[k];
      assert FetchOk(s, p);
      if s.fetches[p].settled.None? {
        assert Running(s, p, k);
        ClearDuplicatesExactly(s, k, 0.0);
        var acts := [Invoke(k, 0.0)];
        assert acts[1..] == [];
        assert Run(Step(s, Clear), acts) == Step(Step(s, Clear), acts[0]);
        assert ClearFree(acts);
      } else {
        OldOwnerUncoversNewFetch(s, k, s.fetches[p].owner, 0.0);
      }
    }
    forall acts | ClearFree(acts) && k !in s.cache.pending ensures !TwoRunning(Run(Step(s, Clear), acts), k) {
      QuietClearKeepsOneFlight(s, k, acts);
    }
  }

  // ----- What a clear in flight lets through -----

  /** Nobody calls for `k` any more. */
  predicate CallFree(acts: seq<Action>, k: string) {
    forall i :: 0 <= i < |acts| ==> !(acts[i].Invoke? && acts[i].key == k)
  }

  predicate Stored(s: State, k: string, v: Cache.Value) {
    exists e :: e in s.cache.store && e.key == k && e.value == v
  }

  /** No fetch of `k` is running, and nothing is stored under it. */
  ghost predicate Forgotten(s: State, k: string) {
    && (forall p :: 0 <= p < |s.fetches| ==> !Running(s, p, k))
    && (forall e :: e in s.cache.store ==> e.key != k)
  }

  lemma StepForgets(s: State, a: Action, k: string)
    requires Forgotten(s, k) && !(a.Invoke? && a.key == k)
    ensures Forgotten(Step(s, a), k)
  {
    if Enabled(s, a) {
      var s' := Step(s, a);
      forall p | 0 <= p < |s'.fetches| ensures !Running(s', p, k) {
        if p < |s.fetches| { assert !Running(s, p, k); }
      }
      match a
      case Settle(p, o, now, later) =>
        assert !Running(s, p, k);
        if o.Good? { SetStores(s.cache, s.fetches[p].key, o.value, now, later); }
      case _ =>
        assert forall e :: e in s'.cache.store ==> e in s.cache.store;
    }
  }

  lemma {:induction false} RunForgets(s: State, acts: seq<Action>, k: string)
    requires Forgotten(s, k) && CallFree(acts, k)
    ensures Forgotten(Run(s, acts), k)
    decreases acts
  {
    if acts != [] {
      StepForgets(s, acts[0], k);
      RunForgets(Step(s, acts[0]), acts[1..], k);
    }
  }

  /** A fetch of before the clear settles after it. */
  lemma LateSettle(s: State, p: nat, k: string, v: Cache.Value)
    requires p < |s.fetches| && Running(s, p, k)
    ensures Stored(Step(Step(Step(s, Clear), Tune(Cache.SetMaxSize(1))), Settle(p, Good(v), 0.0, 0.0)), k, v)
  {
    var s2 := Step(Step(s, Clear), Tune(Cache.SetMaxSize(1)));
    var x := Cache.Entry(k, v, 0.0 + s2.cache.ttlMs);
    assert s2.cache.store == [] && s2.cache.writeCount == 0 && s2.cache.maxSize == 1 && s2.fetches == s.fetches;
    assert Cache.Put([], x) == [x] && Cache.Newest([x], 1) == [x];
    assert Cache.Write(s2.cache, k, v, 0.0).store == [x];
    assert x in Step(s2, Settle(p, Good(v), 0.0, 0.0)).cache.store;
  }

  lemma {:induction false} RunTwo(s: State, a: Action, b: Action)
    ensures Run(s, [a, b]) == Step(Step(s, a), b)
  {
    assert [a, b] == [a] + [b] && [b] == [b] + [];
    RunOne(s, a, [b]);
    RunOne(Step(s, a), b, []);
  }

  /**
   A `clear()` lets a value fetched before it back into the store, with no further call for `k`,
   exactly if a fetch of `k` was running when it came.
   */
  lemma ClearLetsThroughExactly(s: State, k: string, v: Cache.Value)
    ensures (exists acts :: ClearFree(acts) && CallFree(acts, k) && Stored(Run(Step(s, Clear), acts), k, v))
            <==> exists p :: 0 <= p < |s.fetches| && Running(s, p, k)
  {
    var s1 := Step(s, Clear);
    if p :| 0 <= p < |s.fetches| && Running(s, p, k) {
      var acts := [Tune(Cache.SetMaxSize(1)), Settle(p, Good(v), 0.0, 0.0)];
      LateSettle(s, p, k, v);
      RunTwo(s1, acts[0], acts[1]);
      assert acts == [acts[0], acts[1]];
      assert ClearFree(acts) && CallFree(acts, k);
    } else {
      assert forall p :: 0 <= p < |s1.fetches| ==> Running(s1, p, k) == Running(s, p, k);
      forall acts | CallFree(acts, k) ensures !Stored(Run(s1, acts), k, v) { RunForgets(s1, acts, k); }
    }
  }

  // ----- The class -----

  /** The wrapper's closure over one cache, with the promises and calls it has created. */
  class CachedMethod {
    const cache: Cache.Cache
    var fetches: seq<Fetch>
    var calls: seq<Call>

    ghost function Abs(): State
      reads this, cache
    {
      State(cache.Abs(), fetches, calls)
    }

    constructor (cache: Cache.Cache)
      ensures this.cache == cache && fetches == [] && calls == []
    {
      this.cache := cache;
      fetches, calls := [], [];
    }

    /** A call up to its first await. */
    method InvokeNow(key: string, now: real)
      modifies this, cache
      ensures Abs() == Step(old(Abs()), Invoke(key, now))
    {
      var hit := cache.Get(key, now);
      if hit.Some? && hit.value != Cache.Null {
        calls := calls + [Call(key, Hit(hit.value))];
        return;
      }
      var inFlight := cache.GetPending(key);
      if inFlight.Some? {
        calls := calls + [Call(key, Joined(inFlight.value))];
        return;
      }
      var p := |fetches|;
      fetches := fetches + [Fetch(key, |calls|, None)];
      cache.SetPending(key, p);
      calls := calls + [Call(key, Owns(p))];
    }

    /** The wrapped function has returned or thrown. */
    method SettleNow(p: nat, o: Outcome, now: real, later: real)
      requires Enabled(Abs(), Settle(p, o, now, later))
      modifies this, cache
      ensures Abs() == Step(old(Abs()), Settle(p, o, now, later))
    {
      if o.Good? {
        cache.Set(fetches[p].key, o.value, now, later);
      }
      fetches := fetches[p := fetches[p].(settled := Some(o))];
    }

    /** A caller resumes from its await. */
    method ResumeNow(c: nat) returns (o: Outcome)
      requires Enabled(Abs(), Resume(c))
      modifies this, cache
      ensures Abs() == Step(old(Abs()), Resume(c))
      ensures calls[c].phase.Done? && calls[c].phase.outcome == o
    {
      var x := calls[c];
      o := fetches[x.phase.fetch].settled.value;
      if x.phase.Owns? {
        cache.DeletePending(x.key);
      }
      calls := calls[c := x.(phase := Done(x.phase.fetch, o))];
    }
  }
}
