/**
 The TTL cache: an insertion-ordered map trimmed from its oldest end on every write, with an
 expiry sweep every `CLEANUP_INTERVAL` writes.
 */
module MemoryCache {
  import opened Common

  const CLEANUP_INTERVAL := 50

  /** A cached value; JavaScript's `null` is told apart because a reader takes it for a miss. */
  datatype Value = Null | Plain(id: int)

  datatype Entry = Entry(key: string, value: Value, expiry: real)

  /** `store` lists the entries in the map's iteration order; `pending` holds in-flight promises. */
  datatype State = State(
    store: seq<Entry>, pending: map<string, nat>, ttlMs: real, maxSize: int, writeCount: nat)

  // ----- The insertion-ordered map -----

  ghost predicate DistinctKeys(store: seq<Entry>) {
    forall i, j :: 0 <= i < j < |store| ==> store[i].key != store[j].key
  }

  /** The position of a key, or the length. */
  function Find(store: seq<Entry>, k: string): (i: nat)
    ensures i <= |store| && (i < |store| ==> store[i].key == k)
    ensures forall j :: 0 <= j < i ==> store[j].key != k
  {
    if store == [] || store[0].key == k then 0 else 1 + Find(store[1..], k)
  }

  /** `map.set`: an existing key keeps its place, a new one goes to the end. */
  function Put(store: seq<Entry>, e: Entry): seq<Entry> {
    var i := Find(store, e.key);
    if i < |store| then store[i := e] else store + [e]
  }

  function Remove(store: seq<Entry>, k: string): seq<Entry> {
    var i := Find(store, k);
    if i < |store| then store[..i] + store[i + 1..] else store
  }

  // ----- The operations -----

  function Excess(n: nat, maxSize: int): (r: nat)
    ensures r <= n
  {
    if n <= maxSize then 0 else if maxSize < 0 then n else n - maxSize
  }

  /** The newest entries that fit. */
  function Newest(store: seq<Entry>, maxSize: int): seq<Entry> { store[Excess(|store|, maxSize)..] }

  function Trim(s: State): State { s.(store := Newest(s.store, s.maxSize)) }

  function LiveEntries(store: seq<Entry>, now: real): (r: seq<Entry>)
    ensures |r| <= |store|
  {
    if store == [] then [] else
    (if now > store[0].expiry then [] else [store[0]]) + LiveEntries(store[1..], now)
  }

  function Sweep(s: State, now: real): State { s.(store := LiveEntries(s.store, now)) }

  function GetStep(s: State, k: string, now: real): (Option<Value>, State) {
    var i := Find(s.store, k);
    if i == |s.store| then (None, s)
    else if now > s.store[i].expiry then (None, s.(store := Remove(s.store, k)))
    else (Some(s.store[i].value), s)
  }

  function Write(s: State, k: string, v: Value, now: real): State {
    Trim(s.(store := Put(s.store, Entry(k, v, now + s.ttlMs))))
  }

  /** Every `CLEANUP_INTERVAL` writes the expired entries are swept out. */
  function Count(s: State, now: real): State {
    if s.writeCount + 1 >= CLEANUP_INTERVAL then Sweep(s, now).(writeCount := 0)
    else s.(writeCount := s.writeCount + 1)
  }

  /** The clock is read once for the expiry and once more if the sweep runs. */
  function SetStep(s: State, k: string, v: Value, now: real, later: real): State {
    Count(Write(s, k, v, now), later)
  }

  function ClearStep(s: State): State { s.(store := [], pending := map[], writeCount := 0) }

  datatype Op = Get(k: string) | Set(k: string, v: Value) | Clear | SetTtl(seconds: real) | SetMaxSize(size: int)

  /** An operation and the clock readings it makes. */
  datatype Event = At(op: Op, now: real, later: real)

  function Step(s: State, e: Event): State {
    match e.op
    case Get(k) => GetStep(s, k, e.now).1
    case Set(k, v) => SetStep(s, k, v, e.now, e.later)
    case Clear => ClearStep(s)
    case SetTtl(seconds) => s.(ttlMs := seconds * 1000.0)
    case SetMaxSize(size) => Trim(s.(maxSize := size))
  }

  function Run(s: State, es: seq<Event>): State
    decreases es
  {
    if es == [] then s else Run(Step(s, es[0]), es[1..])
  }

  // ----- The write ledger -----

  /** The latest write of each key since the last clear, with its expiry, and the TTL in force. */
  datatype Ledger = Ledger(writes: map<string, Entry>, ttlMs: real)

  function Log(l: Ledger, e: Event): Ledger {
    match e.op
    case Get(_) => l
    case Set(k, v) => l.(writes := l.writes[k := Entry(k, v, e.now + l.ttlMs)])
    case Clear => l.(writes := map[])
    case SetTtl(seconds) => l.(ttlMs := seconds * 1000.0)
    case SetMaxSize(_) => l
  }

  function LogAll(l: Ledger, es: seq<Event>): Ledger
    decreases es
  {
    if es == [] then l else LogAll(Log(l, es[0]), es[1..])
  }

  /** Every stored entry is the ledger's, and the size is capped. */
  ghost predicate Agrees(s: State, l: Ledger) {
    && DistinctKeys(s.store)
    && Logged(s.store, l.writes)
    && s.ttlMs == l.ttlMs
    && (|s.store| == 0 || |s.store| <= s.maxSize)
    && s.writeCount < CLEANUP_INTERVAL
  }

  lemma {:induction false} LiveEntriesSub(store: seq<Entry>, now: real)
    ensures forall e :: e in LiveEntries(store, now) <==> e in store && now <= e.expiry
    ensures DistinctKeys(store) ==> DistinctKeys(LiveEntries(store, now))
  {
    if store != [] {
      var r, rest := LiveEntries(store, now), LiveEntries(store[1..], now);
      LiveEntriesSub(store[1..], now);
      assert forall e :: e in store <==> e == store[0] || e in store[1..];
      if DistinctKeys(store) && now <= store[0].expiry {
        forall j | 0 < j < |r| ensures r[j].key != store[0].key {
          assert rest[j - 1] in rest && rest[j - 1] in store[1..];
        }
      }
    }
  }

  /** Every stored entry is the ledger's. */
  ghost predicate Logged(store: seq<Entry>, writes: map<string, Entry>) {
    forall e :: e in store ==> e.key in writes && writes[e.key] == e
  }

  lemma PutLogged(store: seq<Entry>, writes: map<string, Entry>, e: Entry)
    requires DistinctKeys(store) && Logged(store, writes)
    ensures DistinctKeys(Put(store, e)) && Logged(Put(store, e), writes[e.key := e])
  {
    var i, r := Find(store, e.key), Put(store, e);
    forall x | x in r ensures x.key in writes[e.key := e] && writes[e.key := e][x.key] == x {
      var j :| 0 <= j < |r| && r[j] == x;
      if x != e { assert store[j] == x && j != i; }
    }
  }

  lemma RemoveLogged(store: seq<Entry>, writes: map<string, Entry>, k: string)
    requires DistinctKeys(store) && Logged(store, writes)
    ensures DistinctKeys(Remove(store, k)) && Logged(Remove(store, k), writes)
  {
    var i, r := Find(store, k), Remove(store, k);
    assert forall j :: 0 <= j < |r| ==> r[j] == store[if j < i then j else j + 1];
  }

  /** A write leaves the newest entries, swept or not. */
  lemma {:induction false} SetStore(s: State, k: string, v: Value, now: real, later: real)
    ensures var kept, r := Newest(Put(s.store, Entry(k, v, now + s.ttlMs)), s.maxSize), SetStep(s, k, v, now, later);
      && (r.store == kept || r.store == LiveEntries(kept, later))
      && r.pending == s.pending && r.ttlMs == s.ttlMs && r.maxSize == s.maxSize
      && (s.writeCount < CLEANUP_INTERVAL ==> r.writeCount < CLEANUP_INTERVAL)
  {
    var w := Write(s, k, v, now);
    assert Count(w, later).store == w.store || Count(w, later).store == LiveEntries(w.store, later);
  }

  lemma TrimLogged(store: seq<Entry>, maxSize: int, writes: map<string, Entry>)
    requires DistinctKeys(store) && Logged(store, writes)
    ensures var r := Newest(store, maxSize); DistinctKeys(r) && Logged(r, writes) && (|r| == 0 || |r| <= maxSize)
  {
    assert forall x :: x in Newest(store, maxSize) ==> x in store;
  }

  lemma {:induction false} SweepLogged(store: seq<Entry>, now: real, writes: map<string, Entry>)
    requires DistinctKeys(store) && Logged(store, writes)
    ensures DistinctKeys(LiveEntries(store, now)) && Logged(LiveEntries(store, now), writes)
  {
    LiveEntriesSub(store, now);
  }

  lemma SetAgrees(s: State, l: Ledger, k: string, v: Value, now: real, later: real)
    requires Agrees(s, l)
    ensures Agrees(SetStep(s, k, v, now, later), l.(writes := l.writes[k := Entry(k, v, now + l.ttlMs)]))
  {
    var x := Entry(k, v, now + s.ttlMs);
    PutLogged(s.store, l.writes, x);
    TrimLogged(Put(s.store, x), s.maxSize, l.writes[k := x]);
    SweepLogged(Newest(Put(s.store, x), s.maxSize), later, l.writes[k := x]);
    SetStore(s, k, v, now, later);
  }

  lemma StepAgrees(s: State, l: Ledger, e: Event)
    requires Agrees(s, l)
    ensures Agrees(Step(s, e), Log(l, e))
  {
    match e.op
    case Get(k) => RemoveLogged(s.store, l.writes, k);
    case Set(k, v) => SetAgrees(s, l, k, v, e.now, e.later);
    case Clear =>
    case SetTtl(_) =>
    case SetMaxSize(size) => TrimLogged(s.store, size, l.writes);
  }

  lemma {:induction false} RunAgrees(s: State, l: Ledger, es: seq<Event>)
    requires Agrees(s, l)
    ensures Agrees(Run(s, es), LogAll(l, es))
    decreases es
  {
    if es != [] {
      StepAgrees(s, l, es[0]);
      RunAgrees(Step(s, es[0]), Log(l, es[0]), es[1..]);
    }
  }

  function Empty(ttlSeconds: real, maxSize: int): State {
    State([], map[], ttlSeconds * 1000.0, maxSize, 0)
  }

  /**
   Soundness over any run: what `get` returns is the latest write of the key since the last
   clear, and still within the TTL in force at that write.  The size never exceeds the cap.
   */
  lemma {:induction false} GetIsLatestWrite(ttlSeconds: real, maxSize: int, es: seq<Event>, k: string, now: real)
    ensures var s := Run(Empty(ttlSeconds, maxSize), es);
      var l := LogAll(Ledger(map[], ttlSeconds * 1000.0), es);
      && (|s.store| == 0 || |s.store| <= s.maxSize)
      && (match GetStep(s, k, now).0
          case None => true
          case Some(v) => k in l.writes && l.writes[k].value == v && now <= l.writes[k].expiry)
  {
    RunAgrees(Empty(ttlSeconds, maxSize), Ledger(map[], ttlSeconds * 1000.0), es);
  }

  // ----- Nothing live is lost without cause -----

  predicate Holds(store: seq<Entry>, k: string) { Find(store, k) < |store| }

  function EntryOf(store: seq<Entry>, k: string): Entry
    requires Holds(store, k)
  {
    store[Find(store, k)]
  }

  function Keys(store: seq<Entry>): set<string> { set e | e in store :: e.key }

  /** The entries before and after the key's in the iteration order. */
  function Front(store: seq<Entry>, k: string): seq<Entry> { store[..Find(store, k)] }

  function Rear(store: seq<Entry>, k: string): seq<Entry>
    requires Holds(store, k)
  {
    store[Find(store, k) + 1..]
  }

  /** The keys that are evicted only after `k`. */
  function Behind(store: seq<Entry>, k: string): set<string>
    requires Holds(store, k)
  {
    Keys(Rear(store, k))
  }

  /** `k` keeps its entry, and of other keys at most `more` come to stand behind it. */
  ghost predicate Keeps(store: seq<Entry>, store': seq<Entry>, k: string, more: set<string>)
    requires Holds(store, k)
  {
    Holds(store', k) && EntryOf(store', k) == EntryOf(store, k) && Behind(store', k) <= Behind(store, k) + more
  }

  /** The other keys that are written. */
  function Written(es: seq<Event>, k: string): set<string> {
    if es == [] then {} else
    (if es[0].op.Set? && es[0].op.k != k then {es[0].op.k} else {}) + Written(es[1..], k)
  }

  /** A key not in the store; writing one that is there moves nothing. */
  function Newcomer(store: seq<Entry>, other: string): set<string> { if Holds(store, other) then {} else {other} }

  /** The other key that comes into the store with an event. */
  function Arrives(s: State, e: Event, k: string): set<string> {
    if e.op.Set? && e.op.k != k then Newcomer(s.store, e.op.k) else {}
  }

  /** The other keys that come into the store during a run, each counted once. */
  function Inserted(s: State, es: seq<Event>, k: string): set<string>
    decreases es
  {
    if es == [] then {} else Arrives(s, es[0], k) + Inserted(Step(s, es[0]), es[1..], k)
  }

  /** No clear, no write of `k`, no cap below `cap`, and no clock reading after `expiry`. */
  predicate Spares(e: Event, k: string, cap: int, expiry: real) {
    && !e.op.Clear? && !(e.op.Set? && e.op.k == k) && (e.op.SetMaxSize? ==> e.op.size >= cap)
    && (e.op.Get? || e.op.Set? ==> e.now <= expiry && e.later <= expiry)
  }

  lemma {:induction false} FindUnique(store: seq<Entry>, k: string, i: nat)
    requires i < |store| && store[i].key == k && forall j :: 0 <= j < i ==> store[j].key != k
    ensures Find(store, k) == i
  {}

  /** A store around a key's entry. */
  lemma Around(front: seq<Entry>, x: Entry, rear: seq<Entry>)
    requires x.key !in Keys(front)
    ensures var store := front + [x] + rear;
      && Holds(store, x.key) && EntryOf(store, x.key) == x
      && Front(store, x.key) == front && Rear(store, x.key) == rear
  {
    var store := front + [x] + rear;
    forall j | 0 <= j < |front| ensures store[j].key != x.key { assert front[j] in front; }
    FindUnique(store, x.key, |front|);
  }

  lemma FindInFront(store: seq<Entry>, k: string)
    requires Holds(store, k)
    ensures store == Front(store, k) + [EntryOf(store, k)] + Rear(store, k)
    ensures EntryOf(store, k).key == k && k !in Keys(Front(store, k))
  {
    var front := Front(store, k);
    forall e | e in front ensures e.key != k { var j :| 0 <= j < |front| && front[j] == e; }
  }

  lemma PutKeys(store: seq<Entry>, e: Entry)
    ensures Keys(Put(store, e)) == Keys(store) + {e.key}
  {
    var i, r := Find(store, e.key), Put(store, e);
    assert e in r by { assert r[i] == e; }
    forall x | x in store ensures x.key in Keys(r) {
      var j :| 0 <= j < |store| && store[j] == x;
      assert r[j] in r;
    }
    forall x | x in r ensures x.key in Keys(store) + {e.key} {
      var j :| 0 <= j < |r| && r[j] == x;
    }
  }

  lemma HeldKey(store: seq<Entry>, k: string)
    ensures Holds(store, k) <==> k in Keys(store)
  {
    if Holds(store, k) { assert EntryOf(store, k) in store; }
    if k in Keys(store) {
      var e :| e in store && e.key == k;
      var j :| 0 <= j < |store| && store[j] == e;
    }
  }

  lemma PutInFront(store: seq<Entry>, k: string, e: Entry)
    requires Holds(store, k) && e.key in Keys(Front(store, k))
    ensures var r := Put(store, e);
      && Holds(r, k) && EntryOf(r, k) == EntryOf(store, k)
      && Keys(Front(r, k)) == Keys(Front(store, k)) && Rear(r, k) == Rear(store, k)
  {
    FindInFront(store, k);
    var front, x, rear := Front(store, k), EntryOf(store, k), Rear(store, k);
    HeldKey(front, e.key);
    FindUnique(store, e.key, Find(front, e.key));
    PutKeys(front, e);
    assert Put(store, e) == Put(front, e) + [x] + rear;
    Around(Put(front, e), x, rear);
  }

  lemma PutInRear(store: seq<Entry>, k: string, e: Entry)
    requires Holds(store, k) && e.key != k && e.key !in Keys(Front(store, k))
    ensures var r := Put(store, e);
      && Holds(r, k) && EntryOf(r, k) == EntryOf(store, k)
      && Front(r, k) == Front(store, k) && Rear(r, k) == Put(Rear(store, k), e)
  {
    FindInFront(store, k);
    var front, x, rear := Front(store, k), EntryOf(store, k), Rear(store, k);
    assert forall j :: 0 <= j < |front| ==> front[j] in front;
    FindAfter(store, e.key, |front| + 1);
    assert Put(store, e) == front + [x] + Put(rear, e);
    Around(front, x, Put(rear, e));
  }

  /** Another key's write changes its entry where it stands, or comes last. */
  lemma PutAround(store: seq<Entry>, k: string, e: Entry)
    requires Holds(store, k) && e.key != k
    ensures Holds(Put(store, e), k) && EntryOf(Put(store, e), k) == EntryOf(store, k)
    ensures if e.key in Keys(Front(store, k))
            then Keys(Front(Put(store, e), k)) == Keys(Front(store, k)) && Rear(Put(store, e), k) == Rear(store, k)
            else Front(Put(store, e), k) == Front(store, k) && Rear(Put(store, e), k) == Put(Rear(store, k), e)
  {
    if e.key in Keys(Front(store, k)) { PutInFront(store, k, e); } else { PutInRear(store, k, e); }
  }

  /** It comes to stand behind exactly if it was not in the store. */
  lemma PutBehind(store: seq<Entry>, k: string, e: Entry)
    requires Holds(store, k) && e.key != k
    ensures Holds(Put(store, e), k) && EntryOf(Put(store, e), k) == EntryOf(store, k)
    ensures Behind(Put(store, e), k) == Behind(store, k) + Newcomer(store, e.key)
    ensures Keys(Front(Put(store, e), k)) == Keys(Front(store, k))
  {
    PutAround(store, k, e);
    FindInFront(store, k);
    HeldKey(store, e.key);
    KeysAround(Front(store, k), EntryOf(store, k), Rear(store, k));
    PutKeys(Rear(store, k), e);
  }

  lemma KeysAround(front: seq<Entry>, x: Entry, rear: seq<Entry>)
    ensures Keys(front + [x] + rear) == Keys(front) + {x.key} + Keys(rear)
  {
    var store := front + [x] + rear;
    assert forall e :: e in store <==> e in front || e == x || e in rear;
  }

  lemma {:induction false} FindAfter(store: seq<Entry>, k: string, n: nat)
    requires n <= Find(store, k)
    ensures Find(store[n..], k) == Find(store, k) - n
  {
    if Holds(store, k) {
      FindUnique(store[n..], k, Find(store, k) - n);
    } else {
      HeldKey(store[n..], k);
      HeldKey(store, k);
    }
  }

  lemma RemoveKeys(store: seq<Entry>, k: string)
    ensures Keys(Remove(store, k)) <= Keys(store)
  {
    assert forall e :: e in Remove(store, k) ==> e in store;
  }

  lemma RemoveFirst(front: seq<Entry>, rest: seq<Entry>, k: string)
    requires Holds(front, k)
    ensures Remove(front + rest, k) == Remove(front, k) + rest
  {
    FindUnique(front + rest, k, Find(front, k));
  }

  lemma RemoveInFront(store: seq<Entry>, k: string, other: string)
    requires Holds(store, k) && other in Keys(Front(store, k))
    ensures var r := Remove(store, other);
      && Holds(r, k) && EntryOf(r, k) == EntryOf(store, k) && Rear(r, k) == Rear(store, k)
      && Keys(Front(r, k)) <= Keys(Front(store, k))
  {
    FindInFront(store, k);
    var front, x, rear := Front(store, k), EntryOf(store, k), Rear(store, k);
    HeldKey(front, other);
    RemoveKeys(front, other);
    RemoveFirst(front, [x] + rear, other);
    assert front + [x] + rear == front + ([x] + rear);
    assert Remove(front, other) + ([x] + rear) == Remove(front, other) + [x] + rear;
    Around(Remove(front, other), x, rear);
  }

  lemma RemoveInRear(store: seq<Entry>, k: string, other: string)
    requires Holds(store, k) && other != k && other !in Keys(Front(store, k)) && Holds(store, other)
    ensures var r := Remove(store, other);
      && Holds(r, k) && EntryOf(r, k) == EntryOf(store, k) && Front(r, k) == Front(store, k)
      && Behind(r, k) <= Behind(store, k)
  {
    FindInFront(store, k);
    var front, x, rear := Front(store, k), EntryOf(store, k), Rear(store, k);
    var o := Find(store, other);
    assert forall j :: 0 <= j < |front| ==> front[j] in front;
    var n := o - |front| - 1;
    var rear' := rear[..n] + rear[n + 1..];
    assert Remove(store, other) == front + [x] + rear';
    assert forall e :: e in rear' ==> e in rear;
    Around(front, x, rear');
  }

  lemma RemoveAround(store: seq<Entry>, k: string, other: string)
    requires Holds(store, k) && other != k
    ensures Keeps(store, Remove(store, other), k, {})
  {
    if Holds(store, other) {
      if other in Keys(Front(store, k)) { RemoveInFront(store, k, other); } else { RemoveInRear(store, k, other); }
    }
  }

  lemma Associates(a: seq<Entry>, b: seq<Entry>, c: seq<Entry>)
    ensures a + (b + c) == (a + b) + c
  {}

  lemma {:induction false} LiveConcat(a: seq<Entry>, b: seq<Entry>, now: real)
    ensures LiveEntries(a + b, now) == LiveEntries(a, now) + LiveEntries(b, now)
  {
    if a == [] {
      assert a + b == b;
    } else {
      var first := if now > a[0].expiry then [] else [a[0]];
      assert (a + b)[0] == a[0] && (a + b)[1..] == a[1..] + b;
      LiveConcat(a[1..], b, now);
      Associates(first, LiveEntries(a[1..], now), LiveEntries(b, now));
    }
  }

  lemma {:induction false} LiveAround(store: seq<Entry>, k: string, now: real)
    requires Holds(store, k) && now <= EntryOf(store, k).expiry
    ensures var r := LiveEntries(store, now);
      && Holds(r, k) && EntryOf(r, k) == EntryOf(store, k)
      && Front(r, k) == LiveEntries(Front(store, k), now) && Rear(r, k) == LiveEntries(Rear(store, k), now)
  {
    FindInFront(store, k);
    var front, x, rear := Front(store, k), EntryOf(store, k), Rear(store, k);
    LiveConcat(front + [x], rear, now);
    LiveConcat(front, [x], now);
    assert LiveEntries([x], now) == [x];
    LiveEntriesSub(front, now);
    Around(LiveEntries(front, now), x, LiveEntries(rear, now));
  }

  /** A trim keeps the key exactly if fewer entries than the cap stand behind it. */
  lemma TrimAround(store: seq<Entry>, k: string, maxSize: int)
    requires Holds(store, k) && DistinctKeys(store)
    ensures |Rear(store, k)| < maxSize ==>
              var r := Newest(store, maxSize);
              && Holds(r, k) && EntryOf(r, k) == EntryOf(store, k) && Rear(r, k) == Rear(store, k)
              && Keys(Front(r, k)) <= Keys(Front(store, k))
    ensures |Rear(store, k)| >= maxSize ==> !Holds(Newest(store, maxSize), k)
  {
    FindInFront(store, k);
    var front, x, rear := Front(store, k), EntryOf(store, k), Rear(store, k);
    var n := Excess(|store|, maxSize);
    if |rear| < maxSize {
      assert forall e :: e in front[n..] ==> e in front;
      assert Newest(store, maxSize) == front[n..] + [x] + rear;
      Around(front[n..], x, rear);
    } else {
      var r := Newest(store, maxSize);
      assert forall j :: 0 <= j < |r| ==> r[j] == store[n + j];
    }
  }

  lemma {:induction false} DistinctCount(store: seq<Entry>)
    requires DistinctKeys(store)
    ensures |Keys(store)| == |store|
  {
    if store != [] {
      DistinctCount(store[1..]);
      assert store == [store[0]] + store[1..];
      forall e | e in store[1..] ensures e.key != store[0].key { var j :| 0 <= j < |store[1..]| && store[1..][j] == e; }
      assert Keys(store) == {store[0].key} + Keys(store[1..]);
    }
  }

  lemma BehindCount(store: seq<Entry>, k: string)
    requires Holds(store, k) && DistinctKeys(store)
    ensures |Behind(store, k)| == |Rear(store, k)|
  {
    DistinctCount(Rear(store, k));
  }

  lemma PutDistinct(store: seq<Entry>, e: Entry)
    requires DistinctKeys(store)
    ensures DistinctKeys(Put(store, e))
  {
    var i, r := Find(store, e.key), Put(store, e);
    assert forall j :: 0 <= j < |store| && j != i ==> store[j].key != e.key;
    assert forall j :: 0 <= j < |r| && j != i ==> r[j] == store[j];
  }

  lemma RemoveDistinct(store: seq<Entry>, k: string)
    requires DistinctKeys(store)
    ensures DistinctKeys(Remove(store, k))
  {
    var i, r := Find(store, k), Remove(store, k);
    assert forall j :: 0 <= j < |r| ==> r[j] == store[if j < i then j else j + 1];
  }

  lemma SetDistinct(s: State, k: string, v: Value, now: real, later: real)
    requires DistinctKeys(s.store)
    ensures DistinctKeys(SetStep(s, k, v, now, later).store)
  {
    var x := Entry(k, v, now + s.ttlMs);
    PutDistinct(s.store, x);
    LiveEntriesSub(Newest(Put(s.store, x), s.maxSize), later);
    SetStore(s, k, v, now, later);
  }

  lemma StepDistinct(s: State, e: Event)
    requires DistinctKeys(s.store)
    ensures DistinctKeys(Step(s, e).store)
  {
    match e.op
    case Get(k) => RemoveDistinct(s.store, k);
    case Set(k, v) => SetDistinct(s, k, v, e.now, e.later);
    case _ =>
  }

  lemma Fewer(a: set<string>, b: set<string>)
    requires a <= b
    ensures |a| <= |b|
  {
    assert b == a + (b - a);
  }

  lemma SetSpares(s: State, k: string, other: string, v: Value, now: real, later: real)
    requires DistinctKeys(s.store) && Holds(s.store, k) && other != k && later <= EntryOf(s.store, k).expiry
    requires |Behind(s.store, k) + Newcomer(s.store, other)| < s.maxSize
    ensures Keeps(s.store, SetStep(s, other, v, now, later).store, k, Newcomer(s.store, other))
  {
    var x := Entry(other, v, now + s.ttlMs);
    var put := Put(s.store, x);
    PutBehind(s.store, k, x);
    PutDistinct(s.store, x);
    BehindCount(put, k);
    TrimAround(put, k, s.maxSize);
    var kept := Newest(put, s.maxSize);
    LiveAround(kept, k, later);
    LiveEntriesSub(Rear(kept, k), later);
    SetStore(s, other, v, now, later);
  }

  /** The case of a write in `StepSpares`. */
  lemma {:induction false} WriteSpares(s: State, e: Event, k: string, cap: int)
    requires DistinctKeys(s.store) && Holds(s.store, k)
    requires e.op.Set? && e.op.k != k && e.later <= EntryOf(s.store, k).expiry
    requires |Behind(s.store, k) + Newcomer(s.store, e.op.k)| < cap <= s.maxSize
    ensures Keeps(s.store, Step(s, e).store, k, Newcomer(s.store, e.op.k)) && Step(s, e).maxSize == s.maxSize
  {
    SetSpares(s, k, e.op.k, e.op.v, e.now, e.later);
    SetStore(s, e.op.k, e.op.v, e.now, e.later);
  }

  lemma ShrinkSpares(store: seq<Entry>, k: string, size: int)
    requires DistinctKeys(store) && Holds(store, k) && |Behind(store, k)| < size
    ensures Keeps(store, Newest(store, size), k, {})
  {
    BehindCount(store, k);
    TrimAround(store, k, size);
  }

  lemma GetSpares(s: State, k: string, other: string, now: real)
    requires Holds(s.store, k) && now <= EntryOf(s.store, k).expiry
    ensures Keeps(s.store, GetStep(s, other, now).1.store, k, {}) && GetStep(s, other, now).1.maxSize == s.maxSize
  {
    if other != k { RemoveAround(s.store, k, other); }
  }

  lemma CapSpares(s: State, size: int, k: string, cap: int)
    requires DistinctKeys(s.store) && Holds(s.store, k) && |Behind(s.store, k)| < cap <= size
    ensures Keeps(s.store, Trim(s.(maxSize := size)).store, k, {})
  {
    ShrinkSpares(s.store, k, size);
  }

  lemma {:induction false} StepSpares(s: State, e: Event, k: string, cap: int)
    requires DistinctKeys(s.store) && Holds(s.store, k) && Spares(e, k, cap, EntryOf(s.store, k).expiry)
    requires |Behind(s.store, k) + Arrives(s, e, k)| < cap <= s.maxSize
    ensures Keeps(s.store, Step(s, e).store, k, Arrives(s, e, k)) && cap <= Step(s, e).maxSize
  {
    match e.op
    case Get(other) => GetSpares(s, k, other, e.now);
    case Set(_, _) => WriteSpares(s, e, k, cap);
    case SetMaxSize(size) =>
      assert Behind(s.store, k) + {} == Behind(s.store, k);
      CapSpares(s, size, k, cap);
    case SetTtl(_) =>
  }

  lemma Regroup(a: set<string>, b: set<string>, c: set<string>)
    ensures a + (b + c) == a + b + c
  {}

  /**
   Completeness over any run: until its expiry an entry stays, value and all, as long as it is
   neither cleared nor overwritten and fewer distinct keys than the cap stand behind it or come in
   after it.  Rewriting keys that are in the store, however often, does not count.
   */
  lemma {:induction false} LiveEntrySurvives(s: State, es: seq<Event>, k: string, cap: int)
    requires DistinctKeys(s.store) && Holds(s.store, k)
    requires forall i :: 0 <= i < |es| ==> Spares(es[i], k, cap, EntryOf(s.store, k).expiry)
    requires |Behind(s.store, k) + Inserted(s, es, k)| < cap <= s.maxSize
    ensures Holds(Run(s, es).store, k) && EntryOf(Run(s, es).store, k) == EntryOf(s.store, k)
    decreases es
  {
    if es != [] {
      var s1 := Step(s, es[0]);
      var first, later := Arrives(s, es[0], k), Inserted(s1, es[1..], k);
      Regroup(Behind(s.store, k), first, later);
      Fewer(Behind(s.store, k) + first, Behind(s.store, k) + Inserted(s, es, k));
      StepSpares(s, es[0], k, cap);
      StepDistinct(s, es[0]);
      Fewer(Behind(s1.store, k) + later, Behind(s.store, k) + Inserted(s, es, k));
      LiveEntrySurvives(s1, es[1..], k, cap);
    }
  }

  /** Only a written key comes in, so that counting the writes of a caller is enough. */
  lemma {:induction false} InsertedAreWritten(s: State, es: seq<Event>, k: string)
    ensures Inserted(s, es, k) <= Written(es, k)
    decreases es
  {
    if es != [] { InsertedAreWritten(Step(s, es[0]), es[1..], k); }
  }

  lemma NewWriteStored(s: State, k: string, v: Value, now: real, later: real)
    requires DistinctKeys(s.store) && !Holds(s.store, k) && later <= now + s.ttlMs && s.maxSize > 0
    ensures var store := SetStep(s, k, v, now, later).store;
      Holds(store, k) && EntryOf(store, k) == Entry(k, v, now + s.ttlMs) && Behind(store, k) == {}
  {
    var x := Entry(k, v, now + s.ttlMs);
    var put := Put(s.store, x);
    HeldKey(s.store, k);
    assert put == s.store + [x] + [];
    Around(s.store, x, []);
    PutDistinct(s.store, x);
    TrimAround(put, k, s.maxSize);
    LiveAround(Newest(put, s.maxSize), k, later);
    SetStore(s, k, v, now, later);
  }

  /** New or not, what is written is in the store. */
  lemma WriteStored(s: State, k: string, v: Value, now: real, later: real)
    requires DistinctKeys(s.store) && (|s.store| == 0 || |s.store| <= s.maxSize) && s.maxSize > 0 && later <= now + s.ttlMs
    ensures var store := SetStep(s, k, v, now, later).store;
      DistinctKeys(store) && Holds(store, k) && EntryOf(store, k) == Entry(k, v, now + s.ttlMs)
  {
    SetDistinct(s, k, v, now, later);
    if Holds(s.store, k) {
      var x := Entry(k, v, now + s.ttlMs);
      RewriteKeepsRank(s.store, x);
      assert Newest(Put(s.store, x), s.maxSize) == Put(s.store, x);
      LiveAround(Put(s.store, x), k, later);
      SetStore(s, k, v, now, later);
    } else {
      NewWriteStored(s, k, v, now, later);
    }
  }

  /**
   Hence what is newly written is found again: with fewer than `maxSize` other keys coming in
   between, and before it expires, `get` returns exactly what was set.
   */
  lemma {:induction false} NewWriteIsFound(s: State, k: string, v: Value, now: real, later: real, es: seq<Event>, when: real)
    requires DistinctKeys(s.store) && !Holds(s.store, k) && later <= now + s.ttlMs && when <= now + s.ttlMs
    requires forall i :: 0 <= i < |es| ==> Spares(es[i], k, s.maxSize, now + s.ttlMs)
    requires |Inserted(SetStep(s, k, v, now, later), es, k)| < s.maxSize
    ensures GetStep(Run(SetStep(s, k, v, now, later), es), k, when).0 == Some(v)
  {
    var s1 := SetStep(s, k, v, now, later);
    NewWriteStored(s, k, v, now, later);
    SetDistinct(s, k, v, now, later);
    SetStore(s, k, v, now, later);
    assert {} + Inserted(s1, es, k) == Inserted(s1, es, k);
    LiveEntrySurvives(s1, es, k, s.maxSize);
  }

  // ----- Exactly when a live entry is evicted -----

  /** Reads and writes of other keys at a fixed cap and TTL, none of whose entries is dead by `horizon`. */
  predicate Lasting(s: State, e: Event, k: string, horizon: real) {
    && (e.op.Get? || (e.op.Set? && e.op.k != k && e.now + s.ttlMs >= horizon))
    && e.now <= horizon && e.later <= horizon
  }

  /** `k` and all that stands behind it live up to `horizon`. */
  ghost predicate LiveBehind(store: seq<Entry>, k: string, horizon: real)
    requires Holds(store, k)
  {
    EntryOf(store, k).expiry >= horizon && forall e :: e in Rear(store, k) ==> e.expiry >= horizon
  }

  lemma {:induction false} AllLive(store: seq<Entry>, now: real)
    requires forall e :: e in store ==> e.expiry >= now
    ensures LiveEntries(store, now) == store
  {
    if store != [] { AllLive(store[1..], now); }
  }

  /** Putting another key and trimming. */
  lemma PutExactly(store: seq<Entry>, k: string, x: Entry, maxSize: int)
    requires DistinctKeys(store) && Holds(store, k) && x.key != k
    ensures var kept := Newest(Put(store, x), maxSize);
      && (Holds(kept, k) <==> |Behind(store, k) + Newcomer(store, x.key)| < maxSize)
      && (Holds(kept, k) ==>
            EntryOf(kept, k) == EntryOf(store, k) && Rear(kept, k) == Rear(Put(store, x), k)
            && Behind(kept, k) == Behind(store, k) + Newcomer(store, x.key))
  {
    PutBehind(store, k, x);
    PutDistinct(store, x);
    BehindCount(Put(store, x), k);
    TrimAround(Put(store, x), k, maxSize);
  }

  /** What stands behind after a write stood there before or is the written entry. */
  lemma PutRear(store: seq<Entry>, k: string, x: Entry)
    requires Holds(store, k) && x.key != k
    ensures Holds(Put(store, x), k)
    ensures forall e :: e in Rear(Put(store, x), k) ==> e in Rear(store, k) || e == x
  {
    PutAround(store, k, x);
  }

  /** A sweep before the horizon takes nothing from behind a live key. */
  lemma {:induction false} SweepExactly(store: seq<Entry>, k: string, now: real, horizon: real)
    requires Holds(store, k) && LiveBehind(store, k, horizon) && now <= horizon
    ensures var r := LiveEntries(store, now);
      && Holds(r, k) && EntryOf(r, k) == EntryOf(store, k) && Rear(r, k) == Rear(store, k)
  {
    LiveAround(store, k, now);
    AllLive(Rear(store, k), now);
  }

  lemma {:induction false} SweepKeepsGone(store: seq<Entry>, k: string, now: real)
    requires !Holds(store, k)
    ensures !Holds(LiveEntries(store, now), k)
  {
    LiveEntriesSub(store, now);
    HeldKey(store, k);
    HeldKey(LiveEntries(store, now), k);
  }

  /** What a step leaves of `k` when `more` keys come to stand behind it. */
  ghost predicate Leaves(s: State, s': State, k: string, more: set<string>, horizon: real)
    requires Holds(s.store, k)
  {
    && s'.maxSize == s.maxSize && s'.ttlMs == s.ttlMs
    && (Holds(s'.store, k) <==> |Behind(s.store, k) + more| < s.maxSize)
    && (Holds(s'.store, k) ==>
          && EntryOf(s'.store, k) == EntryOf(s.store, k) && Behind(s'.store, k) == Behind(s.store, k) + more
          && LiveBehind(s'.store, k, horizon))
  }

  lemma SetExactly(s: State, k: string, other: string, v: Value, now: real, later: real, horizon: real)
    requires DistinctKeys(s.store) && Holds(s.store, k) && other != k
    requires LiveBehind(s.store, k, horizon) && now + s.ttlMs >= horizon && later <= horizon
    ensures Leaves(s, SetStep(s, other, v, now, later), k, Newcomer(s.store, other), horizon)
  {
    var x := Entry(other, v, now + s.ttlMs);
    var kept := Newest(Put(s.store, x), s.maxSize);
    PutExactly(s.store, k, x, s.maxSize);
    PutRear(s.store, k, x);
    SetStore(s, other, v, now, later);
    if Holds(kept, k) { SweepExactly(kept, k, later, horizon); } else { SweepKeepsGone(kept, k, later); }
  }

  /** A key that does not stand in front is live before the horizon, so that reading it changes nothing. */
  lemma GetLive(s: State, k: string, other: string, now: real, horizon: real)
    requires Holds(s.store, k) && LiveBehind(s.store, k, horizon) && now <= horizon
    requires other !in Keys(Front(s.store, k))
    ensures GetStep(s, other, now).1 == s
  {
    var i, o := Find(s.store, k), Find(s.store, other);
    forall j | 0 <= j < i ensures s.store[j].key != other { assert Front(s.store, k)[j] in Front(s.store, k); }
    if i < o < |s.store| {
      assert s.store[o] == Rear(s.store, k)[o - i - 1];
    }
  }

  lemma GetFront(s: State, k: string, other: string, now: real, horizon: real)
    requires Holds(s.store, k) && LiveBehind(s.store, k, horizon) && other in Keys(Front(s.store, k))
    ensures var s' := GetStep(s, other, now).1;
      && s'.maxSize == s.maxSize && s'.ttlMs == s.ttlMs && Holds(s'.store, k)
      && EntryOf(s'.store, k) == EntryOf(s.store, k) && Rear(s'.store, k) == Rear(s.store, k)
  {
    RemoveInFront(s.store, k, other);
  }

  lemma NothingMore(a: set<string>)
    ensures a + {} == a
  {}

  lemma GetExactly(s: State, k: string, other: string, now: real, horizon: real)
    requires DistinctKeys(s.store) && |s.store| <= s.maxSize && Holds(s.store, k)
    requires LiveBehind(s.store, k, horizon) && now <= horizon
    ensures Leaves(s, GetStep(s, other, now).1, k, {}, horizon)
  {
    NotYetEvicted(s, k);
    NothingMore(Behind(s.store, k));
    if other in Keys(Front(s.store, k)) {
      GetFront(s, k, other, now, horizon);
    } else {
      GetLive(s, k, other, now, horizon);
    }
  }

  lemma SetKeepsGone(s: State, k: string, other: string, v: Value, now: real, later: real)
    requires !Holds(s.store, k) && other != k
    ensures !Holds(SetStep(s, other, v, now, later).store, k)
  {
    var x := Entry(other, v, now + s.ttlMs);
    var kept := Newest(Put(s.store, x), s.maxSize);
    HeldKey(s.store, k);
    PutKeys(s.store, x);
    assert forall y :: y in kept ==> y in Put(s.store, x);
    HeldKey(kept, k);
    SweepKeepsGone(kept, k, later);
    SetStore(s, other, v, now, later);
  }

  lemma RemoveKeepsGone(store: seq<Entry>, k: string, other: string)
    requires !Holds(store, k)
    ensures !Holds(Remove(store, other), k)
  {
    HeldKey(store, k);
    assert forall x :: x in Remove(store, other) ==> x in store;
    HeldKey(Remove(store, other), k);
  }

  lemma StepKeepsGone(s: State, e: Event, k: string, horizon: real)
    requires !Holds(s.store, k) && Lasting(s, e, k, horizon)
    ensures !Holds(Step(s, e).store, k)
  {
    match e.op
    case Get(other) => RemoveKeepsGone(s.store, k, other);
    case Set(other, v) => SetKeepsGone(s, k, other, v, e.now, e.later);
  }

  /** What is gone stays gone until it is written again. */
  lemma {:induction false} GoneStays(s: State, es: seq<Event>, k: string, horizon: real)
    requires !Holds(s.store, k) && forall i :: 0 <= i < |es| ==> Lasting(s, es[i], k, horizon)
    ensures !Holds(Run(s, es).store, k)
    decreases es
  {
    if es != [] {
      StepKeepsGone(s, es[0], k, horizon);
      StepSize(s, es[0]);
      GoneStays(Step(s, es[0]), es[1..], k, horizon);
    }
  }

  lemma StepSize(s: State, e: Event)
    requires e.op.Get? || e.op.Set?
    ensures Step(s, e).maxSize == s.maxSize && Step(s, e).ttlMs == s.ttlMs
    ensures |s.store| <= s.maxSize ==> |Step(s, e).store| <= s.maxSize
  {
    if e.op.Set? { SetStore(s, e.op.k, e.op.v, e.now, e.later); }
  }

  /** A state within its cap, with `k` and all behind it live up to the horizon. */
  ghost predicate Poised(s: State, k: string, horizon: real) {
    DistinctKeys(s.store) && |s.store| <= s.maxSize && Holds(s.store, k) && LiveBehind(s.store, k, horizon)
  }

  lemma {:induction false} StepExactly(s: State, e: Event, k: string, horizon: real)
    requires Poised(s, k, horizon) && Lasting(s, e, k, horizon)
    ensures Leaves(s, Step(s, e), k, Arrives(s, e, k), horizon)
    ensures Holds(Step(s, e).store, k) ==> Poised(Step(s, e), k, horizon)
  {
    StepDistinct(s, e);
    StepSize(s, e);
    match e.op
    case Get(other) => GetExactly(s, k, other, e.now, horizon);
    case Set(other, v) => SetExactly(s, k, other, v, e.now, e.later, horizon);
  }

  lemma NotYetEvicted(s: State, k: string)
    requires DistinctKeys(s.store) && |s.store| <= s.maxSize && Holds(s.store, k)
    ensures |Behind(s.store, k) + {}| < s.maxSize
  {
    BehindCount(s.store, k);
    assert Behind(s.store, k) + {} == Behind(s.store, k);
  }

  /**
   A live entry survives reads and writes of other keys exactly if the keys behind it and those that
   come in are together fewer than the cap.
   */
  lemma {:induction false} EvictedExactly(s: State, es: seq<Event>, k: string, horizon: real)
    requires Poised(s, k, horizon) && forall i :: 0 <= i < |es| ==> Lasting(s, es[i], k, horizon)
    ensures Holds(Run(s, es).store, k) <==> |Behind(s.store, k) + Inserted(s, es, k)| < s.maxSize
    decreases |es|, 0
  {
    if es == [] {
      NotYetEvicted(s, k);
    } else {
      var s1 := Step(s, es[0]);
      Regroup(Behind(s.store, k), Arrives(s, es[0], k), Inserted(s1, es[1..], k));
      StepExactly(s, es[0], k, horizon);
      EvictedLater(s, s1, Arrives(s, es[0], k), es[1..], k, horizon);
    }
  }

  /** The same from the state `s1` that the first event left. */
  lemma {:induction false} EvictedLater(s: State, s1: State, first: set<string>, es: seq<Event>, k: string, horizon: real)
    requires Poised(s, k, horizon) && Leaves(s, s1, k, first, horizon) && (Holds(s1.store, k) ==> Poised(s1, k, horizon))
    requires forall i :: 0 <= i < |es| ==> Lasting(s, es[i], k, horizon)
    ensures Holds(Run(s1, es).store, k) <==> |Behind(s.store, k) + first + Inserted(s1, es, k)| < s.maxSize
    decreases |es|, 1
  {
    if Holds(s1.store, k) {
      EvictedExactly(s1, es, k, horizon);
    } else {
      GoneStays(s1, es, k, horizon);
      Fewer(Behind(s.store, k) + first, Behind(s.store, k) + first + Inserted(s1, es, k));
    }
  }

  /** Rewriting a stored key leaves the same keys behind it: eviction goes by insertion, not by write. */
  lemma RewriteKeepsRank(store: seq<Entry>, e: Entry)
    requires Holds(store, e.key)
    ensures Holds(Put(store, e), e.key) && Rear(Put(store, e), e.key) == Rear(store, e.key)
    ensures Front(Put(store, e), e.key) == Front(store, e.key) && EntryOf(Put(store, e), e.key) == e
  {
    FindInFront(store, e.key);
    assert Put(store, e) == Front(store, e.key) + [e] + Rear(store, e.key);
    Around(Front(store, e.key), e, Rear(store, e.key));
  }

  lemma {:induction false} SweptKeys(store: seq<Entry>, r: seq<Entry>, now: real)
    requires r == store || r == LiveEntries(store, now)
    ensures Keys(r) <= Keys(store)
    ensures (forall e :: e in store ==> now <= e.expiry) ==> Keys(r) == Keys(store)
  {
    LiveEntriesSub(store, now);
  }

  /** A rewrite within the cap keeps the key; a sweep may take dead entries from around it. */
  lemma {:induction false} RewriteStored(s: State, k: string, v: Value, now: real)
    requires DistinctKeys(s.store) && |s.store| <= s.maxSize && Holds(s.store, k) && s.ttlMs >= 0.0
    ensures var s1 := SetStep(s, k, v, now, now);
      && DistinctKeys(s1.store) && s1.maxSize == s.maxSize && s1.ttlMs == s.ttlMs
      && Holds(s1.store, k) && EntryOf(s1.store, k) == Entry(k, v, now + s.ttlMs)
      && (Rear(s1.store, k) == Rear(s.store, k) || Rear(s1.store, k) == LiveEntries(Rear(s.store, k), now))
  {
    var x := Entry(k, v, now + s.ttlMs);
    RewriteKeepsRank(s.store, x);
    assert Newest(Put(s.store, x), s.maxSize) == Put(s.store, x);
    SetDistinct(s, k, v, now, now);
    SetStore(s, k, v, now, now);
    LiveAround(Put(s.store, x), k, now);
  }

  lemma RewriteReady(s: State, s1: State, k: string, v: Value, now: real)
    requires DistinctKeys(s.store) && |s.store| <= s.maxSize && Holds(s.store, k) && s.ttlMs >= 0.0
    requires s1 == SetStep(s, k, v, now, now)
    ensures DistinctKeys(s1.store) && s1.maxSize == s.maxSize
    ensures Holds(s1.store, k) && EntryOf(s1.store, k).value == v && now <= EntryOf(s1.store, k).expiry
    ensures Behind(s1.store, k) <= Behind(s.store, k)
    ensures (forall e :: e in Rear(s.store, k) ==> now <= e.expiry) ==> Behind(s1.store, k) == Behind(s.store, k)
  {
    RewriteStored(s, k, v, now);
    SweptKeys(Rear(s.store, k), Rear(s1.store, k), now);
  }

  /** The next write of another key leaves a live entry exactly if there is room behind it. */
  lemma {:induction false} KeptAfterSet(s: State, s2: State, k: string, x: Entry, now: real)
    requires DistinctKeys(s.store) && Holds(s.store, k) && x.key != k && now <= EntryOf(s.store, k).expiry
    requires s2.store in {Newest(Put(s.store, x), s.maxSize), LiveEntries(Newest(Put(s.store, x), s.maxSize), now)}
    ensures Holds(s2.store, k) <==> |Behind(s.store, k) + Newcomer(s.store, x.key)| < s.maxSize
    ensures Holds(s2.store, k) ==> EntryOf(s2.store, k) == EntryOf(s.store, k)
  {
    var kept := Newest(Put(s.store, x), s.maxSize);
    PutExactly(s.store, k, x, s.maxSize);
    if Holds(kept, k) { LiveAround(kept, k, now); } else { SweepKeepsGone(kept, k, now); }
  }

  lemma {:induction false} GetMeaning(s: State, k: string, now: real)
    requires Holds(s.store, k) ==> now <= EntryOf(s.store, k).expiry
    ensures GetStep(s, k, now).0 == if Holds(s.store, k) then Some(EntryOf(s.store, k).value) else None
  {}

  /**
   So a key rewritten this moment is lost to the next write of another key exactly if the keys that
   stood behind it before, less those a sweep took, already fill the cap with the newcomer.
   `s1` and `s2` are the states after the two writes.
   */
  lemma {:induction false} RewrittenEntryEvictedExactly(s: State, s1: State, s2: State, k: string, v: Value, other: string,
      w: Value, now: real)
    requires DistinctKeys(s.store) && |s.store| <= s.maxSize && Holds(s.store, k) && s.ttlMs >= 0.0 && other != k
    requires s1 == SetStep(s, k, v, now, now) && s2 == SetStep(s1, other, w, now, now)
    ensures GetStep(s1, k, now).0 == Some(v)
    ensures Holds(s1.store, k) && Behind(s1.store, k) <= Behind(s.store, k)
    ensures (forall e :: e in Rear(s.store, k) ==> now <= e.expiry) ==> Behind(s1.store, k) == Behind(s.store, k)
    ensures GetStep(s2, k, now).0
            == if |Behind(s1.store, k) + Newcomer(s1.store, other)| < s.maxSize then Some(v) else None
  {
    RewriteReady(s, s1, k, v, now);
    GetMeaning(s1, k, now);
    SetStore(s1, other, w, now, now);
    KeptAfterSet(s1, s2, k, Entry(other, w, now + s1.ttlMs), now);
    GetMeaning(s2, k, now);
  }

  function Writes(es: seq<Event>): nat {
    if es == [] then 0 else (if es[0].op.Set? then 1 else 0) + Writes(es[1..])
  }

  lemma {:induction false} CountsWrite(s: State, k: string, v: Value, now: real, later: real)
    ensures SetStep(s, k, v, now, later).writeCount == if s.writeCount + 1 >= CLEANUP_INTERVAL then 0 else s.writeCount + 1
    ensures s.writeCount + 1 >= CLEANUP_INTERVAL ==>
              SetStep(s, k, v, now, later).store == LiveEntries(Write(s, k, v, now).store, later)
  {}

  lemma Cycle(c: nat, n: nat)
    requires c < CLEANUP_INTERVAL
    ensures ((if c + 1 >= CLEANUP_INTERVAL then 0 else c + 1) + n) % CLEANUP_INTERVAL == (c + 1 + n) % CLEANUP_INTERVAL
  {}

  /** The counter is the number of writes since the last clear, modulo the interval. */
  lemma {:induction false} CountsWrites(s: State, es: seq<Event>)
    requires s.writeCount < CLEANUP_INTERVAL && forall i :: 0 <= i < |es| ==> !es[i].op.Clear?
    ensures Run(s, es).writeCount == (s.writeCount + Writes(es)) % CLEANUP_INTERVAL
    decreases es
  {
    if es != [] {
      if es[0].op.Set? {
        CountsWrite(s, es[0].op.k, es[0].op.v, es[0].now, es[0].later);
        Cycle(s.writeCount, Writes(es[1..]));
      }
      CountsWrites(Step(s, es[0]), es[1..]);
    }
  }

  /** So every fiftieth write after a clear, or after the start, leaves nothing that is past its expiry. */
  lemma {:induction false} FiftiethWriteSweeps(
    s: State, es: seq<Event>, s1: State, k: string, v: Value, now: real, later: real)
    requires s.writeCount == 0 && forall i :: 0 <= i < |es| ==> !es[i].op.Clear?
    requires s1 == Run(s, es) && (Writes(es) + 1) % CLEANUP_INTERVAL == 0
    ensures forall e :: e in SetStep(s1, k, v, now, later).store ==> later <= e.expiry
  {
    CountsWrites(s, es);
    SweepsWhenFull(s1, k, v, now, later);
  }

  lemma SweepsWhenFull(s: State, k: string, v: Value, now: real, later: real)
    requires s.writeCount == CLEANUP_INTERVAL - 1
    ensures forall e :: e in SetStep(s, k, v, now, later).store ==> later <= e.expiry
  {
    CountsWrite(s, k, v, now, later);
    LiveEntriesSub(Write(s, k, v, now).store, later);
  }

  lemma RemoveTakesOne(store: seq<Entry>, k: string)
    requires DistinctKeys(store)
    ensures forall e :: e in Remove(store, k) <==> e in store && e.key != k
  {
    var i := Find(store, k);
    OnlyEntry(store, k);
    if i < |store| {
      assert store == store[..i] + [store[i]] + store[i + 1..];
      KeyGone(store, i);
    }
  }

  lemma KeyGone(store: seq<Entry>, i: nat)
    requires DistinctKeys(store) && i < |store|
    ensures forall e :: e in store[..i] + store[i + 1..] ==> e.key != store[i].key
  {}

  /** Reading an expired entry removes it, and reading removes nothing else. */
  lemma ReadingRemovesExpired(s: State, k: string, now: real)
    requires DistinctKeys(s.store)
    ensures var s' := GetStep(s, k, now).1;
      && s' == s.(store := s'.store)
      && forall e :: e in s'.store <==> e in s.store && !(e.key == k && now > e.expiry)
  {
    RemoveTakesOne(s.store, k);
    OnlyEntry(s.store, k);
  }

  lemma OnlyEntry(store: seq<Entry>, k: string)
    requires DistinctKeys(store)
    ensures forall e :: e in store && e.key == k ==> Holds(store, k) && e == EntryOf(store, k)
  {
    forall e | e in store && e.key == k ensures Holds(store, k) && e == EntryOf(store, k) {
      var j :| 0 <= j < |store| && store[j] == e;
    }
  }

  /** The periodic sweep removes exactly the entries past their expiry. */
  lemma SweepDropsOnlyDead(s: State, now: real)
    ensures forall e :: e in s.store ==> (e in Sweep(s, now).store <==> now <= e.expiry)
    ensures forall e :: e in Sweep(s, now).store ==> e in s.store
  {
    LiveEntriesSub(s.store, now);
  }

  // ----- The class -----

  class Cache {
    var store: seq<Entry>
    var pending: map<string, nat>
    var ttlMs: real
    var maxSize: int
    var writeCount: nat

    ghost function Abs(): State
      reads this
    {
      State(store, pending, ttlMs, maxSize, writeCount)
    }

    constructor (ttlSeconds: real, maxSize: int)
      ensures Abs() == Empty(ttlSeconds, maxSize)
    {
      store, pending, ttlMs, writeCount := [], map[], ttlSeconds * 1000.0, 0;
      this.maxSize := maxSize;
    }

    method SetTtl(ttlSeconds: real)
      modifies this`ttlMs
      ensures ttlMs == ttlSeconds * 1000.0
    {
      ttlMs := ttlSeconds * 1000.0;
    }

    method SetMaxSize(size: int)
      modifies this`maxSize, this`store
      ensures Abs() == Trim(old(Abs()).(maxSize := size))
    {
      maxSize := size;
      TrimToSize();
    }

    method Get(key: string, now: real) returns (r: Option<Value>)
      modifies this`store
      ensures (r, Abs()) == GetStep(old(Abs()), key, now)
    {
      var i := Find(store, key);
      if i == |store| { return None; }
      if now > store[i].expiry {
        store := store[..i] + store[i + 1..];
        return None;
      }
      return Some(store[i].value);
    }

    method Set(key: string, value: Value, now: real, later: real)
      modifies this`store, this`writeCount
      ensures Abs() == SetStep(old(Abs()), key, value, now, later)
    {
      store := Put(store, Entry(key, value, now + ttlMs));
      TrimToSize();
      ghost var written := Write(old(Abs()), key, value, now);
      assert Abs() == written && SetStep(old(Abs()), key, value, now, later) == Count(written, later);
      writeCount := writeCount + 1;
      if writeCount >= CLEANUP_INTERVAL {
        Cleanup(later);
        writeCount := 0;
      }
    }

    method Clear()
      modifies this`store, this`pending, this`writeCount
      ensures Abs() == ClearStep(old(Abs()))
    {
      store, pending, writeCount := [], map[], 0;
    }

    /** Delete keys from the front of the iteration order until the cap is met. */
    method TrimToSize()
      modifies this`store
      ensures Abs() == Trim(old(Abs()))
    {
      if |store| > maxSize {
        var numToRemove := |store| - maxSize;
        var i := 0;
        while i < numToRemove
          invariant 0 <= i <= numToRemove
          invariant store == old(store)[if i <= |old(store)| then i else |old(store)|..]
        {
          if |store| > 0 { store := store[1..]; }
          i := i + 1;
        }
      }
    }

    /** Walk the entries, deleting the expired ones in place. */
    method Cleanup(now: real)
      modifies this`store
      ensures Abs() == Sweep(old(Abs()), now)
    {
      var i := 0;
      while i < |store|
        invariant 0 <= i <= |store|
        invariant LiveEntries(old(store), now) == store[..i] + LiveEntries(store[i..], now)
        decreases |store| - i
      {
        if now > store[i].expiry {
          assert (store[..i] + store[i + 1..])[i..] == store[i..][1..];
          store := store[..i] + store[i + 1..];
        } else {
          assert store[i..][1..] == store[i + 1..];
          i := i + 1;
        }
      }
    }

    method GetPending(key: string) returns (p: Option<nat>)
      ensures p == Lookup(pending, key)
    {
      p := if key in pending then Some(pending[key]) else None;
    }

    method SetPending(key: string, p: nat)
      modifies this`pending
      ensures pending == old(pending)[key := p]
    {
      pending := pending[key := p];
    }

    method DeletePending(key: string)
      modifies this`pending
      ensures pending == old(pending) - {key}
    {
      pending := pending - {key};
    }
  }
}
