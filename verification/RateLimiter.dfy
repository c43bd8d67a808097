/**
 The rate limiter: each caller synchronously reserves the next slot of a moving cursor, then
 sleeps until it.  Times are milliseconds as reals; the clock may do anything between calls.
 */
module RateLimiter {
  import opened Common
  import opened Reals

  function Later(x: real, y: real): real { if x < y then y else x }

  /** The slots reserved by callers arriving at `nows`, from a cursor at `next`. */
  function Slots(next: real, interval: real, nows: seq<real>): seq<real>
    decreases nows
  {
    if nows == [] then [] else
    var slot := Later(next, nows[0]);
    [slot] + Slots(slot + interval, interval, nows[1..])
  }

  function CursorAfter(next: real, interval: real, nows: seq<real>): real
    decreases nows
  {
    if nows == [] then next else CursorAfter(Later(next, nows[0]) + interval, interval, nows[1..])
  }

  /** A schedule that keeps callers in order, none before its arrival and all `interval` apart. */
  ghost predicate Schedule(t: seq<real>, next: real, interval: real, nows: seq<real>) {
    && |t| == |nows|
    && (forall i :: 0 <= i < |t| ==> nows[i] <= t[i])
    && (|t| > 0 ==> next <= t[0])
    && (forall i :: 0 < i < |t| ==> t[i - 1] + interval <= t[i])
  }

  lemma {:induction false} SlotsAreSchedule(next: real, interval: real, nows: seq<real>)
    requires interval >= 0.0
    ensures Schedule(Slots(next, interval, nows), next, interval, nows)
    decreases nows
  {
    if nows != [] {
      SlotsAreSchedule(Later(next, nows[0]) + interval, interval, nows[1..]);
      var t, rest := Slots(next, interval, nows), Slots(Later(next, nows[0]) + interval, interval, nows[1..]);
      assert t[1..] == rest;
      forall i | 0 < i < |t| ensures nows[i] <= t[i] && t[i - 1] + interval <= t[i] {
        assert t[i] == rest[i - 1] && nows[i] == nows[1..][i - 1];
        if i > 1 { assert t[i - 1] == rest[i - 2]; }
      }
    }
  }

  /** No schedule serves any caller earlier. */
  lemma {:induction false} SlotsAreLeast(next: real, interval: real, nows: seq<real>, t: seq<real>)
    requires Schedule(t, next, interval, nows)
    ensures |Slots(next, interval, nows)| == |t|
    ensures forall i :: 0 <= i < |t| ==> Slots(next, interval, nows)[i] <= t[i]
    decreases nows
  {
    if nows != [] {
      var slot := Later(next, nows[0]);
      forall i | 0 < i < |t[1..]| ensures t[1..][i - 1] + interval <= t[1..][i] {
        assert t[i] + interval <= t[i + 1];
      }
      assert forall i :: 0 <= i < |t| - 1 ==> nows[1..][i] == nows[i + 1] && t[1..][i] == t[i + 1];
      SlotsAreLeast(slot + interval, interval, nows[1..], t[1..]);
      var s, rest := Slots(next, interval, nows), Slots(slot + interval, interval, nows[1..]);
      forall i | 0 < i < |t| ensures s[i] <= t[i] {
        assert s[i] == rest[i - 1] && rest[i - 1] <= t[1..][i - 1];
      }
    }
  }

  /** Caller `i` cannot be served before caller `j` has come and `i - j` intervals have passed. */
  function Bound(interval: real, nows: seq<real>, i: nat, j: nat): real
    requires j <= i < |nows|
  {
    nows[j] + Times(interval, i - j)
  }

  /**
   The slot of caller `i` is the largest of these bounds over all earlier callers and of the
   cursor's own bound, and is reached by one of them.
   */
  lemma {:induction false} SlotIsMaxPlus(next: real, interval: real, nows: seq<real>, i: nat)
    requires interval >= 0.0 && i < |nows|
    ensures i < |Slots(next, interval, nows)|
    ensures var slot := Slots(next, interval, nows)[i];
      && next + Times(interval, i) <= slot
      && (forall j :: 0 <= j <= i ==> Bound(interval, nows, i, j) <= slot)
      && (slot == next + Times(interval, i) || exists j :: 0 <= j <= i && slot == Bound(interval, nows, i, j))
    decreases i
  {
    SlotsAreSchedule(next, interval, nows);
    var t := Slots(next, interval, nows);
    if i == 0 {
      assert Bound(interval, nows, 0, 0) == nows[0];
    } else {
      SlotIsMaxPlus(next, interval, nows, i - 1);
      SlotFollows(next, interval, nows, i);
      forall j | 0 <= j <= i ensures Bound(interval, nows, i, j) <= t[i] {
        if j < i { assert Bound(interval, nows, i, j) == Bound(interval, nows, i - 1, j) + interval; }
      }
      if t[i] == nows[i] {
        assert t[i] == Bound(interval, nows, i, i);
      } else if t[i - 1] != next + Times(interval, i - 1) {
        var j :| 0 <= j <= i - 1 && t[i - 1] == Bound(interval, nows, i - 1, j);
        assert t[i] == Bound(interval, nows, i, j);
      }
    }
  }

  /** Each slot is the arrival or one interval after the previous slot, whichever is later. */
  lemma {:induction false} SlotFollows(next: real, interval: real, nows: seq<real>, i: nat)
    requires 0 < i < |nows|
    ensures |Slots(next, interval, nows)| == |nows|
    ensures Slots(next, interval, nows)[i] == Later(Slots(next, interval, nows)[i - 1] + interval, nows[i])
    decreases nows
  {
    var first := Later(next, nows[0]);
    var t, rest := Slots(next, interval, nows), Slots(first + interval, interval, nows[1..]);
    assert t[1..] == rest;
    if i > 1 {
      SlotFollows(first + interval, interval, nows[1..], i - 1);
      assert t[i] == rest[i - 1] && t[i - 1] == rest[i - 2];
    } else {
      SlotsLength(first + interval, interval, nows[1..]);
      assert t[1] == rest[0];
    }
  }

  lemma {:induction false} SlotsLength(next: real, interval: real, nows: seq<real>)
    ensures |Slots(next, interval, nows)| == |nows|
    decreases nows
  {
    if nows != [] { SlotsLength(Later(next, nows[0]) + interval, interval, nows[1..]); }
  }

  /** For a new limiter and a clock that is never negative, arrivals alone decide. */
  lemma {:induction false} FirstUseMaxPlus(interval: real, nows: seq<real>, i: nat)
    requires interval >= 0.0 && i < |nows| && forall k :: 0 <= k < |nows| ==> nows[k] >= 0.0
    ensures i < |Slots(0.0, interval, nows)|
    ensures var slot := Slots(0.0, interval, nows)[i];
      (forall j :: 0 <= j <= i ==> Bound(interval, nows, i, j) <= slot)
      && exists j :: 0 <= j <= i && slot == Bound(interval, nows, i, j)
  {
    SlotIsMaxPlus(0.0, interval, nows, i);
    if Slots(0.0, interval, nows)[i] == 0.0 + Times(interval, i) {
      assert Slots(0.0, interval, nows)[i] == Bound(interval, nows, i, 0);
    }
  }

  // ----- The rate -----

  function CountIn(t: seq<real>, from: real, length: real): nat {
    if t == [] then 0 else
    var last := t[|t| - 1];
    CountIn(t[..|t| - 1], from, length) + (if from <= last < from + length then 1 else 0)
  }

  function Ceil(x: real): int { -((-x).Floor) }

  lemma {:induction false} SpacedCount(t: seq<real>, interval: real, from: real, length: real, c: nat)
    requires interval > 0.0 && Times(interval, c) >= length
    requires forall i :: 0 < i < |t| ==> t[i - 1] + interval <= t[i]
    ensures var n := CountIn(t, from, length);
      n <= c && (n > 0 ==> t[|t| - 1] >= from + Times(interval, n - 1))
    decreases |t|
  {
    if t != [] {
      var init := t[..|t| - 1];
      SpacedCount(init, interval, from, length, c);
      var n, last := CountIn(init, from, length), t[|t| - 1];
      if n > 0 { assert init[|init| - 1] == t[|t| - 2]; }
      if from <= last < from + length && n >= c {
        TimesGrows(interval, c, n);
      }
    }
  }

  lemma CeilCovers(length: real, interval: real)
    requires interval > 0.0 && length >= 0.0
    ensures Ceil(length / interval) >= 0 && Times(interval, Ceil(length / interval)) >= length
  {
    var q, c := length / interval, Ceil(length / interval);
    assert q * interval == length;
    NonNegative(q, interval);
    Scale(interval, q, c as real);
    TimesIsProduct(interval, c);
  }

  lemma NonNegative(q: real, interval: real)
    requires interval > 0.0 && q * interval >= 0.0
    ensures q >= 0.0
  {}

  /** Any half-open window of this length holds at most so many slots, whatever the clock did. */
  lemma {:induction false} WindowHoldsAtMost(next: real, interval: real, nows: seq<real>, from: real, length: real)
    requires interval > 0.0 && length >= 0.0
    ensures CountIn(Slots(next, interval, nows), from, length) <= Ceil(length / interval)
  {
    SlotsAreSchedule(next, interval, nows);
    CeilCovers(length, interval);
    SpacedCount(Slots(next, interval, nows), interval, from, length, Ceil(length / interval));
  }

  // ----- Resets -----

  ghost predicate Spaced(t: seq<real>, interval: real) { forall i :: 0 < i < |t| ==> t[i - 1] + interval <= t[i] }

  lemma JoinSpaced(a: seq<real>, b: seq<real>, interval: real)
    ensures Spaced(a + b, interval) <==>
              && Spaced(a, interval) && Spaced(b, interval)
              && (a != [] && b != [] ==> a[|a| - 1] + interval <= b[0])
  {
    var t := a + b;
    if Spaced(t, interval) {
      forall i | 0 < i < |a| ensures a[i - 1] + interval <= a[i] { assert t[i - 1] + interval <= t[i]; }
      forall i | 0 < i < |b| ensures b[i - 1] + interval <= b[i] {
        assert t[|a| + i - 1] + interval <= t[|a| + i];
      }
      if a != [] && b != [] { assert t[|a| - 1] + interval <= t[|a|]; }
    }
  }

  /** The cursor stands one interval behind the last slot. */
  lemma {:induction false} CursorIsNext(next: real, interval: real, nows: seq<real>)
    requires nows != []
    ensures |Slots(next, interval, nows)| == |nows|
    ensures CursorAfter(next, interval, nows) == Slots(next, interval, nows)[|nows| - 1] + interval
    decreases nows
  {
    if |nows| == 1 {
      assert nows[1..] == [];
    } else {
      CursorIsNext(Later(next, nows[0]) + interval, interval, nows[1..]);
    }
  }

  /** The slots of callers in groups, the limiter being reset between one group and the next. */
  function ResetSlots(next: real, interval: real, groups: seq<seq<real>>): seq<real>
    decreases groups
  {
    if groups == [] then [] else Slots(next, interval, groups[0]) + ResetSlots(0.0, interval, groups[1..])
  }

  /** The next group comes no earlier than the cursor that the reset forgets, unless that is not yet positive. */
  predicate Waits(cursor: real, group: seq<real>) { group != [] && cursor > 0.0 ==> group[0] >= cursor }

  /** The first group in which anybody comes. */
  function FirstComers(groups: seq<seq<real>>): seq<real> {
    if groups == [] then [] else if groups[0] != [] then groups[0] else FirstComers(groups[1..])
  }

  /** After every group the next to come, however many resets later, wait for the cursor it left. */
  predicate AllWait(next: real, interval: real, groups: seq<seq<real>>)
    decreases groups
  {
    groups == [] ||
    ((groups[0] == [] || Waits(CursorAfter(next, interval, groups[0]), FirstComers(groups[1..])))
     && AllWait(0.0, interval, groups[1..]))
  }

  /**
   One reset: the slots before and after it keep the spacing exactly if nobody came before it, nobody
   comes after it, or the first who does comes no earlier than the forgotten cursor.
   */
  lemma {:induction false} OneResetKeepsSpacingExactly(next: real, interval: real, nows: seq<real>, nows': seq<real>)
    requires interval >= 0.0
    ensures Spaced(Slots(next, interval, nows) + Slots(0.0, interval, nows'), interval) <==>
              nows == [] || Waits(CursorAfter(next, interval, nows), nows')
  {
    SlotsAreSchedule(next, interval, nows);
    SlotsAreSchedule(0.0, interval, nows');
    JoinSpaced(Slots(next, interval, nows), Slots(0.0, interval, nows'), interval);
    if nows != [] { CursorIsNext(next, interval, nows); }
  }

  lemma {:induction false} ResetSlotsFirst(interval: real, groups: seq<seq<real>>)
    ensures ResetSlots(0.0, interval, groups) == [] <==> FirstComers(groups) == []
    ensures FirstComers(groups) != [] ==> ResetSlots(0.0, interval, groups)[0] == Later(0.0, FirstComers(groups)[0])
  {
    if groups != [] && groups[0] == [] { ResetSlotsFirst(interval, groups[1..]); }
  }

  /** Any number of resets, some with no caller in between: the spacing is kept exactly if all wait. */
  lemma {:induction false} ResetKeepsSpacingExactly(next: real, interval: real, groups: seq<seq<real>>)
    requires interval >= 0.0
    ensures Spaced(ResetSlots(next, interval, groups), interval) <==> AllWait(next, interval, groups)
    decreases groups
  {
    if groups != [] {
      var first, rest := Slots(next, interval, groups[0]), ResetSlots(0.0, interval, groups[1..]);
      SlotsAreSchedule(next, interval, groups[0]);
      JoinSpaced(first, rest, interval);
      ResetKeepsSpacingExactly(0.0, interval, groups[1..]);
      ResetSlotsFirst(interval, groups[1..]);
      if groups[0] != [] { CursorIsNext(next, interval, groups[0]); }
    }
  }

  lemma Associates(a: seq<real>, b: seq<real>, c: seq<real>)
    ensures a + (b + c) == a + b + c
  {}

  /** Calls compose: a caller after others continues from the cursor they leave. */
  lemma {:induction false} SlotsCompose(next: real, interval: real, nows: seq<real>, now: real)
    ensures Slots(next, interval, nows + [now])
            == Slots(next, interval, nows) + Slots(CursorAfter(next, interval, nows), interval, [now])
    ensures CursorAfter(next, interval, nows + [now])
            == CursorAfter(CursorAfter(next, interval, nows), interval, [now])
    decreases nows
  {
    if nows == [] {
      assert nows + [now] == [now];
    } else {
      var slot := Later(next, nows[0]);
      assert (nows + [now])[1..] == nows[1..] + [now];
      SlotsCompose(slot + interval, interval, nows[1..], now);
      Associates([slot], Slots(slot + interval, interval, nows[1..]),
                 Slots(CursorAfter(slot + interval, interval, nows[1..]), interval, [now]));
    }
  }

  // ----- The class -----

  class AsyncRateLimiter {
    const minInterval: real
    var nextSlot: real

    constructor (interval: real)
      ensures minInterval == interval && nextSlot == 0.0
    {
      minInterval := interval;
      nextSlot := 0.0;
    }

    /** The exported constructor: a rate that is not positive is refused. */
    static method Create(callsPerSecond: real) returns (r: Result<AsyncRateLimiter, string>)
      ensures r.Success? <==> callsPerSecond > 0.0
      ensures r.Success? ==> fresh(r.value) && r.value.nextSlot == 0.0 && r.value.minInterval * callsPerSecond == 1000.0
    {
      if callsPerSecond <= 0.0 {
        return Failure("callsPerSecond must be positive");
      }
      var limiter := new AsyncRateLimiter(1000.0 / callsPerSecond);
      r := Success(limiter);
    }

    /** Reserve a slot and return how long to sleep; the sleeper wakes no earlier than its slot. */
    method Acquire(now: real) returns (wait: real)
      modifies this`nextSlot
      ensures wait >= 0.0 && now + wait == Slots(old(nextSlot), minInterval, [now])[0]
      ensures nextSlot == CursorAfter(old(nextSlot), minInterval, [now])
    {
      if nextSlot < now {
        nextSlot := now;
      }
      var mySlot := nextSlot;
      nextSlot := nextSlot + minInterval;
      wait := mySlot - now;
      assert [now][1..] == [];
    }

    method Reset()
      modifies this`nextSlot
      ensures nextSlot == 0.0
    {
      nextSlot := 0.0;
    }
  }
}
