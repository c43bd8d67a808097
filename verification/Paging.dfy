/** Batched reading of the portfolio pages, against reading them one by one. */
module Paging {
  import opened Common

  const BATCH_SIZE := 5
  const PAGE_HARD_CAP := 50

  /** A row of a page; decoding its symbol or an amount may throw. */
  datatype Row = Row(symbol: string, total: real, available: real) | Undecodable

  /** The answer to a page request. */
  datatype Page = Throws | Page(rows: seq<Row>)

  datatype Balance = Balance(total: real, available: real, locked: real)

  function BalanceOf(r: Row): Balance
    requires r.Row?
  {
    Balance(r.total, r.available, r.total - r.available)
  }

  predicate Decodable(rows: seq<Row>) {
    forall i :: 0 <= i < |rows| ==> rows[i].Row?
  }

  /** Rows written into the record in order. */
  function Collect(out: map<string, Balance>, rows: seq<Row>): map<string, Balance>
    requires Decodable(rows)
    decreases |rows|
  {
    if rows == [] then out
    else Collect(out, rows[..|rows| - 1])[rows[|rows| - 1].symbol := BalanceOf(rows[|rows| - 1])]
  }

  lemma {:induction false} CollectConcat(out: map<string, Balance>, a: seq<Row>, b: seq<Row>)
    requires Decodable(a) && Decodable(b)
    ensures Decodable(a + b) && Collect(out, a + b) == Collect(Collect(out, a), b)
    decreases |b|
  {
    if b == [] {
      assert a + b == a;
    } else {
      CollectConcat(out, a, b[..|b| - 1]);
      assert (a + b)[..|a + b| - 1] == a + b[..|b| - 1];
    }
  }

  /** The last row of a symbol. */
  predicate IsLast(rows: seq<Row>, symbol: string, i: nat)
    requires Decodable(rows)
  {
    i < |rows| && rows[i].symbol == symbol && forall j :: i < j < |rows| ==> rows[j].symbol != symbol
  }

  /** What is collected: exactly the symbols seen, each with its last row. */
  lemma {:induction false} LastRowWins(rows: seq<Row>, symbol: string)
    requires Decodable(rows)
    ensures symbol in Collect(map[], rows) <==> exists i :: 0 <= i < |rows| && rows[i].symbol == symbol
    ensures forall i :: 0 <= i < |rows| && IsLast(rows, symbol, i) ==>
              var total, available := rows[i].total, rows[i].available;
              symbol in Collect(map[], rows) && Collect(map[], rows)[symbol] == Balance(total, available, total - available)
    decreases |rows|
  {
    if rows != [] {
      var init := rows[..|rows| - 1];
      LastRowWins(init, symbol);
      forall i | 0 <= i < |rows| && IsLast(rows, symbol, i)
        ensures symbol in Collect(map[], rows) && Collect(map[], rows)[symbol] == BalanceOf(rows[i])
      {
        if i < |init| { assert IsLast(init, symbol, i); }
      }
      if i :| 0 <= i < |rows| && rows[i].symbol == symbol && i < |init| {
        assert init[i].symbol == symbol;
      }
    }
  }

  // ----- Reading the pages one by one -----

  /** Pages in order up to the first empty one or the cap, or `None` once something throws. */
  function ReadOn(pages: nat -> Page, i: nat, cap: nat, out: map<string, Balance>): Option<map<string, Balance>>
    requires i <= cap
    decreases cap - i
  {
    if i == cap then Some(out) else
    match pages(i)
    case Throws => None
    case Page(rows) =>
      if rows == [] then Some(out)
      else if !Decodable(rows) then None
      else ReadOn(pages, i + 1, cap, Collect(out, rows))
  }

  function Sequential(pages: nat -> Page, cap: nat): Option<map<string, Balance>> { ReadOn(pages, 0, cap, map[]) }

  /** A page that reading goes past. */
  predicate Full(p: Page) { p.Page? && p.rows != [] && Decodable(p.rows) }

  /** The first page from `i` on that reading does not go past, or the cap. */
  function Stop(pages: nat -> Page, i: nat, cap: nat): (n: nat)
    requires i <= cap
    ensures i <= n <= cap && (n < cap ==> !Full(pages(n)))
    ensures forall k :: i <= k < n ==> Full(pages(k))
    decreases cap - i
  {
    if i == cap || !Full(pages(i)) then i else Stop(pages, i + 1, cap)
  }

  predicate AllFull(pages: nat -> Page, n: nat) {
    forall k :: 0 <= k < n ==> Full(pages(k))
  }

  /** All rows of the first `n` pages. */
  function Rows(pages: nat -> Page, n: nat): (r: seq<Row>)
    requires AllFull(pages, n)
    ensures Decodable(r)
  {
    if n == 0 then [] else
    assert Full(pages(n - 1));
    Rows(pages, n - 1) + pages(n - 1).rows
  }

  /** What they collect to. */
  function Record(pages: nat -> Page, n: nat): map<string, Balance>
    requires AllFull(pages, n)
  {
    Collect(map[], Rows(pages, n))
  }

  lemma NextRecord(pages: nat -> Page, n: nat)
    requires AllFull(pages, n) && Full(pages(n))
    ensures AllFull(pages, n + 1) && Record(pages, n + 1) == Collect(Record(pages, n), pages(n).rows)
  {
    CollectConcat(map[], Rows(pages, n), pages(n).rows);
  }

  /** Reading ends well at an empty page or at the cap. */
  predicate EndsWell(pages: nat -> Page, cap: nat) {
    var f := Stop(pages, 0, cap);
    f < cap ==> pages(f) == Page([])
  }

  lemma {:induction false} ReadOnExactly(pages: nat -> Page, i: nat, cap: nat)
    requires i <= cap && AllFull(pages, i)
    ensures Stop(pages, 0, cap) == Stop(pages, i, cap)
    ensures ReadOn(pages, i, cap, Record(pages, i))
            == if EndsWell(pages, cap) then Some(Record(pages, Stop(pages, 0, cap))) else None
    decreases cap - i
  {
    StopAgrees(pages, 0, i, cap);
    if i < cap && Full(pages(i)) {
      NextRecord(pages, i);
      ReadOnExactly(pages, i + 1, cap);
    }
  }

  lemma {:induction false} StopAgrees(pages: nat -> Page, i: nat, j: nat, cap: nat)
    requires i <= j <= cap && forall k :: i <= k < j ==> Full(pages(k))
    ensures Stop(pages, i, cap) == Stop(pages, j, cap)
    decreases j - i
  {
    if i < j { StopAgrees(pages, i + 1, j, cap); }
  }

  /** One by one the record is that of all rows before the first empty page, unless something throws before it. */
  lemma {:induction false} SequentialExactly(pages: nat -> Page, cap: nat)
    ensures Sequential(pages, cap)
            == if EndsWell(pages, cap) then Some(Record(pages, Stop(pages, 0, cap))) else None
  {
    ReadOnExactly(pages, 0, cap);
  }

  // ----- Reading them in batches -----

  /** A request between two positions throws. */
  predicate SomeThrows(pages: nat -> Page, i: nat, j: nat) {
    exists k :: i <= k < j && pages(k).Throws?
  }

  /** The end of the batch that `f` lies in. */
  function BatchEnd(f: nat, batch: nat, cap: nat): nat
    requires batch > 0
  {
    var end := (f / batch + 1) * batch;
    if end < cap then end else cap
  }

  /** A batch throws on account of a page beyond the one that reading stops at. */
  predicate Spoilt(pages: nat -> Page, batch: nat, cap: nat)
    requires batch > 0
  {
    var f := Stop(pages, 0, cap);
    SomeThrows(pages, f + 1, BatchEnd(f, batch, cap))
  }

  /** The outcome of reading one by one, unless a batch throws on its own account. */
  function Batched(pages: nat -> Page, batch: nat, cap: nat): Option<map<string, Balance>>
    requires batch > 0
  {
    if Spoilt(pages, batch, cap) then None else Sequential(pages, cap)
  }

  /** A request of the batch throws, or a page that is read before an empty one does not decode. */
  predicate BatchThrows(pages: nat -> Page, start: nat, end: nat)
    requires start <= end
  {
    var f := Stop(pages, start, end);
    SomeThrows(pages, start, end) || (f < end && pages(f) != Page([]))
  }

  /** Where batch `q` starts. */
  function BatchStart(q: nat, batch: nat): nat { if q == 0 then 0 else BatchStart(q - 1, batch) + batch }

  lemma {:induction false} BatchStartIsProduct(q: nat, batch: nat)
    ensures BatchStart(q, batch) == q * batch
  {
    if q > 0 {
      BatchStartIsProduct(q - 1, batch);
      assert q * batch == (q - 1) * batch + batch;
    }
  }

  lemma OwnBatch(q: nat, batch: nat, f: nat)
    requires batch > 0 && q * batch <= f < q * batch + batch
    ensures (f / batch + 1) * batch == q * batch + batch
  {
    var d := f / batch;
    assert f == d * batch + f % batch;
    if d < q { Multiples(d + 1, q, batch); }
    if d > q { Multiples(q + 1, d, batch); }
    assert d == q;
  }

  lemma PastOwnBatch(f: nat, batch: nat)
    requires batch > 0
    ensures (f / batch + 1) * batch > f
  {
    var d := f / batch;
    assert f == d * batch + f % batch;
    assert (d + 1) * batch == d * batch + batch;
  }

  lemma Multiples(a: nat, b: nat, m: nat)
    requires a <= b
    ensures a * m <= b * m
  {}

  /** `n` pages requested together: all of them, or `None` as soon as one throws. */
  function Fetch(pages: nat -> Page, start: nat, n: nat): (r: Option<seq<seq<Row>>>)
    ensures r.None? <==> SomeThrows(pages, start, start + n)
    ensures r.Some? ==> |r.value| == n && forall i :: 0 <= i < n ==> pages(start + i) == Page(r.value[i])
  {
    if n == 0 then Some([]) else
    match (Fetch(pages, start, n - 1), pages(start + n - 1))
    case (Some(before), Page(rows)) => Some(before + [rows])
    case _ => None
  }

  /** One page's rows into the record. */
  method AddRows(out: map<string, Balance>, rows: seq<Row>) returns (r: Option<map<string, Balance>>)
    ensures r == if Decodable(rows) then Some(Collect(out, rows)) else None
  {
    var m := out;
    var i := 0;
    while i < |rows|
      invariant 0 <= i <= |rows| && Decodable(rows[..i])
      invariant m == Collect(out, rows[..i])
    {
      assert rows[..i + 1][..i] == rows[..i];
      if rows[i].Undecodable? { return None; }
      m := m[rows[i].symbol := Balance(rows[i].total, rows[i].available, rows[i].total - rows[i].available)];
      i := i + 1;
    }
    assert rows[..i] == rows;
    r := Some(m);
  }

  /** Read one batch in order up to an empty page. */
  method ReadBatch(pages: nat -> Page, start: nat, end: nat, out: map<string, Balance>)
    returns (r: Option<map<string, Balance>>, sawEmpty: bool)
    requires start <= end && AllFull(pages, start)
    requires out == Record(pages, start)
    ensures var f := Stop(pages, start, end);
      && (r.None? <==> BatchThrows(pages, start, end))
      && (r.Some? ==> r.value == Record(pages, f) && (sawEmpty <==> f < end))
  {
    sawEmpty := false;
    var results := Fetch(pages, start, end - start);
    if results.None? { return None, false; }
    var m, i := out, start;
    while i < end
      invariant start <= i <= end && AllFull(pages, i)
      invariant m == Record(pages, i)
    {
      StopAgrees(pages, start, i, end);
      var data := results.value[i - start];
      assert pages(start + (i - start)) == Page(data);
      if data == [] { return Some(m), true; }
      var added := AddRows(m, data);
      if added.None? { return None, false; }
      NextRecord(pages, i);
      m := added.value;
      i := i + 1;
    }
    r := Some(m);
  }

  /** Within a batch reading stops where it stops at all, or at the end of the batch. */
  lemma {:induction false} StopCapped(pages: nat -> Page, i: nat, end: nat, cap: nat)
    requires i <= end <= cap
    ensures Stop(pages, i, end) == if Stop(pages, i, cap) < end then Stop(pages, i, cap) else end
    decreases end - i
  {
    if i < end && Full(pages(i)) { StopCapped(pages, i + 1, end, cap); }
  }

  /** What a batch from `start` on comes to, when reading goes past all pages before it. */
  lemma {:induction false} BatchVerdict(pages: nat -> Page, q: nat, batch: nat, start: nat, end: nat, cap: nat)
    requires batch > 0 && start == BatchStart(q, batch) && start < cap
    requires end == (if start + batch < cap then start + batch else cap)
    requires start <= Stop(pages, 0, cap)
    ensures var f := Stop(pages, 0, cap);
      && Stop(pages, start, end) == (if f < end then f else end)
      && (f >= end ==> !BatchThrows(pages, start, end))
      && (f < end ==>
            && BatchEnd(f, batch, cap) == end
            && Batched(pages, batch, cap)
               == if BatchThrows(pages, start, end) then None else Some(Record(pages, f)))
  {
    var f := Stop(pages, 0, cap);
    StopAgrees(pages, 0, start, cap);
    StopCapped(pages, start, end, cap);
    SequentialExactly(pages, cap);
    if f < end {
      BatchStartIsProduct(q, batch);
      OwnBatch(q, batch, f);
      ThrowsAfter(pages, start, f, end);
    }
  }

  lemma ThrowsAfter(pages: nat -> Page, start: nat, f: nat, end: nat)
    requires start <= f < end && forall k :: start <= k < f ==> Full(pages(k))
    ensures SomeThrows(pages, start, end) <==> pages(f).Throws? || SomeThrows(pages, f + 1, end)
  {}

  /**
   Whole batches are fetched at once and read in order up to an empty page.  For any batch size and
   cap the outcome is that of reading one by one, a throw included, unless a page beyond the one
   where reading stops, but in its batch, throws: then this does.  Just the batches up to that page
   are requested.
   */
  method FetchBatches(pages: nat -> Page, batch: nat, cap: nat)
    returns (out: Option<map<string, Balance>>, fetched: nat)
    requires batch > 0
    ensures out == Batched(pages, batch, cap)
    ensures fetched == BatchEnd(Stop(pages, 0, cap), batch, cap)
  {
    fetched := 0;
    var m: map<string, Balance> := map[];
    var batchStart := 0;
    ghost var f, q := Stop(pages, 0, cap), 0;
    while batchStart < cap
      invariant batchStart == BatchStart(q, batch)
      invariant fetched == (if batchStart <= cap then batchStart else cap) <= f
      invariant m == Record(pages, fetched)
    {
      var batchEnd := if batchStart + batch < cap then batchStart + batch else cap;
      BatchVerdict(pages, q, batch, batchStart, batchEnd, cap);
      fetched := batchEnd;
      var read, sawEmpty := ReadBatch(pages, batchStart, batchEnd, m);
      if read.None? { return None, fetched; }
      m := read.value;
      if sawEmpty { return Some(m), fetched; }
      batchStart := batchStart + batch;
      q := q + 1;
    }
    CapEnds(pages, batch, cap);
    out := Some(m);
  }

  /** Reading up to the cap. */
  lemma {:induction false} CapEnds(pages: nat -> Page, batch: nat, cap: nat)
    requires batch > 0 && Stop(pages, 0, cap) == cap
    ensures BatchEnd(cap, batch, cap) == cap && Batched(pages, batch, cap) == Some(Record(pages, cap))
  {
    SequentialExactly(pages, cap);
    PastOwnBatch(cap, batch);
  }

  method FetchAll(pages: nat -> Page) returns (out: Option<map<string, Balance>>, fetched: nat)
    ensures out == Batched(pages, BATCH_SIZE, PAGE_HARD_CAP)
    ensures fetched == BatchEnd(Stop(pages, 0, PAGE_HARD_CAP), BATCH_SIZE, PAGE_HARD_CAP)
  {
    out, fetched := FetchBatches(pages, BATCH_SIZE, PAGE_HARD_CAP);
  }

  /**
   So the batches lose a record exactly if reading one by one ends at an empty page and a page
   after it in the same batch throws, as with page 0 empty and page 1 throwing.
   */
  lemma {:induction false} BatchesDifferExactly(pages: nat -> Page, batch: nat, cap: nat)
    requires batch > 0
    ensures Batched(pages, batch, cap) != Sequential(pages, cap)
            <==> var f := Stop(pages, 0, cap);
                 f < cap && pages(f) == Page([]) && SomeThrows(pages, f + 1, BatchEnd(f, batch, cap))
    ensures batch > 1 && cap > 1 && pages(0) == Page([]) && pages(1) == Throws ==>
              Sequential(pages, cap) == Some(map[]) && Batched(pages, batch, cap) == None
  {
    SequentialExactly(pages, cap);
    if batch > 1 && cap > 1 && pages(0) == Page([]) && pages(1) == Throws {
      OwnBatch(0, batch, 0);
      assert 1 < BatchEnd(0, batch, cap);
    }
  }
}
