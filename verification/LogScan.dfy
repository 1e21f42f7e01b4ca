/** The USDC transfer scan with its stored watermark (`PolygonReads.swift`, `scanAndMerge`). */
module LogScan {
  import opened Bytes

  /** The stable key of a row: transaction hash and log index. */
  datatype Key = Key(hash: string, logIndex: int)

  datatype Row = Row(key: Key, block: int, sender: string, receiver: string, valueMicro: int)

  datatype Chunk = Chunk(first: int, last: int)

  /** The answer to the n-th `eth_getLogs` request of a pass; `None` is any failure. */
  type Rpc = (nat, Chunk) -> Option<seq<Row>>

  const INITIAL_ANCHOR: int := 90_180_000
  const MAX_LOG_RANGE: int := 10_000
  const MIN_LOG_RANGE: int := 1_000

  function MinInt(a: int, b: int): int { if a <= b then a else b }
  function MaxInt(a: int, b: int): int { if a <= b then b else a }

  // ----- one pass -----

  /** The variables of the scan loop, with the number of requests made and the chunks read so far. */
  datatype Scan = Scan(cursor: int, step: int, scannedTo: int, cache: map<Key, Row>, asked: nat, chunks: seq<Chunk>)

  function Merge(cache: map<Key, Row>, rows: seq<Row>): map<Key, Row> {
    if rows == [] then cache
    else Merge(cache, rows[..|rows| - 1])[rows[|rows| - 1].key := rows[|rows| - 1]]
  }

  function NextChunk(s: Scan, head: int): Chunk { Chunk(s.cursor, MinInt(s.cursor + s.step - 1, head)) }

  function Advance(rpc: Rpc, head: int, s: Scan): Scan
    requires s.cursor <= head && s.step >= MIN_LOG_RANGE
  {
    var chunk := NextChunk(s, head);
    var answer := rpc(s.asked, chunk);
    if answer.Some? then
      Scan(chunk.last + 1, s.step, chunk.last, Merge(s.cache, answer.value), s.asked + 1, s.chunks + [chunk])
    else if s.step > MIN_LOG_RANGE then
      s.(step := MaxInt(MIN_LOG_RANGE, s.step / 2), asked := s.asked + 1)
    else
      s.(cursor := head + 1, asked := s.asked + 1)
  }

  /** The loop: it ends because the blocks left, or else the step, go down. */
  function Iterate(rpc: Rpc, head: int, s: Scan): Scan
    requires s.step >= MIN_LOG_RANGE
    decreases MaxInt(0, head + 1 - s.cursor), s.step
  {
    if s.cursor > head then s else Iterate(rpc, head, Advance(rpc, head, s))
  }

  /** What is kept between passes: the watermark, the cached rows, and the chunks ever read. */
  datatype Store = Store(mark: Option<int>, cache: map<Key, Row>, chunks: seq<Chunk>)

  function Anchor(s: Store): int { if s.mark.Some? then s.mark.value else INITIAL_ANCHOR }

  function Begin(s: Store, head: int): Scan {
    var cursor := MinInt(Anchor(s), head);
    Scan(cursor, MAX_LOG_RANGE, cursor - 1, s.cache, 0, s.chunks)
  }

  function Finish(s: Store, r: Scan): Store {
    Store(if r.scannedTo >= Anchor(s) then Some(MaxInt(Anchor(s), r.scannedTo + 1)) else s.mark, r.cache, r.chunks)
  }

  datatype Pass = Pass(head: Option<int>, rpc: Rpc)

  function AfterPass(s: Store, p: Pass): Store {
    if p.head.None? then s else Finish(s, Iterate(p.rpc, p.head.value, Begin(s, p.head.value)))
  }

  class ScanStore {
    var mark: Option<int>
    var cache: map<Key, Row>
    ghost var chunks: seq<Chunk>

    ghost function View(): Store
      reads this
    {
      Store(mark, cache, chunks)
    }

    constructor ()
      ensures View() == EMPTY
    {
      mark, cache, chunks := None, map[], [];
    }

    method ScanAndMerge(p: Pass) returns (rows: set<Row>)
      modifies this
      ensures View() == AfterPass(old(View()), p)
      ensures rows == cache.Values
    {
      if p.head.None? {
        return cache.Values;
      }
      var head := p.head.value;
      var anchored := if mark.Some? then mark.value else INITIAL_ANCHOR;
      var scannedTo;
      scannedTo, cache, chunks := ScanChunks(p.rpc, head, MinInt(anchored, head), cache, chunks);
      if scannedTo >= anchored {
        mark := Some(MaxInt(anchored, scannedTo + 1));
      }
      return cache.Values;
    }
  }

  /** The loop over chunks, from `start` to `head`, halving the step on failure. */
  method ScanChunks(rpc: Rpc, head: int, start: int, cache: map<Key, Row>, ghost read: seq<Chunk>)
    returns (scannedTo: int, merged: map<Key, Row>, ghost chunks: seq<Chunk>)
    ensures scannedTo == Iterate(rpc, head, Scan(start, MAX_LOG_RANGE, start - 1, cache, 0, read)).scannedTo
    ensures merged == Iterate(rpc, head, Scan(start, MAX_LOG_RANGE, start - 1, cache, 0, read)).cache
    ensures chunks == Iterate(rpc, head, Scan(start, MAX_LOG_RANGE, start - 1, cache, 0, read)).chunks
  {
    merged, chunks, scannedTo := cache, read, start - 1;
    var cursor, step, asked := start, MAX_LOG_RANGE, 0;
    while cursor <= head
      invariant step >= MIN_LOG_RANGE
      invariant Iterate(rpc, head, Scan(cursor, step, scannedTo, merged, asked, chunks))
             == Iterate(rpc, head, Scan(start, MAX_LOG_RANGE, start - 1, cache, 0, read))
      decreases MaxInt(0, head + 1 - cursor), step
    {
      var last := MinInt(cursor + step - 1, head);
      var answer := rpc(asked, Chunk(cursor, last));
      asked := asked + 1;
      if answer.Some? {
        merged := MergeRows(merged, answer.value);
        chunks := chunks + [Chunk(cursor, last)];
        scannedTo := last;
        cursor := last + 1;
      } else {
        if step > MIN_LOG_RANGE {
          step := MaxInt(MIN_LOG_RANGE, step / 2);
          continue;
        }
        cursor := head + 1;
      }
    }
  }

  method MergeRows(cache: map<Key, Row>, rows: seq<Row>) returns (merged: map<Key, Row>)
    ensures merged == Merge(cache, rows)
  {
    merged := cache;
    for i := 0 to |rows|
      invariant merged == Merge(cache, rows[..i])
    {
      assert rows[..i + 1][..i] == rows[..i];
      merged := merged[rows[i].key := rows[i]];
    }
    assert rows[..|rows|] == rows;
  }

  // ----- a stable chain -----

  /** The transfers of one address on a stable chain; a key names one transfer. */
  ghost predicate IsChain(chain: set<Row>) {
    forall a, b :: a in chain && b in chain && a.key == b.key ==> a == b
  }

  /** Whatever the endpoint answers, successful answers list exactly the chain's rows of the chunk. */
  ghost predicate Honest(chain: set<Row>, rpc: Rpc) {
    forall n, c, row :: rpc(n, c).Some? ==>
      (row in rpc(n, c).value <==> row in chain && c.first <= row.block <= c.last)
  }

  predicate Holds(cache: map<Key, Row>, row: Row) { row.key in cache && cache[row.key] == row }

  predicate Covers(chunks: seq<Chunk>, b: int) {
    exists i :: 0 <= i < |chunks| && chunks[i].first <= b <= chunks[i].last
  }

  /** Every chain row in a chunk read so far is cached. */
  ghost predicate Complete(chain: set<Row>, cache: map<Key, Row>, chunks: seq<Chunk>) {
    forall row :: row in chain && Covers(chunks, row.block) ==> Holds(cache, row)
  }

  /** Every cached row is a row of the chain. */
  ghost predicate Sound(chain: set<Row>, cache: map<Key, Row>) {
    forall k :: k in cache ==> cache[k] in chain && cache[k].key == k
  }

  lemma {:induction false} MergeHolds(chain: set<Row>, cache: map<Key, Row>, rows: seq<Row>)
    requires IsChain(chain) && Sound(chain, cache) && forall i :: 0 <= i < |rows| ==> rows[i] in chain
    ensures Sound(chain, Merge(cache, rows))
    ensures forall row :: Holds(cache, row) ==> Holds(Merge(cache, rows), row)
    ensures forall i :: 0 <= i < |rows| ==> Holds(Merge(cache, rows), rows[i])
    decreases |rows|
  {
    if rows != [] {
      var init, last := rows[..|rows| - 1], rows[|rows| - 1];
      MergeHolds(chain, cache, init);
      assert forall i :: 0 <= i < |init| ==> init[i] == rows[i];
      OneMoreRow(chain, Merge(cache, init), last);
    }
  }

  lemma OneMoreRow(chain: set<Row>, cache: map<Key, Row>, row: Row)
    requires IsChain(chain) && Sound(chain, cache) && row in chain
    ensures var grown := cache[row.key := row];
            Sound(chain, grown) && Holds(grown, row) && forall r :: Holds(cache, r) ==> Holds(grown, r)
  {
  }

  lemma CoversAppend(chunks: seq<Chunk>, c: Chunk, b: int)
    ensures Covers(chunks + [c], b) <==> Covers(chunks, b) || c.first <= b <= c.last
  {
    var grown := chunks + [c];
    if Covers(chunks, b) {
      var i :| 0 <= i < |chunks| && chunks[i].first <= b <= chunks[i].last;
      assert grown[i] == chunks[i];
    }
    assert grown[|chunks|] == c;
  }

  /** What the loop keeps, for a pass that began at `start`. */
  ghost predicate LoopInv(chain: set<Row>, start: int, head: int, s: Scan) {
    && s.step >= MIN_LOG_RANGE
    && start - 1 <= s.scannedTo <= head
    && (s.cursor <= head ==> s.cursor == s.scannedTo + 1)
    && Sound(chain, s.cache) && Complete(chain, s.cache, s.chunks)
    && (forall b :: start <= b <= s.scannedTo ==> Covers(s.chunks, b))
  }

  lemma ReadChunk(chain: set<Row>, rows: seq<Row>, cache: map<Key, Row>, chunks: seq<Chunk>, c: Chunk)
    requires IsChain(chain) && Sound(chain, cache) && Complete(chain, cache, chunks)
    requires forall row :: row in rows <==> row in chain && c.first <= row.block <= c.last
    ensures Sound(chain, Merge(cache, rows)) && Complete(chain, Merge(cache, rows), chunks + [c])
    ensures forall row :: Holds(cache, row) ==> Holds(Merge(cache, rows), row)
  {
    assert forall i :: 0 <= i < |rows| ==> rows[i] in rows;
    MergeHolds(chain, cache, rows);
    forall row | row in chain && Covers(chunks + [c], row.block) ensures Holds(Merge(cache, rows), row) {
      CoversAppend(chunks, c, row.block);
      if !Covers(chunks, row.block) {
        assert row in rows;
      }
    }
  }

  lemma AdvanceKeeps(chain: set<Row>, rpc: Rpc, start: int, head: int, s: Scan)
    requires IsChain(chain) && Honest(chain, rpc) && s.cursor <= head && LoopInv(chain, start, head, s)
    ensures var t := Advance(rpc, head, s);
            && LoopInv(chain, start, head, t) && s.scannedTo <= t.scannedTo
            && (forall row :: Holds(s.cache, row) ==> Holds(t.cache, row))
            && (forall b :: Covers(s.chunks, b) ==> Covers(t.chunks, b))
  {
    var c := NextChunk(s, head);
    var answer := rpc(s.asked, c);
    if answer.Some? {
      ReadChunk(chain, answer.value, s.cache, s.chunks, c);
      forall b ensures Covers(s.chunks + [c], b) <==> Covers(s.chunks, b) || c.first <= b <= c.last {
        CoversAppend(s.chunks, c, b);
      }
    }
  }

  lemma {:induction false} IterateKeeps(chain: set<Row>, rpc: Rpc, start: int, head: int, s: Scan)
    requires IsChain(chain) && Honest(chain, rpc) && LoopInv(chain, start, head, s)
    ensures var t := Iterate(rpc, head, s);
            && LoopInv(chain, start, head, t) && s.scannedTo <= t.scannedTo
            && (forall row :: Holds(s.cache, row) ==> Holds(t.cache, row))
            && (forall b :: Covers(s.chunks, b) ==> Covers(t.chunks, b))
    decreases MaxInt(0, head + 1 - s.cursor), s.step
  {
    if s.cursor <= head {
      AdvanceKeeps(chain, rpc, start, head, s);
      IterateKeeps(chain, rpc, start, head, Advance(rpc, head, s));
    }
  }

  // ----- any sequence of passes -----

  const EMPTY: Store := Store(None, map[], [])

  function Passes(ps: seq<Pass>): Store {
    if ps == [] then EMPTY else AfterPass(Passes(ps[..|ps| - 1]), ps[|ps| - 1])
  }

  /** Nothing below the watermark was skipped: every block from the initial anchor up to it lies in a
      chunk that was read, and every transfer in a chunk that was read is cached. */
  ghost predicate NothingSkipped(chain: set<Row>, s: Store) {
    && Anchor(s) >= INITIAL_ANCHOR
    && (forall b :: INITIAL_ANCHOR <= b < Anchor(s) ==> Covers(s.chunks, b))
    && Sound(chain, s.cache) && Complete(chain, s.cache, s.chunks)
  }

  /** Later stores hold at least what earlier ones did. */
  ghost predicate Grown(s: Store, t: Store) {
    && Anchor(s) <= Anchor(t)
    && (forall row :: Holds(s.cache, row) ==> Holds(t.cache, row))
    && (forall b :: Covers(s.chunks, b) ==> Covers(t.chunks, b))
  }

  lemma PassKeeps(chain: set<Row>, s: Store, p: Pass)
    requires IsChain(chain) && Honest(chain, p.rpc) && NothingSkipped(chain, s)
    ensures NothingSkipped(chain, AfterPass(s, p)) && Grown(s, AfterPass(s, p))
  {
    if p.head.Some? {
      var head := p.head.value;
      var begin := Begin(s, head);
      IterateKeeps(chain, p.rpc, begin.cursor, head, begin);
    }
  }

  /** Over any sequence of passes, with any heads and any failures. */
  lemma {:induction false} WatermarkNeverSkips(chain: set<Row>, ps: seq<Pass>)
    requires IsChain(chain) && forall i :: 0 <= i < |ps| ==> Honest(chain, ps[i].rpc)
    ensures NothingSkipped(chain, Passes(ps))
    decreases |ps|
  {
    if ps != [] {
      WatermarkNeverSkips(chain, ps[..|ps| - 1]);
      PassKeeps(chain, Passes(ps[..|ps| - 1]), ps[|ps| - 1]);
    } else {
      assert forall b :: !Covers([], b);
    }
  }

  /** The watermark never goes down and no cached row is ever lost, whatever passes follow. */
  lemma {:induction false} NothingIsLost(chain: set<Row>, ps: seq<Pass>, more: seq<Pass>)
    requires IsChain(chain) && forall i :: 0 <= i < |ps + more| ==> Honest(chain, (ps + more)[i].rpc)
    ensures Grown(Passes(ps), Passes(ps + more))
    decreases |more|
  {
    if more == [] {
      assert ps + more == ps;
    } else {
      var init, run := more[..|more| - 1], ps + more;
      assert run[..|run| - 1] == ps + init;
      assert forall i :: 0 <= i < |ps + init| ==> (ps + init)[i] == run[i];
      NothingIsLost(chain, ps, init);
      WatermarkNeverSkips(chain, ps + init);
      PassKeeps(chain, Passes(ps + init), run[|run| - 1]);
    }
  }

  /** Every transfer between the initial anchor and the watermark is in the cache. */
  lemma EveryTransferCached(chain: set<Row>, ps: seq<Pass>, row: Row)
    requires IsChain(chain) && forall i :: 0 <= i < |ps| ==> Honest(chain, ps[i].rpc)
    requires row in chain && INITIAL_ANCHOR <= row.block < Anchor(Passes(ps))
    ensures Holds(Passes(ps).cache, row)
  {
    WatermarkNeverSkips(chain, ps);
  }

  // ----- progress -----

  lemma {:induction false} CleanIterate(rpc: Rpc, head: int, s: Scan)
    requires s.step >= MIN_LOG_RANGE && s.cursor == s.scannedTo + 1 && s.cursor <= head + 1
    requires forall n, c :: rpc(n, c).Some?
    ensures Iterate(rpc, head, s).scannedTo == head
    decreases MaxInt(0, head + 1 - s.cursor), s.step
  {
    if s.cursor <= head {
      CleanIterate(rpc, head, Advance(rpc, head, s));
    }
  }

  /** A pass without failures brings the watermark just past the head, unless it is there already. */
  lemma CleanPassReachesHead(s: Store, head: int, rpc: Rpc)
    requires forall n, c :: rpc(n, c).Some?
    ensures Anchor(AfterPass(s, Pass(Some(head), rpc))) == MaxInt(Anchor(s), head + 1)
  {
    CleanIterate(rpc, head, Begin(s, head));
  }

  /** The endpoint answers every request for at most a thousand blocks. */
  ghost predicate ServesSmall(rpc: Rpc) { forall n, c: Chunk :: c.last - c.first < 1000 ==> rpc(n, c).Some? }

  lemma {:induction false} SmallIterate(rpc: Rpc, head: int, s: Scan)
    requires s.step >= MIN_LOG_RANGE && s.cursor == s.scannedTo + 1 && s.cursor <= head + 1 && ServesSmall(rpc)
    ensures Iterate(rpc, head, s).scannedTo == head
    decreases MaxInt(0, head + 1 - s.cursor), s.step
  {
    if s.cursor <= head {
      var c := NextChunk(s, head);
      assert s.step == MIN_LOG_RANGE ==> c.last - c.first < 1000;
      SmallIterate(rpc, head, Advance(rpc, head, s));
    }
  }

  /** An endpoint that refuses large ranges but serves every range of at most a thousand blocks lets every pass
      reach the head: the step is halved until it fits, and no block is given up. */
  lemma SmallRangesReachHead(s: Store, head: int, rpc: Rpc)
    requires ServesSmall(rpc)
    ensures Anchor(AfterPass(s, Pass(Some(head), rpc))) == MaxInt(Anchor(s), head + 1)
  {
    SmallIterate(rpc, head, Begin(s, head));
  }

  /** The endpoint answers every request for at most `n` blocks. */
  ghost predicate Serves(rpc: Rpc, n: int) { forall k, c: Chunk :: c.last - c.first < n ==> rpc(k, c).Some? }

  lemma {:induction false} StepIterate(rpc: Rpc, head: int, s: Scan, n: int)
    requires s.step >= MIN_LOG_RANGE && Serves(rpc, n) && 2 * s.step >= n
    ensures n <= 2 * Iterate(rpc, head, s).step
    decreases MaxInt(0, head + 1 - s.cursor), s.step
  {
    if s.cursor <= head {
      StepIterate(rpc, head, Advance(rpc, head, s), n);
    }
  }

  /** Requests do not shrink further than they must: with an endpoint that serves ranges of up to `n` blocks the
      step of a pass never falls below half of `n`. */
  lemma StepKeepsHalf(s: Store, head: int, rpc: Rpc, n: int)
    requires Serves(rpc, n) && n <= 20_000
    ensures n <= 2 * Iterate(rpc, head, Begin(s, head)).step
  {
    StepIterate(rpc, head, Begin(s, head), n);
  }

  lemma {:induction false} HeadIterate(rpc: Rpc, head: int, s: Scan)
    requires s.step >= MIN_LOG_RANGE && s.cursor <= head && forall n, c :: rpc(n, c).Some?
    ensures var t := Iterate(rpc, head, s);
            |t.chunks| > |s.chunks| && t.chunks[|t.chunks| - 1].first <= head == t.chunks[|t.chunks| - 1].last
    decreases MaxInt(0, head + 1 - s.cursor), s.step
  {
    var next := Advance(rpc, head, s);
    if next.cursor <= head {
      HeadIterate(rpc, head, next);
    } else {
      assert Iterate(rpc, head, next) == next;
    }
  }

  /** A pass without failures ends with a chunk up to the head, even when the watermark is past it already. */
  lemma CleanPassReadsHead(s: Store, head: int, rpc: Rpc)
    requires forall n, c :: rpc(n, c).Some?
    ensures var t := AfterPass(s, Pass(Some(head), rpc));
            |t.chunks| > |s.chunks| && t.chunks[|t.chunks| - 1].first <= head == t.chunks[|t.chunks| - 1].last
  {
    HeadIterate(rpc, head, Begin(s, head));
  }

  /** A pass that fails on every request changes nothing at all. */
  lemma {:induction false} FailedIterate(rpc: Rpc, head: int, s: Scan)
    requires s.step >= MIN_LOG_RANGE && forall n, c :: rpc(n, c).None?
    ensures var t := Iterate(rpc, head, s); t.scannedTo == s.scannedTo && t.cache == s.cache && t.chunks == s.chunks
    decreases MaxInt(0, head + 1 - s.cursor), s.step
  {
    if s.cursor <= head {
      FailedIterate(rpc, head, Advance(rpc, head, s));
    }
  }

  lemma FailedPassChangesNothing(s: Store, head: int, rpc: Rpc)
    requires forall n, c :: rpc(n, c).None?
    ensures AfterPass(s, Pass(Some(head), rpc)) == s
  {
    FailedIterate(rpc, head, Begin(s, head));
  }
}
