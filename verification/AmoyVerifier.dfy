/** The Polygon funding verifier (`amoy_swap_verifier.rs`). Endpoint answers are oracles; the decoding,
    the log scan, the cross reads and the shared funding store are the program's. */
module AmoyVerifier {
  import opened Bytes
  import opened Funding

  type Word = seq<byte>

  datatype Log = Log(swapId: Word, data: seq<byte>, block: u64)
  datatype Receipt = Receipt(success: bool, block: u64)

  /** What one endpoint answers during one observation; `None` is an error (or a pending receipt). */
  datatype Endpoint = Endpoint(
    receipt: Word -> Option<Receipt>,
    logs: u64 -> Option<seq<Log>>,
    head: Option<u64>,
    finalized: Option<u64>,
    getSwap: Word -> Option<seq<byte>>)

  datatype World = World(chain: Endpoint, secondary: Option<Endpoint>, now: u64)

  datatype Expectation = Expectation(counterparty: bool, hashlock: Word, minTimeout: u64, termAnchor: u64)

  datatype Escrow = Escrow(swapId: Word, amount: u64, timelock: u64)

  const WORD: nat := 32
  const STATE_LIVE: u64 := 1
  const MAX_CANDIDATES: nat := 32
  const TIMELOCK_SLACK_S: u64 := 900
  const FROM_BLOCK_MARGIN: u64 := 5
  const HEAD_CROSS_TOLERANCE_BLOCKS: u64 := 12

  // ----- timelock mapping -----

  /** The wall-clock timelock a funder sets for a term-unit timeout. */
  function UsdcTimelock(term: u64, termAnchor: u64, now: u64): u64 {
    Min(now + SatSub(term, termAnchor), U64_MAX)
  }

  /** The verifier's way back into term units, with `slack` seconds of grace. */
  function TermEquivalent(timelock: u64, now: u64, termAnchor: u64, slack: u64): u64 {
    Min(Min(SatSub(timelock, now) + slack, U64_MAX) + termAnchor, U64_MAX)
  }

  /** An escrow funded at `funded` and observed at `seen` clears its own term as floor exactly when the
      whole term lies within the slack, or the observation comes no later than the slack after the
      funding time - that time being cut short when the timelock sum saturates. */
  lemma FloorClearedExactly(term: u64, termAnchor: u64, funded: u64, seen: u64, slack: u64)
    ensures TermEquivalent(UsdcTimelock(term, termAnchor, funded), seen, termAnchor, slack) >= term
       <==> SatSub(term, termAnchor) <= slack
            || seen <= Min(funded, U64_MAX - SatSub(term, termAnchor)) + slack
  {
    var span := SatSub(term, termAnchor);
    assert UsdcTimelock(term, termAnchor, funded) == Min(funded, U64_MAX - span) + span;
  }

  /** Without saturation the timelock is the term's distance from the anchor ahead of now, and seen at once it
      maps back to the term plus the slack. */
  lemma TimelockIsTermAhead(term: u64, termAnchor: u64, now: u64, slack: u64)
    requires termAnchor <= term && now + (term - termAnchor) <= U64_MAX && term + slack <= U64_MAX
    ensures UsdcTimelock(term, termAnchor, now) - now == term - termAnchor
    ensures TermEquivalent(UsdcTimelock(term, termAnchor, now), now, termAnchor, slack) == term + slack
  {
  }

  // ----- ABI words -----

  /** The number in a 32-byte word, refused when it does not fit 64 bits. */
  function WordU64(w: seq<byte>): Option<u64> {
    if |w| != WORD || exists i :: 0 <= i < WORD - 8 && w[i] != 0 then None
    else
      Pow256Values();
      Some(FromBE(w[WORD - 8..]))
  }

  lemma {:induction false} HighBytesAreZero(v: nat, j: nat, k: nat)
    requires v < Pow256(j) && j <= k
    ensures forall i :: 0 <= i < k - j ==> ToBE(v, k)[i] == 0
    decreases k
  {
    if k > 0 {
      if j == 0 {
        HighBytesAreZero(v / 256, 0, k - 1);
      } else {
        HighBytesAreZero(v / 256, j - 1, k - 1);
      }
    }
  }

  /** A word reads as `v` exactly when it is the 32-byte big-endian form of the 64-bit number `v`:
      nothing is ever truncated. */
  lemma WordIsExact(w: seq<byte>, v: u64)
    ensures WordU64(w) == Some(v) <==> w == ToBE(v, WORD)
  {
    if |w| == WORD {
      var hi, lo := w[..WORD - 8], w[WORD - 8..];
      assert w == hi + lo;
      if w == ToBE(v, WORD) {
        Pow256Values();
        HighBytesAreZero(v, 8, WORD);
        LeadingZeros(hi, lo);
        Pow256Grows(8, WORD);
        FromToBE(v, WORD);
      } else if WordU64(w) == Some(v) {
        LeadingZeros(hi, lo);
        ToFromBE(w);
      }
    }
  }

  lemma {:induction false} Pow256Grows(j: nat, k: nat)
    requires j <= k
    ensures Pow256(j) <= Pow256(k)
    decreases k
  {
    if j < k {
      Pow256Grows(j, k - 1);
    }
  }

  datatype Terms = Terms(amount: u64, hashlock: Word, timelock: u64)

  function DecodeNewSwap(data: seq<byte>): Option<Terms> {
    if |data| != 3 * WORD then None
    else
      var amount, timelock := WordU64(data[..WORD]), WordU64(data[2 * WORD..]);
      if amount.None? || timelock.None? then None
      else Some(Terms(amount.value, data[WORD..2 * WORD], timelock.value))
  }

  function EncodeNewSwap(t: Terms): seq<byte> {
    ToBE(t.amount, WORD) + t.hashlock + ToBE(t.timelock, WORD)
  }

  /** Event data decodes to `t` exactly when it is the ABI encoding of `t`. */
  lemma DecodeIsExact(data: seq<byte>, t: Terms)
    ensures DecodeNewSwap(data) == Some(t) <==> |t.hashlock| == WORD && data == EncodeNewSwap(t)
  {
    if |data| == 3 * WORD {
      var a, h, l := data[..WORD], data[WORD..2 * WORD], data[2 * WORD..];
      assert data == a + h + l;
      WordIsExact(a, t.amount);
      WordIsExact(l, t.timelock);
      if |t.hashlock| == WORD && data == EncodeNewSwap(t) {
        assert a == ToBE(t.amount, WORD) && h == t.hashlock && l == ToBE(t.timelock, WORD);
      }
    }
  }

  /** The state word of `getSwap`: the sixth word of the answer. */
  function EscrowState(e: Endpoint, swapId: Word): Option<u64> {
    var out := e.getSwap(swapId);
    if out.None? || |out.value| < 6 * WORD then None else WordU64(out.value[5 * WORD..6 * WORD])
  }

  /** The state is read as `v` exactly when the call answers and its sixth word is the ABI form of `v`. */
  lemma StateIsSixthWord(e: Endpoint, swapId: Word, v: u64)
    ensures EscrowState(e, swapId) == Some(v) <==>
            e.getSwap(swapId).Some? && |e.getSwap(swapId).value| >= 192
            && e.getSwap(swapId).value[160..192] == ToBE(v, 32)
  {
    var out := e.getSwap(swapId);
    if out.Some? && |out.value| >= 6 * WORD {
      WordIsExact(out.value[5 * WORD..6 * WORD], v);
    }
  }

  // ----- the log scan -----

  /** A log of the expected escrow, read Live on `e`. */
  predicate Live(e: Endpoint, hashlock: Word, log: Log) {
    && DecodeNewSwap(log.data).Some?
    && DecodeNewSwap(log.data).value.hashlock == hashlock
    && EscrowState(e, log.swapId) == Some(STATE_LIVE)
  }

  predicate OtherHashlock(hashlock: Word, log: Log) {
    DecodeNewSwap(log.data).Some? && DecodeNewSwap(log.data).value.hashlock != hashlock
  }

  datatype Best = Best(block: u64, escrow: Escrow)

  function BestOf(log: Log): Best
    requires DecodeNewSwap(log.data).Some?
  {
    var t := DecodeNewSwap(log.data).value;
    Best(log.block, Escrow(log.swapId, t.amount, t.timelock))
  }

  /** Log `i` is the live one in the earliest block, the first listed within that block. */
  ghost predicate Earliest(live: Log -> bool, logs: seq<Log>, i: nat) {
    && i < |logs| && live(logs[i])
    && forall j :: 0 <= j < |logs| && live(logs[j]) ==>
         logs[i].block < logs[j].block || (logs[i].block == logs[j].block && i <= j)
  }

  function LiveOn(e: Endpoint, hashlock: Word): Log -> bool {
    (log: Log) => Live(e, hashlock, log)
  }

  /** The position the scan settles on: the last log replaces it only from a strictly earlier block. */
  function ScanIndex(live: Log -> bool, logs: seq<Log>): (r: Option<nat>)
    ensures r.Some? ==> r.value < |logs| && live(logs[r.value])
  {
    if logs == [] then None
    else
      var n := |logs| - 1;
      var before := ScanIndex(live, logs[..n]);
      if live(logs[n]) && (before.None? || logs[n].block < logs[before.value].block) then Some(n) else before
  }

  lemma {:induction false} ScanIsEarliest(live: Log -> bool, logs: seq<Log>)
    ensures var r := ScanIndex(live, logs);
            if r.Some? then Earliest(live, logs, r.value)
            else forall j :: 0 <= j < |logs| ==> !live(logs[j])
    decreases |logs|
  {
    if logs != [] {
      ScanIsEarliest(live, logs[..|logs| - 1]);
    }
  }

  function ScanBest(e: Endpoint, hashlock: Word, logs: seq<Log>): Option<Best> {
    var i := ScanIndex(LiveOn(e, hashlock), logs);
    if i.None? then None else Some(BestOf(logs[i.value]))
  }

  lemma ScanStep(e: Endpoint, hashlock: Word, logs: seq<Log>, k: nat)
    requires k < |logs|
    ensures var before, log := ScanBest(e, hashlock, logs[..k]), logs[k];
            ScanBest(e, hashlock, logs[..k + 1]) ==
            if Live(e, hashlock, log) && (before.None? || log.block < before.value.block) then Some(BestOf(log))
            else before
  {
    assert logs[..k + 1][..k] == logs[..k];
  }

  predicate SomeOther(hashlock: Word, logs: seq<Log>) {
    exists j :: 0 <= j < |logs| && OtherHashlock(hashlock, logs[j])
  }

  lemma SomeOtherStep(hashlock: Word, logs: seq<Log>, k: nat)
    requires k < |logs|
    ensures SomeOther(hashlock, logs[..k + 1]) <==> SomeOther(hashlock, logs[..k]) || OtherHashlock(hashlock, logs[k])
  {
    assert logs[..k + 1] == logs[..k] + [logs[k]];
    assert OtherHashlock(hashlock, logs[k]) ==> OtherHashlock(hashlock, logs[..k + 1][k]);
    if SomeOther(hashlock, logs[..k]) {
      var j :| 0 <= j < k && OtherHashlock(hashlock, logs[..k][j]);
      assert OtherHashlock(hashlock, logs[..k + 1][j]);
    }
  }

  method Scan(e: Endpoint, hashlock: Word, logs: seq<Log>) returns (best: Option<Best>, other: bool)
    ensures best == ScanBest(e, hashlock, logs)
    ensures other <==> SomeOther(hashlock, logs)
  {
    best, other := None, false;
    var k := 0;
    while k < |logs|
      invariant 0 <= k <= |logs|
      invariant best == ScanBest(e, hashlock, logs[..k])
      invariant other <==> SomeOther(hashlock, logs[..k])
    {
      var log := logs[k];
      ScanStep(e, hashlock, logs, k);
      SomeOtherStep(hashlock, logs, k);
      k := k + 1;
      var terms := DecodeNewSwap(log.data);
      if terms.None? {
        continue;
      }
      if terms.value.hashlock != hashlock {
        other := true;
        continue;
      }
      var state := EscrowState(e, log.swapId);
      if state != Some(STATE_LIVE) {
        continue;
      }
      if best.None? || log.block < best.value.block {
        best := Some(Best(log.block, Escrow(log.swapId, terms.value.amount, terms.value.timelock)));
      }
    }
    assert logs[..k] == logs;
  }

  // ----- heads and finality -----

  /** The head that drives the depth: the lower of two heads that agree within the tolerance. */
  function CrossHead(w: World): Option<u64> {
    if w.chain.head.None? || w.secondary.None? then w.chain.head
    else
      var head, second := w.chain.head.value, w.secondary.value.head;
      if second.None? || SatSub(head, second.value) + SatSub(second.value, head) > HEAD_CROSS_TOLERANCE_BLOCKS then None
      else Some(Min(head, second.value))
  }

  /** The finalized height every wired endpoint vouches for, never above `head`. */
  function ConservativeFinalized(w: World, head: u64): Option<u64> {
    if w.chain.finalized.None? then None
    else if w.secondary.None? then Some(Min(w.chain.finalized.value, head))
    else if w.secondary.value.finalized.None? then None
    else Some(Min(Min(w.chain.finalized.value, w.secondary.value.finalized.value), head))
  }

  function Confirmations(w: World, head: u64, block: u64): u32 {
    var f := ConservativeFinalized(w, head);
    if f.Some? && block <= f.value then FINALIZED_CONFIRMATIONS else Depth(head, block)
  }

  /** The block is final for every wired endpoint, and not above the head that drives the depth. */
  predicate FinalEverywhere(w: World, head: u64, block: u64) {
    && block <= head
    && w.chain.finalized.Some? && block <= w.chain.finalized.value
    && (w.secondary.Some? ==> w.secondary.value.finalized.Some? && block <= w.secondary.value.finalized.value)
  }

  /** Maximal confirmations exactly for a block every wired endpoint calls final; a finalized read that
      fails anywhere falls back to counting depth. */
  lemma ConfirmationsExactly(w: World, head: u64, block: u64)
    ensures Confirmations(w, head, block) ==
            if FinalEverywhere(w, head, block) then FINALIZED_CONFIRMATIONS else Depth(head, block)
  {
  }

  // ----- the funding store -----

  datatype Store = Store(candidates: seq<Word>, anchor: Option<u64>, found: map<Word, Escrow>)

  const EMPTY: Store := Store([], None, map[])

  function Noted(s: Store, hash: Word): Store {
    if hash in s.candidates || |s.candidates| >= MAX_CANDIDATES then s
    else s.(candidates := s.candidates + [hash])
  }

  predicate MinedAt(e: Endpoint, hash: Word, block: u64) {
    e.receipt(hash) == Some(Receipt(true, block))
  }

  ghost predicate EarliestMined(e: Endpoint, candidates: seq<Word>, best: Option<u64>) {
    && (best.None? ==> forall i, b :: 0 <= i < |candidates| ==> !MinedAt(e, candidates[i], b))
    && (best.Some? ==>
          && (exists i :: 0 <= i < |candidates| && MinedAt(e, candidates[i], best.value))
          && forall i, b :: 0 <= i < |candidates| && MinedAt(e, candidates[i], b) ==> best.value <= b)
  }

  lemma EarliestMinedUnique(e: Endpoint, candidates: seq<Word>, a: Option<u64>, b: Option<u64>)
    requires EarliestMined(e, candidates, a) && EarliestMined(e, candidates, b)
    ensures a == b
  {
  }

  function EarliestReceipt(e: Endpoint, candidates: seq<Word>): (best: Option<u64>)
    ensures EarliestMined(e, candidates, best)
  {
    if candidates == [] then None
    else
      var n := |candidates| - 1;
      var before, receipt := EarliestReceipt(e, candidates[..n]), e.receipt(candidates[n]);
      assert forall i :: 0 <= i < n ==> candidates[..n][i] == candidates[i];
      if receipt.None? || !receipt.value.success then before
      else
        assert MinedAt(e, candidates[n], receipt.value.block);
        if before.None? then Some(receipt.value.block)
        else Some(Min(before.value, receipt.value.block))
  }

  function Anchored(s: Store, e: Endpoint): Store {
    if s.anchor.Some? then s else s.(anchor := EarliestReceipt(e, s.candidates))
  }

  // ----- one observation -----

  datatype Choice = Nothing | WrongHashlock | Chosen(head: u64, best: Best)

  /** The escrow an observation settles on, before the verdict is phrased. */
  function Choose(w: World, hashlock: Word, anchor: Option<u64>): Choice {
    if anchor.None? then Nothing
    else
      var logs := w.chain.logs(SatSub(anchor.value, FROM_BLOCK_MARGIN));
      var head := CrossHead(w);
      if logs.None? || head.None? then Nothing
      else
        var best := ScanBest(w.chain, hashlock, logs.value);
        if best.Some? then
          if w.secondary.Some? && EscrowState(w.secondary.value, best.value.escrow.swapId) != Some(STATE_LIVE)
          then Nothing
          else Chosen(head.value, best.value)
        else if SomeOther(hashlock, logs.value) then WrongHashlock
        else Nothing
  }

  function Verdict(w: World, x: Expectation, c: Choice): Observation {
    match c
    case Nothing => Absent
    case WrongHashlock => Mismatch(Hashlock)
    case Chosen(head, best) =>
      Found(best.escrow.amount,
            TermEquivalent(best.escrow.timelock, w.now, x.termAnchor, TIMELOCK_SLACK_S),
            Confirmations(w, head, best.block))
  }

  datatype Outcome = Outcome(store: Store, verdict: Observation)

  function Observed(s: Store, w: World, x: Expectation): Outcome {
    if !x.counterparty then Outcome(s, Absent)
    else
      var anchored := Anchored(s, w.chain);
      var c := Choose(w, x.hashlock, anchored.anchor);
      var store := if c.Chosen? then anchored.(found := anchored.found[x.hashlock := c.best.escrow]) else anchored;
      Outcome(store, Verdict(w, x, c))
  }

  /** The initiator's shared funding state. */
  class FundingStore {
    var candidates: seq<Word>
    var anchorBlock: Option<u64>
    var found: map<Word, Escrow>

    ghost function View(): Store
      reads this
    {
      Store(candidates, anchorBlock, found)
    }

    constructor ()
      ensures View() == EMPTY
    {
      candidates, anchorBlock, found := [], None, map[];
    }

    method NoteCandidate(keccak: seq<byte> -> Word, wire: seq<byte>)
      modifies this
      ensures View() == Noted(old(View()), keccak(wire))
    {
      var hash := keccak(wire);
      if hash in candidates || |candidates| >= MAX_CANDIDATES {
        return;
      }
      candidates := candidates + [hash];
    }

    method RecordFound(hashlock: Word, escrow: Escrow)
      modifies this
      ensures View() == old(View()).(found := old(View()).found[hashlock := escrow])
    {
      found := found[hashlock := escrow];
    }

    /** Resolves the scan anchor once: the lowest block among the candidates' successful receipts. */
    method Anchor(e: Endpoint) returns (anchor: Option<u64>)
      modifies this
      ensures View() == Anchored(old(View()), e) && anchor == anchorBlock
    {
      if anchorBlock.Some? {
        return anchorBlock;
      }
      var best: Option<u64> := None;
      for i := 0 to |candidates|
        invariant unchanged(this)
        invariant EarliestMined(e, candidates[..i], best)
      {
        var receipt := e.receipt(candidates[i]);
        assert candidates[..i + 1] == candidates[..i] + [candidates[i]];
        if receipt.Some? && receipt.value.success {
          assert MinedAt(e, candidates[..i + 1][i], receipt.value.block);
          if best.None? || receipt.value.block < best.value {
            best := Some(receipt.value.block);
          }
        }
      }
      assert candidates[..|candidates|] == candidates;
      EarliestMinedUnique(e, candidates, best, EarliestReceipt(e, candidates));
      if best.Some? {
        anchorBlock := best;
      }
      return best;
    }
  }

  method Observe(store: FundingStore, w: World, x: Expectation) returns (o: Observation)
    modifies store
    ensures Outcome(store.View(), o) == Observed(old(store.View()), w, x)
  {
    if !x.counterparty {
      return Absent;
    }
    var anchor := store.Anchor(w.chain);
    if anchor.None? {
      return Absent;
    }
    var logs := w.chain.logs(SatSub(anchor.value, FROM_BLOCK_MARGIN));
    if logs.None? || w.chain.head.None? {
      return Absent;
    }
    var head := w.chain.head.value;
    if w.secondary.Some? {
      var second := w.secondary.value.head;
      if second.None? || SatSub(head, second.value) + SatSub(second.value, head) > HEAD_CROSS_TOLERANCE_BLOCKS {
        return Absent;
      }
      head := Min(head, second.value);
    }
    var best, other := Scan(w.chain, x.hashlock, logs.value);
    if best.None? {
      return if other then Mismatch(Hashlock) else Absent;
    }
    var escrow := best.value.escrow;
    if w.secondary.Some? {
      var state := EscrowState(w.secondary.value, escrow.swapId);
      if state != Some(STATE_LIVE) {
        return Absent;
      }
    }
    store.RecordFound(x.hashlock, escrow);
    var finalized := ConservativeFinalized(w, head);
    var confirmations := Depth(head, best.value.block);
    if finalized.Some? && best.value.block <= finalized.value {
      confirmations := FINALIZED_CONFIRMATIONS;
    }
    return Found(escrow.amount, TermEquivalent(escrow.timelock, w.now, x.termAnchor, TIMELOCK_SLACK_S), confirmations);
  }

  // ----- what a verdict means -----

  /** Every wired endpoint reads the escrow of `log` as Live. */
  predicate LiveEverywhere(w: World, hashlock: Word, log: Log) {
    && Live(w.chain, hashlock, log)
    && (w.secondary.Some? ==> EscrowState(w.secondary.value, log.swapId) == Some(STATE_LIVE))
  }

  /** The two heads, if two are wired, are both readable and agree within the tolerance. */
  predicate HeadsAgree(w: World) {
    && w.chain.head.Some?
    && (w.secondary.Some? ==>
          && w.secondary.value.head.Some?
          && w.chain.head.value <= w.secondary.value.head.value + HEAD_CROSS_TOLERANCE_BLOCKS
          && w.secondary.value.head.value <= w.chain.head.value + HEAD_CROSS_TOLERANCE_BLOCKS)
  }

  /** Log `i` of the listing is the one a Found verdict must be about. */
  ghost predicate Funds(w: World, hashlock: Word, logs: seq<Log>, i: nat) {
    Earliest(LiveOn(w.chain, hashlock), logs, i) && LiveEverywhere(w, hashlock, logs[i])
  }

  function Listing(s: Store, w: World): Option<seq<Log>> {
    var anchor := Anchored(s, w.chain).anchor;
    if anchor.None? then None else w.chain.logs(SatSub(anchor.value, FROM_BLOCK_MARGIN))
  }

  lemma EarliestIsUnique(live: Log -> bool, logs: seq<Log>, i: nat, j: nat)
    requires Earliest(live, logs, i) && Earliest(live, logs, j)
    ensures i == j
  {
  }

  /** Found exactly for the earliest-block live log with the expected hashlock, if every wired endpoint
      still reads it Live; the verdict carries that log's terms and the store records its escrow. */
  lemma FoundExactly(s: Store, w: World, x: Expectation)
    ensures var o := Observed(s, w, x);
            && (o.verdict.Found? <==>
                  && x.counterparty && Listing(s, w).Some? && HeadsAgree(w)
                  && exists i: nat :: Funds(w, x.hashlock, Listing(s, w).value, i))
    ensures var o := Observed(s, w, x);
            forall i: nat :: o.verdict.Found? && Funds(w, x.hashlock, Listing(s, w).value, i) ==>
              var b := BestOf(Listing(s, w).value[i]);
              && o.verdict.amount == b.escrow.amount
              && o.verdict.timeout == TermEquivalent(b.escrow.timelock, w.now, x.termAnchor, TIMELOCK_SLACK_S)
              && CrossHead(w).Some? && o.verdict.confirmations == Confirmations(w, CrossHead(w).value, b.block)
              && o.store.found == s.found[x.hashlock := b.escrow]
    ensures !Observed(s, w, x).verdict.Found? ==> Observed(s, w, x).store.found == s.found
  {
    if x.counterparty && Listing(s, w).Some? {
      var logs := Listing(s, w).value;
      var live := LiveOn(w.chain, x.hashlock);
      ScanIsEarliest(live, logs);
      var r := ScanIndex(live, logs);
      if r.Some? {
        forall i: nat | Funds(w, x.hashlock, logs, i) ensures i == r.value {
          EarliestIsUnique(live, logs, i, r.value);
        }
        if LiveEverywhere(w, x.hashlock, logs[r.value]) {
          assert Funds(w, x.hashlock, logs, r.value);
        }
      }
    }
  }

  /** Mismatch exactly when nothing live carries the expected hashlock and some escrow paying the same
      address carries another one. */
  lemma MismatchExactly(s: Store, w: World, x: Expectation)
    ensures var o := Observed(s, w, x).verdict;
            o.Mismatch? <==>
              && x.counterparty && Listing(s, w).Some? && HeadsAgree(w)
              && (forall i :: 0 <= i < |Listing(s, w).value| ==> !Live(w.chain, x.hashlock, Listing(s, w).value[i]))
              && SomeOther(x.hashlock, Listing(s, w).value)
  {
    if x.counterparty && Listing(s, w).Some? {
      var logs := Listing(s, w).value;
      var live := LiveOn(w.chain, x.hashlock);
      ScanIsEarliest(live, logs);
      assert forall i :: 0 <= i < |logs| ==> live(logs[i]) == Live(w.chain, x.hashlock, logs[i]);
    }
  }

  /** The lowest head any wired endpoint reports. */
  function LowestHead(w: World): u64
    requires HeadsAgree(w)
  {
    if w.secondary.Some? && w.secondary.value.head.value < w.chain.head.value then w.secondary.value.head.value
    else w.chain.head.value
  }

  /** The confirmations of every report, written out: maximal for a block final everywhere, and otherwise its
      distance from the lowest head, counting the block itself, never below one and cut at 2^32 - 1. */
  lemma ReportedDepth(s: Store, w: World, x: Expectation, i: nat)
    requires Observed(s, w, x).verdict.Found?
    requires Listing(s, w).Some? && Funds(w, x.hashlock, Listing(s, w).value, i)
    ensures HeadsAgree(w)
    ensures var block, head, n := Listing(s, w).value[i].block, LowestHead(w), Observed(s, w, x).verdict.confirmations;
            n == if FinalEverywhere(w, head, block) then 0xFFFF_FFFF
                 else if head <= block then 1
                 else if head - block + 1 > 0xFFFF_FFFF then 0xFFFF_FFFF else head - block + 1
  {
    FoundExactly(s, w, x);
    assert CrossHead(w) == Some(LowestHead(w));
    ConfirmationsExactly(w, LowestHead(w), Listing(s, w).value[i].block);
  }

  // ----- what a second endpoint changes -----

  lemma LowerHeadFewerConfirmations(w: World, head: u64, sole: u64, block: u64)
    requires head <= sole
    ensures Confirmations(w, head, block) <= Confirmations(w.(secondary := None), sole, block)
  {
    DepthMonotone(head, sole, block);
  }

  /** Wiring a second endpoint never raises the confirmations and never changes the terms: it can only
      withdraw a verdict or deepen the wait. */
  lemma SecondaryNeverRaises(s: Store, w: World, x: Expectation)
    ensures var o, sole := Observed(s, w, x).verdict, Observed(s, w.(secondary := None), x).verdict;
            && (o.Found? ==> sole.Found? && sole.amount == o.amount && sole.timeout == o.timeout
                             && o.confirmations <= sole.confirmations)
            && (o.Mismatch? ==> sole == o)
  {
    var c := Choose(w, x.hashlock, Anchored(s, w.chain).anchor);
    if x.counterparty && c.Chosen? {
      LowerHeadFewerConfirmations(w, c.head, w.chain.head.value, c.best.block);
    }
  }

  /** With a second endpoint the reported depth is never more than its own head allows, unless its own
      finalized tag covers the block. */
  lemma DepthBoundedBySecondary(s: Store, w: World, x: Expectation, i: nat)
    requires w.secondary.Some? && Observed(s, w, x).verdict.Found?
    requires Listing(s, w).Some? && Funds(w, x.hashlock, Listing(s, w).value, i)
    ensures var block, sec := Listing(s, w).value[i].block, w.secondary.value;
            var n := Observed(s, w, x).verdict.confirmations;
            && sec.head.Some?
            && (n <= Depth(sec.head.value, block)
                || (sec.finalized.Some? && block <= sec.finalized.value && block <= sec.head.value))
  {
    FoundExactly(s, w, x);
    DepthMonotone(CrossHead(w).value, w.secondary.value.head.value, Listing(s, w).value[i].block);
  }

  /** An honestly funded escrow, found by the verifier, meets the term floor exactly when it is seen
      within the slack (or its whole term is): the mapping and the scan put together. */
  lemma HonestFundingClearsFloor(s: Store, w: World, x: Expectation, i: nat, funded: u64)
    requires Observed(s, w, x).verdict.Found?
    requires Listing(s, w).Some? && Funds(w, x.hashlock, Listing(s, w).value, i)
    requires DecodeNewSwap(Listing(s, w).value[i].data).value.timelock
          == UsdcTimelock(x.minTimeout, x.termAnchor, funded)
    ensures Observed(s, w, x).verdict.timeout >= x.minTimeout
       <==> SatSub(x.minTimeout, x.termAnchor) <= TIMELOCK_SLACK_S
            || w.now <= Min(funded, U64_MAX - SatSub(x.minTimeout, x.termAnchor)) + TIMELOCK_SLACK_S
  {
    FoundExactly(s, w, x);
    FloorClearedExactly(x.minTimeout, x.termAnchor, funded, w.now, TIMELOCK_SLACK_S);
  }

  // ----- every run of the store -----

  datatype Event = Note(hash: Word) | Look(world: World, expected: Expectation)

  function StepStore(s: Store, ev: Event): Store {
    match ev
    case Note(hash) => Noted(s, hash)
    case Look(w, x) => Observed(s, w, x).store
  }

  function RunStore(evs: seq<Event>): Store {
    if evs == [] then EMPTY else StepStore(RunStore(evs[..|evs| - 1]), evs[|evs| - 1])
  }

  /** The event saw this very escrow as the earliest live log, Live on every wired endpoint. */
  ghost predicate Justifies(ev: Event, hashlock: Word, escrow: Escrow) {
    && ev.Look? && ev.expected.hashlock == hashlock
    && exists start: u64, i: nat ::
         && ev.world.chain.logs(start).Some?
         && Funds(ev.world, hashlock, ev.world.chain.logs(start).value, i)
         && BestOf(ev.world.chain.logs(start).value[i]).escrow == escrow
  }

  predicate Distinct(c: seq<Word>) { forall i, j :: 0 <= i < j < |c| ==> c[i] != c[j] }

  lemma LookJustifies(s: Store, w: World, x: Expectation)
    requires Observed(s, w, x).verdict.Found?
    ensures x.hashlock in Observed(s, w, x).store.found
    ensures Justifies(Look(w, x), x.hashlock, Observed(s, w, x).store.found[x.hashlock])
  {
    FoundExactly(s, w, x);
    var i: nat :| Funds(w, x.hashlock, Listing(s, w).value, i);
    var start := SatSub(Anchored(s, w.chain).anchor.value, FROM_BLOCK_MARGIN);
    assert Listing(s, w) == w.chain.logs(start);
  }

  /** After any run of hints and observations, every recorded escrow was seen by an earlier observation
      for its hashlock as the earliest live log, Live on all endpoints wired at that moment. */
  lemma {:induction false} RecordedWasLiveEverywhere(evs: seq<Event>, hashlock: Word)
    requires hashlock in RunStore(evs).found
    ensures exists k :: 0 <= k < |evs| && Justifies(evs[k], hashlock, RunStore(evs).found[hashlock])
    decreases |evs|
  {
    var n := |evs| - 1;
    var before, ev := RunStore(evs[..n]), evs[n];
    if ev.Look? && Observed(before, ev.world, ev.expected).verdict.Found? && ev.expected.hashlock == hashlock {
      LookJustifies(before, ev.world, ev.expected);
      assert Justifies(evs[n], hashlock, RunStore(evs).found[hashlock]);
    } else {
      KeepsOthers(before, ev, hashlock);
      RecordedWasLiveEverywhere(evs[..n], hashlock);
      var k :| 0 <= k < n && Justifies(evs[..n][k], hashlock, before.found[hashlock]);
      assert evs[..n][k] == evs[k];
    }
  }

  lemma KeepsOthers(s: Store, ev: Event, hashlock: Word)
    requires !(ev.Look? && Observed(s, ev.world, ev.expected).verdict.Found? && ev.expected.hashlock == hashlock)
    ensures hashlock in StepStore(s, ev).found <==> hashlock in s.found
    ensures hashlock in s.found ==> StepStore(s, ev).found[hashlock] == s.found[hashlock]
  {
  }

  /** What one event does to the hints and the anchor. */
  lemma StepHints(s: Store, ev: Event)
    requires |s.candidates| <= MAX_CANDIDATES && Distinct(s.candidates)
    ensures var t := StepStore(s, ev);
            && |t.candidates| <= MAX_CANDIDATES && Distinct(t.candidates)
            && (s.anchor.Some? ==> t.anchor == s.anchor)
            && |s.candidates| <= |t.candidates| && t.candidates[..|s.candidates|] == s.candidates
  {
    if ev.Look? {
      assert StepStore(s, ev).candidates == s.candidates;
    }
  }

  lemma {:induction false} HintsBounded(evs: seq<Event>)
    ensures |RunStore(evs).candidates| <= MAX_CANDIDATES && Distinct(RunStore(evs).candidates)
    decreases |evs|
  {
    if evs != [] {
      HintsBounded(evs[..|evs| - 1]);
      StepHints(RunStore(evs[..|evs| - 1]), evs[|evs| - 1]);
    }
  }

  /** A resolved anchor is never moved again, and hints are only ever appended: later hints, however
      early their receipts, do not change where the scan starts. */
  lemma {:induction false} AnchorIsFixed(evs: seq<Event>, more: seq<Event>)
    ensures var s, t := RunStore(evs), RunStore(evs + more);
            && (s.anchor.Some? ==> t.anchor == s.anchor)
            && |s.candidates| <= |t.candidates| && t.candidates[..|s.candidates|] == s.candidates
    decreases |more|
  {
    if more == [] {
      assert evs + more == evs;
    } else {
      var init := more[..|more| - 1];
      var run := evs + more;
      assert run[..|run| - 1] == evs + init && run[|run| - 1] == more[|more| - 1];
      AnchorIsFixed(evs, init);
      HintsBounded(evs + init);
      AppendedStep(RunStore(evs), RunStore(evs + init), more[|more| - 1]);
    }
  }

  lemma AppendedStep(s: Store, t: Store, ev: Event)
    requires |t.candidates| <= MAX_CANDIDATES && Distinct(t.candidates)
    requires s.anchor.Some? ==> t.anchor == s.anchor
    requires |s.candidates| <= |t.candidates| && t.candidates[..|s.candidates|] == s.candidates
    ensures var u := StepStore(t, ev);
            && (s.anchor.Some? ==> u.anchor == s.anchor)
            && |s.candidates| <= |u.candidates| && u.candidates[..|s.candidates|] == s.candidates
  {
    StepHints(t, ev);
    var u := StepStore(t, ev);
    assert u.candidates[..|s.candidates|] == t.candidates[..|s.candidates|];
  }

  // ----- what a hint can cost -----

  function FromBlock(chain: seq<Log>, first: u64): seq<Log> {
    if chain == [] then []
    else
      var before, log := FromBlock(chain[..|chain| - 1], first), chain[|chain| - 1];
      if log.block >= first then before + [log] else before
  }

  lemma {:induction false} FromBlockHas(chain: seq<Log>, first: u64, log: Log)
    ensures log in FromBlock(chain, first) <==> log in chain && log.block >= first
    decreases |chain|
  {
    if chain != [] {
      FromBlockHas(chain[..|chain| - 1], first, log);
    }
  }

  /** The endpoint lists exactly the logs of `chain` from a block on. */
  ghost predicate Lists(e: Endpoint, chain: seq<Log>) {
    forall first: u64 :: e.logs(first) == Some(FromBlock(chain, first))
  }

  lemma SomeEarliest(live: Log -> bool, logs: seq<Log>)
    ensures (exists i: nat :: Earliest(live, logs, i)) <==> exists log :: log in logs && live(log)
  {
    ScanIsEarliest(live, logs);
    if i: nat :| Earliest(live, logs, i) {
      assert logs[i] in logs && live(logs[i]);
    }
    if log :| log in logs && live(log) {
      var j :| 0 <= j < |logs| && logs[j] == log;
      assert ScanIndex(live, logs).Some?;
    }
  }

  /** An endpoint that lists its chain finds an escrow exactly when the heads agree and, among the logs no more
      than five blocks below the anchor, the earliest live one with the expected hashlock is Live on every
      wired endpoint. */
  lemma VisibleIff(s: Store, w: World, x: Expectation, chain: seq<Log>, anchor: u64)
    requires x.counterparty && Lists(w.chain, chain) && Anchored(s, w.chain).anchor == Some(anchor)
    ensures Observed(s, w, x).verdict.Found? <==>
            HeadsAgree(w)
            && exists i: nat :: Funds(w, x.hashlock, FromBlock(chain, SatSub(anchor, FROM_BLOCK_MARGIN)), i)
  {
    FoundExactly(s, w, x);
    assert Listing(s, w) == Some(FromBlock(chain, SatSub(anchor, FROM_BLOCK_MARGIN)));
  }

  /** Some live log with the expected hashlock is no more than five blocks below the anchor. */
  ghost predicate InSight(w: World, hashlock: Word, chain: seq<Log>, anchor: u64) {
    exists log :: log in chain && Live(w.chain, hashlock, log) && log.block + FROM_BLOCK_MARGIN >= anchor
  }

  lemma SomeEarliestFrom(live: Log -> bool, chain: seq<Log>, first: u64)
    ensures (exists i: nat :: Earliest(live, FromBlock(chain, first), i)) <==>
            exists log :: log in chain && live(log) && log.block >= first
  {
    var logs := FromBlock(chain, first);
    SomeEarliest(live, logs);
    forall log ensures log in logs <==> log in chain && log.block >= first {
      FromBlockHas(chain, first, log);
    }
  }

  lemma EarliestInSight(w: World, hashlock: Word, chain: seq<Log>, anchor: u64)
    ensures var logs := FromBlock(chain, SatSub(anchor, FROM_BLOCK_MARGIN));
            (exists i: nat :: Earliest(LiveOn(w.chain, hashlock), logs, i)) <==> InSight(w, hashlock, chain, anchor)
  {
    var live, first := LiveOn(w.chain, hashlock), SatSub(anchor, FROM_BLOCK_MARGIN);
    SomeEarliestFrom(live, chain, first);
    if log :| log in chain && live(log) && log.block >= first {
      assert Live(w.chain, hashlock, log) && log.block + FROM_BLOCK_MARGIN >= anchor;
    }
    if log :| log in chain && Live(w.chain, hashlock, log) && log.block + FROM_BLOCK_MARGIN >= anchor {
      assert live(log) && log.block >= first;
    }
  }

  /** Nothing further below the anchor is ever found, with any number of endpoints. */
  lemma FoundIsInSight(s: Store, w: World, x: Expectation, chain: seq<Log>, anchor: u64)
    requires x.counterparty && Lists(w.chain, chain) && Anchored(s, w.chain).anchor == Some(anchor)
    ensures Observed(s, w, x).verdict.Found? ==> InSight(w, x.hashlock, chain, anchor)
    ensures w.secondary.None? && w.chain.head.Some? ==>
              (Observed(s, w, x).verdict.Found? <==> InSight(w, x.hashlock, chain, anchor))
  {
    VisibleIff(s, w, x, chain, anchor);
    EarliestInSight(w, x.hashlock, chain, anchor);
    var logs := FromBlock(chain, SatSub(anchor, FROM_BLOCK_MARGIN));
    if i: nat :| Funds(w, x.hashlock, logs, i) {
      assert Earliest(LiveOn(w.chain, x.hashlock), logs, i);
    }
    if i: nat :| w.secondary.None? && Earliest(LiveOn(w.chain, x.hashlock), logs, i) {
      assert Funds(w, x.hashlock, logs, i);
    }
  }

  /** So a hint does cost something, unlike no hint at all: once any hint has fixed the anchor more than five
      blocks above the escrow, the escrow is never found again, on any later run and with any later hints. */
  lemma LateAnchorHides(evs: seq<Event>, more: seq<Event>, w: World, x: Expectation, chain: seq<Log>)
    requires Lists(w.chain, chain) && RunStore(evs).anchor.Some?
    requires forall log :: log in chain && Live(w.chain, x.hashlock, log) ==>
               log.block + FROM_BLOCK_MARGIN < RunStore(evs).anchor.value
    ensures !Observed(RunStore(evs + more), w, x).verdict.Found?
  {
    AnchorIsFixed(evs, more);
    if x.counterparty {
      FoundIsInSight(RunStore(evs + more), w, x, chain, RunStore(evs).anchor.value);
    }
  }

  lemma OneHint(hint: Word)
    ensures RunStore([Note(hint)]) == Store([hint], None, map[])
  {
    assert [Note(hint)][..0] == [];
    assert RunStore([]) == EMPTY;
  }

  lemma OneHintAnchors(e: Endpoint, hint: Word, block: u64)
    requires MinedAt(e, hint, block)
    ensures EarliestReceipt(e, [hint]) == Some(block)
  {
    assert [hint][0] == hint;
  }

  /** A store that heard only the hint of the escrow's own funding transaction finds it exactly when the heads
      agree and the earliest live log near that block is Live everywhere; with one endpoint, always. */
  lemma OwnHintFinds(w: World, x: Expectation, chain: seq<Log>, hint: Word, log: Log)
    requires x.counterparty && Lists(w.chain, chain)
    requires log in chain && Live(w.chain, x.hashlock, log) && MinedAt(w.chain, hint, log.block)
    ensures Observed(RunStore([Note(hint)]), w, x).verdict.Found? <==>
            HeadsAgree(w)
            && exists i: nat :: Funds(w, x.hashlock, FromBlock(chain, SatSub(log.block, FROM_BLOCK_MARGIN)), i)
    ensures w.secondary.None? && w.chain.head.Some? ==> Observed(RunStore([Note(hint)]), w, x).verdict.Found?
  {
    OneHint(hint);
    OneHintAnchors(w.chain, hint, log.block);
    VisibleIff(RunStore([Note(hint)]), w, x, chain, log.block);
    FoundIsInSight(RunStore([Note(hint)]), w, x, chain, log.block);
  }

  /** The failing input: a hint naming some later transaction is looked up first; then the escrow's own hint
      comes. The escrow stays unfound, though with its own hint alone it is found. */
  lemma ForgedHintHides(w: World, x: Expectation, chain: seq<Log>, own: Word, log: Log, forged: Word, late: u64)
    requires x.counterparty && Lists(w.chain, chain) && w.secondary.None? && w.chain.head.Some?
    requires log in chain && Live(w.chain, x.hashlock, log) && MinedAt(w.chain, own, log.block)
    requires MinedAt(w.chain, forged, late)
    requires forall l :: l in chain && Live(w.chain, x.hashlock, l) ==> l.block + FROM_BLOCK_MARGIN < late
    ensures !Observed(RunStore([Note(forged), Look(w, x)] + [Note(own)]), w, x).verdict.Found?
    ensures Observed(RunStore([Note(own)]), w, x).verdict.Found?
  {
    OwnHintFinds(w, x, chain, own, log);
    LookedUp(w, x, forged, late);
    LateAnchorHides([Note(forged), Look(w, x)], [Note(own)], w, x, chain);
  }

  lemma LookedUp(w: World, x: Expectation, hint: Word, block: u64)
    requires x.counterparty && MinedAt(w.chain, hint, block)
    ensures RunStore([Note(hint), Look(w, x)]).anchor == Some(block)
  {
    OneHint(hint);
    OneHintAnchors(w.chain, hint, block);
    assert [Note(hint), Look(w, x)][..1] == [Note(hint)];
  }
}
