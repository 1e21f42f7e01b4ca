/** The retry tick as a whole (`pending_retry.rs`): which payments it fails, which entries it keeps, what it
    sends, with the limits written out. */
module Retry {
  import opened Bytes
  import opened Packet
  import opened Settlement
  import opened Beacon
  import opened Engine
  import opened Handlers
  import opened Duties
  import E = Envelope

  /** An entry can no longer land: the head has reached its window, or, without one, two hours have passed. */
  predicate DeadNow(e: PendingTx, head: Option<HeadBeacon>, now: u64) {
    if e.validUntil.Some? then head.Some? && e.validUntil.value <= head.value.height
    else now > e.createdMs + 7_200_000
  }

  /** An entry is offered again: never flooded to anyone, or fifteen seconds ago. */
  predicate DueNow(e: PendingTx, now: u64) { e.lastFloodMs.None? || now >= e.lastFloodMs.value + 15_000 }

  lemma DeadIs(s: State, e: PendingTx, now: u64)
    ensures PendingDead(e, HeadHeight(s), now) <==> DeadNow(e, s.head, now)
    ensures RetryDue(e, now) <==> DueNow(e, now)
  {
  }

  function Live(s: State, now: u64): State {
    s.(ledger := FailDead(s.ledger, s.pending, HeadHeight(s), now),
       pending := LivePending(s.pending, HeadHeight(s), now))
  }

  lemma TickIs(s: State, now: u64)
    ensures RetryTick(s, now) ==
            if s.peers == [] then Live(s, now) else Retried(Live(s, now), |Live(s, now).pending|, now)
  {
  }

  lemma {:induction false} RetriedLedger(s: State, k: nat, now: u64)
    requires k <= |s.pending|
    ensures Retried(s, k, now).ledger == s.ledger
    decreases k
  {
    if k > 0 {
      RetriedLedger(s, k - 1, now);
    }
  }

  ghost predicate HasDead(s: State, now: u64, id: E.TxId) {
    exists e :: e in s.pending && e.txId == id && DeadNow(e, s.head, now)
  }

  lemma HasDeadIs(s: State, now: u64, id: E.TxId)
    ensures DeadFor(s.pending, HeadHeight(s), now, id) <==> HasDead(s, now, id)
  {
    if i :| 0 <= i < |s.pending| && s.pending[i].txId == id && PendingDead(s.pending[i], HeadHeight(s), now) {
      DeadIs(s, s.pending[i], now);
      assert s.pending[i] in s.pending;
    }
    if e :| e in s.pending && e.txId == id && DeadNow(e, s.head, now) {
      DeadIs(s, e, now);
      var i :| 0 <= i < |s.pending| && s.pending[i] == e;
    }
  }

  /** The tick fails exactly the payments still pending that have an entry which can no longer land, and changes
      no other. */
  lemma TickFails(s: State, now: u64, id: E.TxId)
    ensures var t := RetryTick(s, now);
            && (id in t.ledger <==> id in s.ledger)
            && (id in s.ledger ==>
                  t.ledger[id] == if s.ledger[id].status == Pending && HasDead(s, now, id)
                                  then s.ledger[id].(status := PaymentStatus.Failed) else s.ledger[id])
  {
    TickIs(s, now);
    FailsExactlyTheDead(s.ledger, s.pending, HeadHeight(s), now, id);
    HasDeadIs(s, now, id);
    RetriedLedger(Live(s, now), |Live(s, now).pending|, now);
  }

  /** An entry as the tick leaves it when someone is linked. */
  function Offered(e: PendingTx, now: u64): PendingTx { if DueNow(e, now) then e.(lastFloodMs := Some(now)) else e }

  lemma LiveEntries(s: State, now: u64, e: PendingTx)
    ensures e in Live(s, now).pending <==> e in s.pending && !DeadNow(e, s.head, now)
  {
    KeepsExactlyTheLiving(s.pending, HeadHeight(s), now, e);
    DeadIs(s, e, now);
  }

  lemma OfferedAt(s: State, now: u64, i: nat)
    requires i < |s.pending|
    ensures |Retried(s, |s.pending|, now).pending| == |s.pending|
    ensures Retried(s, |s.pending|, now).pending[i] == Offered(s.pending[i], now)
  {
    RetriesExactlyTheDue(s, |s.pending|, now, i, 0);
    DeadIs(s, s.pending[i], now);
  }

  /** The queue afterwards holds exactly the entries that can still land: as they were when nobody is linked, and
      otherwise with the due ones stamped. */
  lemma TickKeeps(s: State, now: u64, e: PendingTx)
    ensures e in RetryTick(s, now).pending <==>
            exists d :: d in s.pending && !DeadNow(d, s.head, now) && e == if s.peers == [] then d else Offered(d, now)
  {
    TickIs(s, now);
    var live := Live(s, now);
    forall d ensures d in live.pending <==> d in s.pending && !DeadNow(d, s.head, now) {
      LiveEntries(s, now, d);
    }
    if s.peers != [] {
      OfferedAll(live, now, e);
    }
  }

  lemma OfferedAll(s: State, now: u64, e: PendingTx)
    ensures e in Retried(s, |s.pending|, now).pending <==> exists d :: d in s.pending && e == Offered(d, now)
  {
    var t := Retried(s, |s.pending|, now);
    forall i | 0 <= i < |s.pending| ensures t.pending[i] == Offered(s.pending[i], now) {
      OfferedAt(s, now, i);
    }
    if e in t.pending {
      var i :| 0 <= i < |t.pending| && t.pending[i] == e;
      assert s.pending[i] in s.pending;
    }
    if d :| d in s.pending && e == Offered(d, now) {
      var i :| 0 <= i < |s.pending| && s.pending[i] == d;
      assert t.pending[i] == e;
    }
  }

  /** `x` offers a live and due entry to a link. */
  ghost predicate Offers(s: State, now: u64, x: Send) {
    exists d :: d in s.pending && !DeadNow(d, s.head, now) && DueNow(d, now) && Encodable(d.packet)
                && x.packet == d.packet && x.peer in s.peers
  }

  lemma RetriedSends(s: State, now: u64, x: Send)
    ensures s.outbox <= Retried(s, |s.pending|, now).outbox
    ensures x in NewSends(s, Retried(s, |s.pending|, now)) ==>
              exists d :: d in s.pending && DueNow(d, now) && Encodable(d.packet)
                          && x.packet == d.packet && x.peer in s.peers
  {
    RetriedFrame(s, |s.pending|, now);
    if x in NewSends(s, Retried(s, |s.pending|, now)) {
      RetriesNothingElse(s, |s.pending|, now, x);
      var i :| 0 <= i < |s.pending| && RetryDue(s.pending[i], now) && Encodable(s.pending[i].packet)
               && x.packet == s.pending[i].packet && x.peer in s.peers;
      DeadIs(s, s.pending[i], now);
      assert s.pending[i] in s.pending;
    }
  }

  /** What is waiting to be sent does not matter to the retries. */
  lemma {:induction false} RetriedDrained(s: State, k: nat, now: u64)
    requires k <= |s.pending|
    ensures var t := Retried(s.(outbox := []), k, now);
            Retried(s, k, now) == t.(outbox := s.outbox + t.outbox)
    decreases k
  {
    if k > 0 {
      RetriedDrained(s, k - 1, now);
      EntryDrained(Retried(s.(outbox := []), k - 1, now), s.outbox, k - 1, now);
    }
  }

  lemma EntryDrained(t: State, waiting: seq<Send>, i: nat, now: u64)
    requires i < |t.pending|
    ensures var u := RetryEntry(t, i, now);
            RetryEntry(t.(outbox := waiting + t.outbox), i, now) == u.(outbox := waiting + u.outbox)
  {
    var sends := Sends(t.peers, t.pending[i].packet, None);
    assert (waiting + t.outbox) + sends == waiting + (t.outbox + sends);
  }

  lemma RetriedOffers(s: State, now: u64, d: PendingTx, q: Peer)
    requires d in s.pending && DueNow(d, now) && Encodable(d.packet) && q in s.peers
    ensures |s.outbox| <= |Retried(s, |s.pending|, now).outbox|
    ensures Send(q, d.packet) in NewSends(s, Retried(s, |s.pending|, now))
  {
    var i :| 0 <= i < |s.pending| && s.pending[i] == d;
    DeadIs(s, d, now);
    RetriedDrained(s, |s.pending|, now);
    RetriesExactlyTheDue(s.(outbox := []), |s.pending|, now, i, q);
  }

  /** The tick sends exactly the live and due entries, each to every link, and nothing when nobody is linked. */
  lemma TickSends(s: State, now: u64, x: Send)
    ensures s.outbox <= RetryTick(s, now).outbox
    ensures x in NewSends(s, RetryTick(s, now)) <==> Offers(s, now, x)
  {
    TickIs(s, now);
    var live := Live(s, now);
    forall d ensures d in live.pending <==> d in s.pending && !DeadNow(d, s.head, now) {
      LiveEntries(s, now, d);
    }
    if s.peers != [] {
      RetriedSends(live, now, x);
      if d :| d in s.pending && !DeadNow(d, s.head, now) && DueNow(d, now) && Encodable(d.packet)
              && x.packet == d.packet && x.peer in s.peers {
        RetriedOffers(live, now, d, x.peer);
        assert x == Send(x.peer, d.packet);
      }
    }
  }
}
