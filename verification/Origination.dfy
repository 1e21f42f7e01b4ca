/** What a node sends of its own accord: payments, answers, beacons, queries and sync requests, each to every
    link, and what it keeps of them. */
module Origination {
  import opened Bytes
  import opened Packet
  import opened Dedup
  import opened Settlement
  import opened Beacon
  import opened Engine
  import opened Handlers
  import opened Duties
  import E = Envelope
  import B = Balance

  /** From `s` to `t` exactly the links of `s` were sent `x`, and nothing else was sent. */
  ghost predicate Reaches(s: State, t: State, x: Packet) {
    && s.outbox <= t.outbox
    && (forall q :: Send(q, x) in NewSends(s, t) <==> q in s.peers)
    && (forall y :: y in NewSends(s, t) ==> y.packet == x)
  }

  lemma FloodReaches(s: State, t: State, x: Packet)
    requires Encodable(x) && t.outbox == Flood(s, x, None).outbox
    ensures Reaches(s, t, x)
  {
    assert NewSends(s, t) == Sends(s.peers, x, None);
    forall q ensures Send(q, x) in NewSends(s, t) <==> q in s.peers {
      SendsExactly(s.peers, x, None, q);
    }
  }

  /** A packet of the node's own: its type, its identity, the full hop budget, to everyone, under a fresh
      sequence number. */
  predicate OwnPacket(cfg: Config, s: State, x: Packet, ty: MessageType) {
    && x.version == VERSION && x.msgType == ty && x.ttl == 7 && x.senderId == cfg.senderId
    && x.timestampMs == s.nextSeq && x.recipientId == Some(BROADCAST_RECIPIENT) && x.signature == None
    && x.flags == Flags(false, false, false)
  }

  /** A flood of the node's own reaches every link, is cached and is seen. */
  ghost predicate Floods(w: World, s: State, t: State, x: Packet, now: u64) {
    Reaches(s, t, x) && Stores(w, s, t, x, now) && !Unseen(t, x)
  }

  lemma OwnFloodFloods(w: World, cfg: Config, s: State, ty: MessageType, payload: seq<byte>, now: u64)
    returns (x: Packet)
    requires |payload| <= 65535
    ensures OwnPacket(cfg, s, x, ty) && x.payload == payload
    ensures Floods(w, s, OwnFlood(w, cfg, s, ty, payload, now), x, now)
  {
    x := Built(cfg, s, ty, payload);
    var t := OwnFlood(w, cfg, s, ty, payload, now);
    OwnFloodIs(w, cfg, s, ty, payload, now);
    FloodReaches(s, t, x);
    RememberStores(w, s, x, now);
  }

  /** The links, the outbox, the cache and the sequence number are all a flood looks at. */
  lemma FloodsFrom(w: World, s: State, s1: State, t: State, x: Packet, now: u64)
    requires s1.peers == s.peers && s1.outbox == s.outbox && s1.recent == s.recent && Floods(w, s1, t, x, now)
    ensures Floods(w, s, t, x, now)
  {
    assert NewSends(s, t) == NewSends(s1, t);
  }

  // ----- beacons and queries -----

  /** A gateway's poll floods exactly the beacon it emits, and nothing when it emits none. */
  lemma PollFloods(w: World, cfg: Config, s: State, poll: Poll) returns (x: Packet)
    requires cfg.isGateway
    ensures Emits(s.uplink, poll).Some? ==>
              && OwnPacket(cfg, s, x, NimiqHeadBeacon) && DecodeBeacon(x.payload) == Emits(s.uplink, poll)
              && Floods(w, s, BeaconPoll(w, cfg, s, poll), x, poll.now)
    ensures Emits(s.uplink, poll).None? ==> BeaconPoll(w, cfg, s, poll) == s.(uplink := AfterPoll(s.uplink, poll))
  {
    var b := Emits(s.uplink, poll);
    x := Built(cfg, s, NimiqHeadBeacon, []);
    if b.Some? {
      BeaconCodec(b.value, []);
      var s1 := s.(uplink := AfterPoll(s.uplink, poll), head := AcceptHead(cfg.network, s.head, b.value));
      x := OwnFloodFloods(w, cfg, s1, NimiqHeadBeacon, EncodeBeacon(b.value), poll.now);
      PollIs(w, cfg, s, poll, b.value, s1);
      FloodsFrom(w, s, s1, BeaconPoll(w, cfg, s, poll), x, poll.now);
    }
  }

  lemma PollIs(w: World, cfg: Config, s: State, poll: Poll, b: HeadBeacon, s1: State)
    requires cfg.isGateway && Emits(s.uplink, poll) == Some(b)
    requires s1 == s.(uplink := AfterPoll(s.uplink, poll), head := AcceptHead(cfg.network, s.head, b))
    ensures BeaconPoll(w, cfg, s, poll) == OwnFlood(w, cfg, s1, NimiqHeadBeacon, EncodeBeacon(b), poll.now)
  {
  }

  lemma QueryFloods(w: World, cfg: Config, s: State, address: B.Address, now: u64) returns (x: Packet)
    ensures OwnPacket(cfg, s, x, NimiqBalanceQuery) && B.DecodeQuery(x.payload) == Some(address)
    ensures Floods(w, s, LocalBalanceQuery(w, cfg, s, address, now), x, now)
  {
    x := OwnFloodFloods(w, cfg, s, NimiqBalanceQuery, address, now);
  }

  // ----- answers -----

  lemma AnswerFloods(w: World, cfg: Config, s: State, address: B.Address, a: BalanceAnswer, now: u64)
    returns (x: Packet)
    ensures OwnPacket(cfg, s, x, NimiqBalanceResponse)
    ensures B.DecodeResponse(x.payload) == Some(B.BalanceResponse(address, a.balance, a.headHeight, a.networkId))
    ensures Floods(w, s, AnswerBalance(w, cfg, s, address, a, now), x, now)
  {
    var resp := B.BalanceResponse(address, a.balance, a.headHeight, a.networkId);
    var s1 := s.(balances := B.ObserveBalance(cfg.network, s.balances, resp));
    B.ResponseCodec(resp, []);
    x := OwnFloodFloods(w, cfg, s1, NimiqBalanceResponse, B.EncodeResponse(resp), now);
    FloodsFrom(w, s, s1, AnswerBalance(w, cfg, s, address, a, now), x, now);
  }

  lemma RelayAddsOnly(s: State, s1: State, p: Packet, src: Option<Peer>, at: nat, ch: Choice, y: Send)
    requires |s.outbox| <= |s1.outbox| && y in NewSends(s, s1)
    ensures var t := RelayOnward(s1, p, src, at, ch); |s.outbox| <= |t.outbox| && y in NewSends(s, t)
  {
    RelayOnwardSends(s1, p, src, at, ch);
    assert NewSends(s, RelayOnward(s1, p, src, at, ch)) == NewSends(s, s1) + RelaySends(s1, p, src, ch);
  }

  /** A gateway given a fresh balance query and an answer from its backend tells every link: a response for the
      queried address with the backend's balance, height and network. */
  lemma QueryIsAnswered(w: World, cfg: Config, s: State, p: Packet, src: Option<Peer>, ch: Choice,
                        address: B.Address, a: BalanceAnswer, q: Peer) returns (x: Packet)
    requires cfg.isGateway && Unseen(s, p) && B.DecodeQuery(p.payload) == Some(address) && ch.balance == Some(a)
    requires q in s.peers
    ensures OwnPacket(cfg, s, x, NimiqBalanceResponse)
    ensures B.DecodeResponse(x.payload) == Some(B.BalanceResponse(address, a.balance, a.headHeight, a.networkId))
    ensures var t := HandleBalanceQuery(w, cfg, s, p, src, ch);
            |s.outbox| <= |t.outbox| && Send(q, x) in NewSends(s, t)
  {
    var s1 := Remember(w, MarkSeen(s, p), p, ch.now);
    x := AnswerFloods(w, cfg, s1, address, a, ch.now);
    var s2 := AnswerBalance(w, cfg, s1, address, a, ch.now);
    FloodsFrom(w, s.(recent := s1.recent), s1, s2, x, ch.now);
    assert s2 == AfterAnswer(w, cfg, s1, p, ch);
    QueryEnds(w, cfg, s, p, src, ch);
    RelayAddsOnly(s, s2, p, src, |s.relaySeen|, ch, Send(q, x));
  }

  // ----- sync requests -----

  /** The newest ids first, at most `n`. */
  lemma {:induction false} NewestAre(r: seq<Stored>, n: nat)
    ensures var ids := NewestIds(r, n);
            |ids| == Min(n, |r|) && forall i :: 0 <= i < |ids| ==> ids[i] == r[|r| - 1 - i].id
    decreases |r|
  {
    if r != [] && n > 0 {
      NewestAre(r[..|r| - 1], n - 1);
    }
  }

  lemma NewestDetermined(r: seq<Stored>, n: nat, ids: seq<nat>)
    requires |ids| == Min(n, |r|) && forall i :: 0 <= i < |ids| ==> ids[i] == r[|r| - 1 - i].id
    ensures ids == NewestIds(r, n)
  {
    NewestAre(r, n);
  }

  /** A sync request advertises the last 360 live entries, newest first, and goes to every link with no hops. */
  lemma SyncFloods(w: World, cfg: Config, s: State, now: u64, ids: seq<nat>) returns (x: Packet)
    requires var live := Gc(s.recent, now);
             |ids| == Min(360, |live|) && forall i :: 0 <= i < |ids| ==> ids[i] == live[|live| - 1 - i].id
    requires |w.buildFilter(ids)| <= 65535
    ensures x.msgType == RequestSync && x.ttl == 0 && x.senderId == cfg.senderId && x.payload == w.buildFilter(ids)
    ensures x.timestampMs == s.nextSeq
    ensures Reaches(s, EmitRequestSync(w, cfg, s, now), x)
    ensures EmitRequestSync(w, cfg, s, now).recent == Gc(s.recent, now)
  {
    NewestDetermined(Gc(s.recent, now), GCS_MAX_ITEMS, ids);
    x := Built(cfg, s, RequestSync, w.buildFilter(ids)).(ttl := 0);
    SyncIs(w, cfg, s, now, x);
    FloodReaches(s, EmitRequestSync(w, cfg, s, now), x);
  }

  lemma SyncIs(w: World, cfg: Config, s: State, now: u64, x: Packet)
    requires x == Built(cfg, s, RequestSync, w.buildFilter(NewestIds(Gc(s.recent, now), GCS_MAX_ITEMS))).(ttl := 0)
    ensures var t := EmitRequestSync(w, cfg, s, now);
            t.outbox == Flood(s, x, None).outbox && t.recent == Gc(s.recent, now)
  {
  }

  // ----- payments -----

  /** The envelope a node puts around a payment of its own, written out: the wire, the node's network, its id,
      and a window of 7200 blocks from the head it knows, if it knows one. */
  predicate OwnEnvelope(w: World, cfg: Config, s: State, wire: seq<byte>, e: E.NimiqEnvelope) {
    && e.txWire == wire && e.networkId == cfg.network && e.txId == Some(w.txIdOf(wire))
    && e.encMemo == None && e.wantReceipt
    && e.validUntil == if s.head.None? then None
                       else Some(if s.head.value.height + 7200 <= U32_MAX then s.head.value.height + 7200 else U32_MAX)
  }

  lemma LocalEnvelopeIsOwn(w: World, cfg: Config, s: State, wire: seq<byte>)
    requires |wire| <= 255
    ensures var e := LocalEnvelope(w, cfg, s, wire);
            && OwnEnvelope(w, cfg, s, wire, e) && E.Encoded(e).Ok? && |E.Encoded(e).value| <= 65535
            && E.Decoded(E.Encoded(e).value) == Ok(e)
  {
    var e := LocalEnvelope(w, cfg, s, wire);
    E.EnvelopeIsSmall(e);
    E.RoundTrip(e);
  }

  lemma AddPendingExactly(ps: seq<PendingTx>, e: PendingTx, x: PendingTx)
    ensures e in AddPending(ps, e)
    ensures |ps| <= MAX_PENDING ==> |AddPending(ps, e)| <= MAX_PENDING
    ensures |ps| < MAX_PENDING && x in ps && x.txId != e.txId ==> x in AddPending(ps, e)
    ensures x in AddPending(ps, e) && x != e ==> x in ps && x.txId != e.txId
  {
    var rest := ClearPending(ps, e.txId);
    ClearPendingExactly(ps, e.txId, x);
    ClearPendingShrinks(ps, e.txId);
  }

  lemma {:induction false} ClearPendingShrinks(ps: seq<PendingTx>, id: E.TxId)
    ensures |ClearPending(ps, id)| <= |ps|
    decreases |ps|
  {
    if ps != [] {
      ClearPendingShrinks(ps[..|ps| - 1], id);
    }
  }

  /** The ledger tracks the payment: as pending and outgoing if it is new, as it was otherwise. */
  predicate Tracks(s: State, t: State, id: E.TxId) {
    id in t.ledger && t.ledger[id] == if id in s.ledger then s.ledger[id] else Tracked(Pending, Outgoing)
  }

  lemma CarryLocalIs(w: World, cfg: Config, s: State, wire: seq<byte>, validUntil: Option<u32>, payload: seq<byte>,
                     now: u64, x: Packet, entry: PendingTx)
    requires x == Built(cfg, s, NimiqTx, payload) && |payload| <= 65535
    requires entry == PendingTx(w.txIdOf(wire), x, validUntil, now, if s.peers != [] then Some(now) else None)
    ensures var t := CarryLocal(w, cfg, s, wire, validUntil, payload, now);
            && t.outbox == Flood(s, x, None).outbox && t.relaySeen == MarkSeen(s, x).relaySeen
            && t.recent == Remember(w, s, x, now).recent && t.pending == AddPending(s.pending, entry)
            && t.ledger == Record(s.ledger, w.txIdOf(wire), Outgoing)
  {
  }

  /** Originating a payment whose wire fits a TLV: one packet of the node's own, carrying exactly that wire in an
      envelope of its own, reaches every link; it is cached and seen; the payment is tracked; and the same packet
      is queued for retry, stamped as flooded exactly when someone was linked. */
  lemma PaymentIsFlooded(w: World, cfg: Config, s: State, wire: seq<byte>, now: u64)
    returns (x: Packet, e: E.NimiqEnvelope, entry: PendingTx)
    requires |wire| <= 255
    ensures OwnPacket(cfg, s, x, NimiqTx) && E.Decoded(x.payload) == Ok(e) && OwnEnvelope(w, cfg, s, wire, e)
    ensures Floods(w, s, LocalTx(w, cfg, s, wire, now), x, now)
    ensures Tracks(s, LocalTx(w, cfg, s, wire, now), w.txIdOf(wire))
    ensures entry == PendingTx(w.txIdOf(wire), x, e.validUntil, now, if s.peers != [] then Some(now) else None)
    ensures entry in LocalTx(w, cfg, s, wire, now).pending
  {
    LocalEnvelopeIsOwn(w, cfg, s, wire);
    e := LocalEnvelope(w, cfg, s, wire);
    var payload := E.Encoded(e).value;
    x := Built(cfg, s, NimiqTx, payload);
    entry := PendingTx(w.txIdOf(wire), x, e.validUntil, now, if s.peers != [] then Some(now) else None);
    var t := LocalTx(w, cfg, s, wire, now);
    assert t == CarryLocal(w, cfg, s, wire, e.validUntil, payload, now);
    CarryLocalIs(w, cfg, s, wire, e.validUntil, payload, now, x, entry);
    FloodReaches(s, t, x);
    RememberStores(w, s, x, now);
    AddPendingExactly(s.pending, entry, entry);
  }

  /** A longer wire changes nothing. */
  lemma LongWireIsRefused(w: World, cfg: Config, s: State, wire: seq<byte>, now: u64)
    requires |wire| > 255
    ensures LocalTx(w, cfg, s, wire, now) == s
  {
  }

  /** A payment to wait for is tracked as pending and incoming unless it is known; nothing else changes. */
  lemma IncomingIsTracked(w: World, cfg: Config, s: State, id: E.TxId, other: E.TxId)
    ensures var t := Step(w, cfg, s, WatchIncoming(id));
            && t == s.(ledger := t.ledger)
            && id in t.ledger && t.ledger[id] == (if id in s.ledger then s.ledger[id] else Tracked(Pending, Incoming))
            && (other != id ==> (other in t.ledger <==> other in s.ledger)
                                && (other in s.ledger ==> t.ledger[other] == s.ledger[other]))
  {
  }
}
