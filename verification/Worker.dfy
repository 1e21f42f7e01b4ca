/** The worker itself: one object per node, its fields updated in place by the handlers of
    `engine.rs`. Every method is proved against the specification function of the same handler in
    `Engine`, so what `NodeRuns`, `Network` and `Quiescence` prove of those functions is proved of
    this object. */
module Worker {
  import opened Bytes
  import opened Packet
  import opened Dedup
  import opened Settlement
  import opened Beacon
  import S = Engine
  import E = Envelope
  import B = Balance
  import Codec

  /** One send per peer of the snapshot but the excluded one. */
  method SendEach(snapshot: seq<S.Peer>, p: Packet, exclude: Option<S.Peer>) returns (out: seq<S.Send>)
    ensures out == S.Sends(snapshot, p, exclude)
  {
    out := [];
    for i := 0 to |snapshot|
      invariant out == S.Sends(snapshot[..i], p, exclude)
    {
      assert snapshot[..i + 1][..i] == snapshot[..i];
      if Some(snapshot[i]) != exclude {
        out := out + [S.Send(snapshot[i], p)];
      }
    }
    assert snapshot[..|snapshot|] == snapshot;
  }

  /** The ids of the newest entries, newest first, as many as a filter holds. */
  method AdvertiseIds(recent: seq<S.Stored>) returns (ids: seq<nat>)
    ensures ids == S.NewestIds(recent, S.GCS_MAX_ITEMS)
  {
    ids := [];
    var k := |recent|;
    assert recent[..k] == recent;
    while k > 0 && |ids| < S.GCS_MAX_ITEMS
      invariant 0 <= k <= |recent| && |ids| <= S.GCS_MAX_ITEMS
      invariant ids + S.NewestIds(recent[..k], S.GCS_MAX_ITEMS - |ids|) == S.NewestIds(recent, S.GCS_MAX_ITEMS)
    {
      assert recent[..k][..k - 1] == recent[..k - 1];
      k := k - 1;
      ids := ids + [recent[k].id];
    }
  }

  /** The links without `p`. */
  method Unlinked(peers: seq<S.Peer>, p: S.Peer) returns (left: seq<S.Peer>)
    ensures left == S.RemovePeer(peers, p)
  {
    left := [];
    for i := 0 to |peers|
      invariant left == S.RemovePeer(peers[..i], p)
    {
      assert peers[..i + 1][..i] == peers[..i];
      if peers[i] != p {
        left := left + [peers[i]];
      }
    }
    assert peers[..|peers|] == peers;
  }

  class Worker {
    const w: S.World
    const cfg: S.Config
    const relaySeen: DedupCache<S.RelayKey>
    const gatewaySeen: DedupCache<E.TxId>
    const acked: DedupCache<E.TxId>
    const head: HeadCache
    const balances: B.BalanceCache
    const emitter: BeaconEmitter
    var peers: seq<S.Peer>
    var recent: seq<S.Stored>
    var ledger: Ledger
    var pending: seq<S.PendingTx>
    var nextSeq: u64
    var outbox: seq<S.Send>
    ghost var originated: seq<seq<byte>>
    ghost var relays: seq<S.Relay>
    ghost var submissions: seq<S.Submission>

    ghost function Parts(): set<object> {
      {this, relaySeen, gatewaySeen, acked, head, balances, emitter}
    }

    ghost predicate Valid()
      reads Parts()
    {
      && relaySeen.Valid() && relaySeen.capacity == S.RELAY_CACHE_CAP
      && gatewaySeen.Valid() && gatewaySeen.capacity == S.GATEWAY_CACHE_CAP
      && acked.Valid() && acked.capacity == S.GATEWAY_CACHE_CAP
      && gatewaySeen != acked
      && head.networkId == cfg.network && balances.networkId == Some(cfg.network)
    }

    ghost function View(): S.State
      reads Parts()
    {
      S.State(peers, relaySeen.log, gatewaySeen.log, acked.log, recent, head.latest, balances.entries,
              ledger, pending, nextSeq, emitter.View(), outbox, originated, relays, submissions)
    }

    constructor (w: S.World, cfg: S.Config, seed: u64)
      ensures Valid() && View() == S.Init(seed) && this.w == w && this.cfg == cfg
    {
      this.w, this.cfg := w, cfg;
      relaySeen := new DedupCache(S.RELAY_CACHE_CAP);
      gatewaySeen := new DedupCache(S.GATEWAY_CACHE_CAP);
      acked := new DedupCache(S.GATEWAY_CACHE_CAP);
      head := new HeadCache(cfg.network);
      balances := new B.BalanceCache.ForNetwork(cfg.network);
      emitter := new BeaconEmitter();
      peers, recent, ledger, pending, nextSeq, outbox := [], [], map[], [], seed, [];
      originated, relays, submissions := [], [], [];
    }

    // ----- sending and storing -----

    /** `flood_excluding`: one fire-and-forget send per connected peer but the source. */
    method FloodExcluding(p: Packet, exclude: Option<S.Peer>)
      requires Valid() && S.Encodable(p)
      modifies `outbox
      ensures Valid() && View() == S.Flood(old(View()), p, exclude)
    {
      var out := SendEach(peers, p, exclude);
      outbox := outbox + out;
    }

    method Flood(p: Packet, exclude: Option<S.Peer>)
      requires Valid()
      modifies `outbox
      ensures Valid() && View() == S.Flood(old(View()), p, exclude)
    {
      if |p.payload| <= Codec.MAX_PAYLOAD_LEN {
        FloodExcluding(p, exclude);
      }
    }

    /** `build_packet`, taking the next sequence number as the timestamp. */
    method BuildPacket(ty: MessageType, payload: seq<byte>) returns (p: Packet)
      requires Valid()
      modifies `nextSeq
      ensures Valid() && View() == S.TakeSeq(old(View()))
      ensures p == S.Built(cfg, old(View()), ty, payload)
    {
      p := Packet(VERSION, ty, DEFAULT_TTL, nextSeq, Flags(false, false, false), cfg.senderId,
                  Some(BROADCAST_RECIPIENT), payload, None);
      nextSeq := if nextSeq == U64_MAX then 0 else nextSeq + 1;
    }

    method MarkSeen(p: Packet) returns (isNew: bool)
      requires Valid()
      modifies relaySeen
      ensures Valid() && View() == S.MarkSeen(old(View()), p)
      ensures isNew == S.Unseen(old(View()), p)
    {
      isNew := relaySeen.Insert(S.KeyOf(p));
    }

    /** `RecentCache::gc`: drop entries from the front while they are past retention. */
    method Gc(now: u64)
      requires Valid()
      modifies `recent
      ensures Valid() && View() == old(View()).(recent := S.Gc(old(recent), now))
    {
      while recent != [] && SatSub(now, recent[0].at) > S.RECENT_RETENTION_MS
        invariant Valid() && View() == old(View()).(recent := recent)
        invariant S.Gc(recent, now) == S.Gc(old(recent), now)
        decreases |recent|
      {
        recent := recent[1..];
      }
    }

    method Remember(p: Packet, now: u64)
      requires Valid()
      modifies `recent
      ensures Valid() && View() == S.Remember(w, old(View()), p, now)
    {
      var id := w.packetIdOf(S.KeyOf(p));
      Gc(now);
      if S.HasId(recent, id) {
        return;
      }
      if |recent| >= S.RECENT_CACHE_CAP {
        recent := recent[1..];
      }
      recent := recent + [S.Stored(id, p, now)];
    }

    method RelayOnward(p: Packet, src: Option<S.Peer>, ghost at: nat, ch: S.Choice)
      requires Valid()
      modifies `outbox, `relays
      ensures Valid() && View() == S.RelayOnward(old(View()), p, src, at, ch)
    {
      if !ch.relayOk {
        return;
      }
      var ttl := S.RelayedTtl(p.ttl);
      if ttl.None? {
        return;
      }
      var q := p.(ttl := ttl.value);
      if |q.payload| <= Codec.MAX_PAYLOAD_LEN {
        FloodExcluding(q, src);
        relays := relays + [S.Relay(at, q)];
      }
    }

    method OwnFlood(ty: MessageType, payload: seq<byte>, now: u64)
      requires Valid()
      modifies `nextSeq, `recent, `outbox, relaySeen
      ensures Valid() && View() == S.OwnFlood(w, cfg, old(View()), ty, payload, now)
    {
      var p := BuildPacket(ty, payload);
      var _ := MarkSeen(p);
      Remember(p, now);
      Flood(p, None);
    }

    // ----- handlers -----

    method FloodReceipt(r: Receipt)
      requires Valid()
      modifies `nextSeq, `outbox, relaySeen
      ensures Valid() && View() == S.FloodReceipt(cfg, old(View()), r)
    {
      var reply := BuildPacket(NimiqTxReceipt, EncodeReceipt(r));
      var _ := MarkSeen(reply);
      Flood(reply, None);
    }

    /** Claim the one submission of `id`, unless it was claimed before. */
    method ClaimSubmission(id: E.TxId, e: E.NimiqEnvelope, ch: S.Choice) returns (isNew: bool)
      requires Valid()
      modifies `submissions, gatewaySeen
      ensures Valid() && isNew == IsNew(old(View()).gatewaySeen, S.GATEWAY_CACHE_CAP, id)
      ensures View() == if !isNew then old(View())
                        else old(View()).(gatewaySeen := old(View()).gatewaySeen + [id],
                                          submissions := old(View()).submissions
                                            + [S.Submission(|old(View()).gatewaySeen|, id, e.txWire, e.networkId,
                                                            e.validUntil, ch.submit)])
    {
      ghost var at := |gatewaySeen.log|;
      isNew := gatewaySeen.Insert(id);
      if isNew {
        submissions := submissions + [S.Submission(at, id, e.txWire, e.networkId, e.validUntil, ch.submit)];
      }
    }

    method SubmitOnce(e: E.NimiqEnvelope, ch: S.Choice)
      requires Valid()
      modifies this, relaySeen, gatewaySeen
      ensures Valid() && View() == S.Submit(w, cfg, old(View()), e, ch)
    {
      var id := S.TxIdIn(w, e);
      var isNew := ClaimSubmission(id, e, ch);
      if isNew && ch.submit.Some? {
        FloodReceipt(Receipt(id, ch.submit.value));
      }
    }

    /** The gates after dedup: closed window, failed signature check, already landed. */
    method TxGates(p: Packet, env: Result<E.NimiqEnvelope, E.EnvelopeError>) returns (refused: bool)
      requires Valid() && env == E.Decoded(p.payload)
      ensures refused == S.TxRefused(w, cfg, View(), p)
    {
      var headHeight := if head.latest.Some? then Some(head.latest.value.height) else None;
      if env.Ok? && IsExpired(headHeight, env.value.validUntil) {
        return true;
      }
      if cfg.verifyBeforeRelay && !(env.Ok? && w.wireVerifies(env.value.txWire)) {
        return true;
      }
      if env.Ok? {
        refused := acked.Contains(S.TxIdIn(w, env.value));
      } else {
        refused := false;
      }
    }

    method HandleTx(p: Packet, src: Option<S.Peer>, ch: S.Choice)
      requires Valid()
      modifies this, relaySeen, gatewaySeen
      ensures Valid() && View() == S.HandleTx(w, cfg, old(View()), p, src, ch)
    {
      ghost var at := |relaySeen.log|;
      var isNew := MarkSeen(p);
      if !isNew {
        return;
      }
      var env := E.DecodeEnvelope(p.payload);
      var refused := TxGates(p, env);
      if !refused {
        CarryTx(p, env, src, at, ch);
      }
    }

    /** Past the gates: store, submit when a gateway, relay. */
    method CarryTx(p: Packet, env: Result<E.NimiqEnvelope, E.EnvelopeError>, src: Option<S.Peer>, ghost at: nat,
                   ch: S.Choice)
      requires Valid() && env == E.Decoded(p.payload)
      modifies this, relaySeen, gatewaySeen
      ensures Valid() && View() == S.CarryTx(w, cfg, old(View()), p, src, at, ch)
    {
      Remember(p, ch.now);
      if cfg.isGateway && env.Ok? {
        SubmitOnce(env.value, ch);
      }
      RelayOnward(p, src, at, ch);
    }

    method ApplyReceipt(payload: seq<byte>)
      requires Valid()
      modifies `ledger, `pending, acked
      ensures Valid() && View() == S.ApplyReceipt(old(View()), payload)
    {
      var r := DecodeReceipt(payload);
      if r.None? {
        return;
      }
      Close(r.value);
    }

    /** Settle the payment, stop retrying it, remember that it landed. */
    method Close(r: Receipt)
      requires Valid()
      modifies `ledger, `pending, acked
      ensures Valid()
      ensures View() == old(View()).(ledger := Settle(old(ledger), r.txId, PaymentOf(r.status)),
                                     pending := S.ClearPending(old(pending), r.txId),
                                     acked := Offer(old(acked.log), S.GATEWAY_CACHE_CAP, r.txId))
    {
      ledger := Settle(ledger, r.txId, PaymentOf(r.status));
      pending := S.ClearPending(pending, r.txId);
      ghost var s1 := View();
      assert s1 == old(View()).(ledger := ledger, pending := pending);
      RememberAck(r.txId);
    }

    method RememberAck(id: E.TxId)
      requires Valid()
      modifies acked
      ensures Valid() && View() == old(View()).(acked := Offer(old(View()).acked, S.GATEWAY_CACHE_CAP, id))
    {
      var _ := acked.Insert(id);
    }

    method HandleReceipt(p: Packet, src: Option<S.Peer>, ch: S.Choice)
      requires Valid()
      modifies this, relaySeen, acked
      ensures Valid() && View() == S.HandleReceipt(w, old(View()), p, src, ch)
    {
      ghost var at := |relaySeen.log|;
      var isNew := MarkSeen(p);
      if !isNew {
        return;
      }
      Remember(p, ch.now);
      ApplyReceipt(p.payload);
      RelayOnward(p, src, at, ch);
    }

    method AbsorbBeacon(payload: seq<byte>)
      requires Valid()
      modifies head
      ensures Valid() && View() == S.AbsorbBeacon(cfg, old(View()), payload)
    {
      var beacon := DecodeBeacon(payload);
      if beacon.Some? {
        var _ := head.Accept(beacon.value);
      }
    }

    method HandleHeadBeacon(p: Packet, src: Option<S.Peer>, ch: S.Choice)
      requires Valid()
      modifies this, relaySeen, head
      ensures Valid() && View() == S.HandleHeadBeacon(w, cfg, old(View()), p, src, ch)
    {
      ghost var at := |relaySeen.log|;
      var isNew := MarkSeen(p);
      if !isNew {
        return;
      }
      AbsorbBeacon(p.payload);
      Remember(p, ch.now);
      RelayOnward(p, src, at, ch);
    }

    method AnswerBalance(address: B.Address, a: S.BalanceAnswer, now: u64)
      requires Valid()
      modifies this, relaySeen, balances
      ensures Valid() && View() == S.AnswerBalance(w, cfg, old(View()), address, a, now)
    {
      var resp := B.BalanceResponse(address, a.balance, a.headHeight, a.networkId);
      var _ := balances.Observe(resp);
      OwnFlood(NimiqBalanceResponse, B.EncodeResponse(resp), now);
    }

    method HandleBalanceQuery(p: Packet, src: Option<S.Peer>, ch: S.Choice)
      requires Valid()
      modifies this, relaySeen, balances
      ensures Valid() && View() == S.HandleBalanceQuery(w, cfg, old(View()), p, src, ch)
    {
      ghost var at := |relaySeen.log|;
      var isNew := MarkSeen(p);
      if !isNew {
        return;
      }
      Remember(p, ch.now);
      if cfg.isGateway {
        var query := B.DecodeQuery(p.payload);
        if query.Some? && ch.balance.Some? {
          AnswerBalance(query.value, ch.balance.value, ch.now);
        }
      }
      RelayOnward(p, src, at, ch);
    }

    method AbsorbBalance(payload: seq<byte>)
      requires Valid()
      modifies balances
      ensures Valid() && View() == S.AbsorbBalance(cfg, old(View()), payload)
    {
      var resp := B.DecodeResponse(payload);
      if resp.Some? {
        var _ := balances.Observe(resp.value);
      }
    }

    method HandleBalanceResponse(p: Packet, src: Option<S.Peer>, ch: S.Choice)
      requires Valid()
      modifies this, relaySeen, balances
      ensures Valid() && View() == S.HandleBalanceResponse(w, cfg, old(View()), p, src, ch)
    {
      ghost var at := |relaySeen.log|;
      var isNew := MarkSeen(p);
      if !isNew {
        return;
      }
      AbsorbBalance(p.payload);
      Remember(p, ch.now);
      RelayOnward(p, src, at, ch);
    }

    method HandleOpaque(p: Packet, src: Option<S.Peer>, ch: S.Choice)
      requires Valid()
      modifies this, relaySeen
      ensures Valid() && View() == S.HandleOpaque(w, old(View()), p, src, ch)
    {
      ghost var at := |relaySeen.log|;
      var isNew := MarkSeen(p);
      if isNew {
        Remember(p, ch.now);
        RelayOnward(p, src, at, ch);
      }
    }

    method DispatchPacket(p: Packet, src: Option<S.Peer>, ch: S.Choice)
      requires Valid()
      modifies Parts()
      ensures Valid() && View() == S.Dispatch(w, cfg, old(View()), p, src, ch)
    {
      if p.msgType == NimiqTx {
        HandleTx(p, src, ch);
      } else if p.msgType == NimiqTxReceipt {
        HandleReceipt(p, src, ch);
      } else if p.msgType == NimiqHeadBeacon {
        HandleHeadBeacon(p, src, ch);
      } else if p.msgType == NimiqBalanceQuery {
        HandleBalanceQuery(p, src, ch);
      } else if p.msgType == NimiqBalanceResponse {
        HandleBalanceResponse(p, src, ch);
      } else if S.Modelled(p.msgType) {
        HandleOpaque(p, src, ch);
      }
    }

    /** Unicast what the requester's filter does not cover, flagged as catch-up. */
    method HandleRequestSync(p: Packet, src: Option<S.Peer>, now: u64)
      requires Valid()
      modifies `recent, `outbox
      ensures Valid() && View() == S.HandleRequestSync(w, old(View()), p, src, now)
    {
      if src.None? || !w.filterParses(p.payload) {
        return;
      }
      Gc(now);
      SendCatchUp(p.payload, src.value);
    }

    method SendCatchUp(filter: seq<byte>, requester: S.Peer)
      requires Valid()
      modifies `outbox
      ensures Valid()
      ensures View() == old(View()).(outbox := old(outbox) + S.CatchUp(w, recent, filter, requester))
    {
      for i := 0 to |recent|
        invariant outbox == old(outbox) + S.CatchUp(w, recent[..i], filter, requester)
      {
        assert recent[..i + 1][..i] == recent[..i];
        var missing := recent[i].packet;
        if !w.filterCovers(filter, recent[i].id) && |missing.payload| <= Codec.MAX_PAYLOAD_LEN {
          outbox := outbox + [S.Send(requester, missing.(flags := missing.flags.(isRsr := true)))];
        }
      }
      assert recent[..|recent|] == recent;
    }

    /** The hot path: one raw frame from the radio. */
    method ProcessInbound(src: Option<S.Peer>, bytes: seq<byte>, ch: S.Choice)
      requires Valid()
      modifies Parts()
      ensures Valid() && View() == S.InboundBytes(w, cfg, old(View()), src, bytes, ch)
    {
      if src.Some? && !ch.rateOk {
        return;
      }
      var decoded := Codec.Decode(bytes);
      if decoded.Err? {
        return;
      }
      Handle(src, decoded.value, ch);
    }

    /** A decoded frame: catch-up replies are unwrapped, sync requests answered, the rest dispatched. */
    method Handle(src: Option<S.Peer>, p: Packet, ch: S.Choice)
      requires Valid()
      modifies Parts()
      ensures Valid() && View() == S.Inbound(w, cfg, old(View()), src, p, ch)
    {
      if src.Some? && !ch.rateOk {
        return;
      }
      if p.flags.isRsr {
        DispatchPacket(p.(flags := p.flags.(isRsr := false), ttl := 0), None, ch);
      } else if p.msgType == RequestSync {
        HandleRequestSync(p, src, ch.now);
      } else {
        DispatchPacket(p, src, ch);
      }
    }

    // ----- local jobs -----

    method FloodLocalTx(wire: seq<byte>, now: u64) returns (id: E.TxId)
      requires Valid()
      modifies this, relaySeen
      ensures Valid() && View() == S.LocalTx(w, cfg, old(View()), wire, now)
      ensures id == w.txIdOf(wire)
    {
      id := w.txIdOf(wire);
      var validUntil := if head.latest.Some? then Some(ValidUntilOf(head.latest.value.height)) else None;
      var env := E.NimiqEnvelope(wire, cfg.network, validUntil, Some(id), None, true);
      var payload := E.EncodeEnvelope(env);
      if payload.Err? {
        return;
      }
      CarryLocalTx(wire, validUntil, payload.value, now);
    }

    method RecordOrigin(wire: seq<byte>)
      requires Valid()
      modifies `ledger, `originated
      ensures Valid()
      ensures View() == old(View()).(ledger := Record(old(ledger), w.txIdOf(wire), Outgoing),
                                     originated := old(originated) + [wire])
    {
      ledger := Record(ledger, w.txIdOf(wire), Outgoing);
      originated := originated + [wire];
    }

    method CarryLocalTx(wire: seq<byte>, validUntil: Option<u32>, payload: seq<byte>, now: u64)
      requires Valid()
      modifies this, relaySeen
      ensures Valid() && View() == S.CarryLocal(w, cfg, old(View()), wire, validUntil, payload, now)
    {
      var p := BuildPacket(NimiqTx, payload);
      var _ := MarkSeen(p);
      Remember(p, now);
      RecordOrigin(wire);
      if |p.payload| <= Codec.MAX_PAYLOAD_LEN {
        OfferPending(S.PendingTx(w.txIdOf(wire), p, validUntil, now, if |peers| > 0 then Some(now) else None));
      }
    }

    method OfferPending(entry: S.PendingTx)
      requires Valid() && S.Encodable(entry.packet)
      modifies `pending, `outbox
      ensures Valid()
      ensures View() == S.Flood(old(View()).(pending := S.AddPending(old(pending), entry)), entry.packet, None)
    {
      pending := S.AddPending(pending, entry);
      FloodExcluding(entry.packet, None);
    }

    method EmitHeadBeacon(poll: Poll)
      requires Valid()
      modifies this, relaySeen, head, emitter
      ensures Valid() && View() == S.BeaconPoll(w, cfg, old(View()), poll)
    {
      if !cfg.isGateway {
        return;
      }
      var beacon := emitter.Emit(poll);
      if beacon.None? {
        return;
      }
      var _ := head.Accept(beacon.value);
      OwnFlood(NimiqHeadBeacon, EncodeBeacon(beacon.value), poll.now);
    }

    /** Advertise what is held, newest first, with no hops to spend. */
    method EmitRequestSync(now: u64)
      requires Valid()
      modifies `recent, `nextSeq, `outbox
      ensures Valid() && View() == S.EmitRequestSync(w, cfg, old(View()), now)
    {
      Gc(now);
      var ids := AdvertiseIds(recent);
      var p := BuildPacket(RequestSync, w.buildFilter(ids));
      Flood(p.(ttl := 0), None);
    }

    method FloodLocalBalanceQuery(address: B.Address, now: u64)
      requires Valid()
      modifies this, relaySeen
      ensures Valid() && View() == S.LocalBalanceQuery(w, cfg, old(View()), address, now)
    {
      OwnFlood(NimiqBalanceQuery, address, now);
    }

    method AddPeer(p: S.Peer)
      requires Valid()
      modifies `peers
      ensures Valid() && View() == old(View()).(peers := S.AddPeer(old(peers), p))
    {
      if p !in peers {
        peers := peers + [p];
      }
    }

    method RemovePeer(p: S.Peer)
      requires Valid()
      modifies `peers
      ensures Valid() && View() == old(View()).(peers := S.RemovePeer(old(peers), p))
    {
      peers := Unlinked(peers, p);
    }

    method RecordIncoming(id: E.TxId)
      requires Valid()
      modifies `ledger
      ensures Valid() && View() == old(View()).(ledger := Record(old(ledger), id, Incoming))
    {
      ledger := Record(ledger, id, Incoming);
    }

    /** Any job: the object does what the specification step does. */
    method Do(j: S.Job)
      requires Valid()
      modifies Parts()
      ensures Valid() && View() == S.Step(w, cfg, old(View()), j)
    {
      match j {
        case Receive(src, p, ch) => Handle(src, p, ch);
        case SubmitTx(wire, at) => var _ := FloodLocalTx(wire, at);
        case WatchIncoming(id) => RecordIncoming(id);
        case QueryBalance(address, at) => FloodLocalBalanceQuery(address, at);
        case SyncNow(at) => EmitRequestSync(at);
        case PollBeacon(poll) => EmitHeadBeacon(poll);
        case Retry(at) => RetryTick(at);
        case PeerUp(p) => AddPeer(p);
        case PeerDown(p) => RemovePeer(p);
      }
    }

    /** `pending_retry::tick` */
    method RetryTick(now: u64)
      requires Valid()
      modifies `ledger, `pending, `outbox
      ensures Valid() && View() == S.RetryTick(old(View()), now)
    {
      DropDead(now);
      if |peers| != 0 {
        RefloodDue(now);
      }
    }

    /** Drop the entries whose window is closed and fail their payments. */
    method DropDead(now: u64)
      requires Valid()
      modifies `ledger, `pending
      ensures Valid()
      ensures var h := S.HeadHeight(old(View()));
              View() == old(View()).(ledger := S.FailDead(old(ledger), old(pending), h, now),
                                     pending := S.LivePending(old(pending), h, now))
    {
      var headHeight := if head.latest.Some? then Some(head.latest.value.height) else None;
      var live: seq<S.PendingTx> := [];
      for i := 0 to |pending|
        invariant Valid() && View() == old(View()).(ledger := ledger)
        invariant live == S.LivePending(pending[..i], headHeight, now)
        invariant ledger == S.FailDead(old(ledger), pending[..i], headHeight, now)
      {
        assert pending[..i + 1][..i] == pending[..i];
        if S.PendingDead(pending[i], headHeight, now) {
          ledger := Settle(ledger, pending[i].txId, PaymentStatus.Failed);
        } else {
          live := live + [pending[i]];
        }
      }
      assert pending[..|pending|] == pending;
      pending := live;
    }

    /** Re-offer every entry that is due, and stamp it. */
    method RefloodDue(now: u64)
      requires Valid()
      modifies `pending, `outbox
      ensures Valid() && View() == S.Retried(old(View()), |old(pending)|, now)
    {
      for k := 0 to |pending|
        invariant Valid() && |pending| == |old(pending)|
        invariant View() == S.Retried(old(View()), k, now)
      {
        RefloodEntry(k, now);
      }
    }

    method RefloodEntry(k: nat, now: u64)
      requires Valid() && k < |pending|
      modifies `pending, `outbox
      ensures Valid() && View() == S.RetryEntry(old(View()), k, now)
    {
      var e := pending[k];
      if e.lastFloodMs.None? || SatSub(now, e.lastFloodMs.value) >= S.RETRY_MS {
        pending := pending[k := e.(lastFloodMs := Some(now))];
        Flood(e.packet, None);
      }
    }
  }
}
