/** What a node must do, not only what it may: every frame it lets past its gates is stored and handed on, and
    what it originates reaches every peer. */
module Duties {
  import opened Bytes
  import opened Packet
  import opened Dedup
  import opened Settlement
  import opened Beacon
  import opened Engine
  import opened Handlers
  import E = Envelope
  import B = Balance

  // ----- handing on -----

  /** The hop budget of a packet: its TTL, cut at the default. */
  function Hops(p: Packet): nat { Min(p.ttl, DEFAULT_TTL) }

  /** The packet with one hop spent. */
  function Onward(p: Packet): Packet { p.(ttl := SatSub(Hops(p), 1)) }

  /** Who is handed a packet: every link but its source, if the gate is open, it fits a frame and has a hop to
      spend. */
  predicate GoesTo(s: State, p: Packet, src: Option<Peer>, ch: Choice, q: Peer) {
    ch.relayOk && Encodable(p) && Hops(p) > 1 && q in s.peers && Some(q) != src
  }

  /** What was sent since `s`. */
  function NewSends(s: State, t: State): seq<Send>
    requires |s.outbox| <= |t.outbox|
  {
    t.outbox[|s.outbox|..]
  }

  /** From `s` to `t`, `p` was handed on to exactly those it goes to. */
  ghost predicate Relays(s: State, t: State, p: Packet, src: Option<Peer>, ch: Choice) {
    s.outbox <= t.outbox && forall q :: Send(q, Onward(p)) in NewSends(s, t) <==> GoesTo(s, p, src, ch, q)
  }

  /** From `s` to `t` only packets of other types were sent. */
  ghost predicate SendsOthers(s: State, t: State, ty: MessageType) {
    t.peers == s.peers && s.outbox <= t.outbox && forall x :: x in NewSends(s, t) ==> x.packet.msgType != ty
  }

  lemma SameSends(s: State, t: State, ty: MessageType)
    requires t.peers == s.peers && t.outbox == s.outbox
    ensures SendsOthers(s, t, ty)
  {
    assert NewSends(s, t) == [];
  }

  function RelaySends(s: State, p: Packet, src: Option<Peer>, ch: Choice): seq<Send> {
    if ch.relayOk && Encodable(p) && Hops(p) > 1 then Sends(s.peers, Onward(p), src) else []
  }

  lemma RelayOnwardSends(s: State, p: Packet, src: Option<Peer>, at: nat, ch: Choice)
    ensures RelayOnward(s, p, src, at, ch).outbox == s.outbox + RelaySends(s, p, src, ch)
  {
    assert RelayedTtl(p.ttl).Some? <==> Hops(p) > 1;
  }

  lemma ThenRelay(s: State, s1: State, p: Packet, src: Option<Peer>, at: nat, ch: Choice)
    requires SendsOthers(s, s1, p.msgType)
    ensures Relays(s, RelayOnward(s1, p, src, at, ch), p, src, ch)
  {
    var t := RelayOnward(s1, p, src, at, ch);
    RelayOnwardSends(s1, p, src, at, ch);
    var out := RelaySends(s1, p, src, ch);
    assert NewSends(s, t) == NewSends(s, s1) + out;
    forall q ensures Send(q, Onward(p)) in NewSends(s, t) <==> GoesTo(s, p, src, ch, q) {
      SendsExactly(s1.peers, Onward(p), src, q);
      assert Send(q, Onward(p)).packet.msgType == p.msgType;
    }
  }

  // ----- storing -----

  function IdOf(w: World, p: Packet): nat { w.packetIdOf(KeyOf(p)) }

  /** A packet whose id was not cached is cached in `t` as it came. */
  ghost predicate Stores(w: World, s: State, t: State, p: Packet, now: u64) {
    !HasId(s.recent, IdOf(w, p)) ==> Stored(IdOf(w, p), p, now) in t.recent
  }

  lemma NoIdInTail(r: seq<Stored>, k: nat, id: nat)
    requires k <= |r| && !HasId(r, id)
    ensures !HasId(r[k..], id)
  {
  }

  lemma KeepStoresLast(r: seq<Stored>, id: nat, p: Packet, now: u64)
    requires !HasId(r, id)
    ensures var kept := Keep(r, id, p, now); kept != [] && kept[|kept| - 1] == Stored(id, p, now)
  {
    NoIdInTail(r, |r| - |Gc(r, now)|, id);
  }

  lemma LastSurvivesGc(r: seq<Stored>, now: u64)
    requires r != [] && r[|r| - 1].at == now
    ensures var live := Gc(r, now); live != [] && live[|live| - 1] == r[|r| - 1]
  {
    GcDropsOldPrefix(r, now);
  }

  lemma LastOfRoom(live: seq<Stored>)
    requires live != []
    ensures MadeRoom(live) != [] && MadeRoom(live)[|MadeRoom(live)| - 1] == live[|live| - 1]
  {
  }

  lemma InAppended(r: seq<Stored>, x: Stored)
    requires r != []
    ensures r[|r| - 1] in r + [x]
  {
    assert (r + [x])[|r| - 1] == r[|r| - 1];
  }

  /** Storing one more packet at the same moment does not push out the one stored last. */
  lemma KeepsTheLast(r: seq<Stored>, id: nat, p: Packet, now: u64)
    requires r != [] && r[|r| - 1].at == now
    ensures r[|r| - 1] in Keep(r, id, p, now)
  {
    LastSurvivesGc(r, now);
    KeepIs(r, id, p, now);
    LastOfRoom(Gc(r, now));
    InAppended(MadeRoom(Gc(r, now)), Stored(id, p, now));
  }

  lemma RememberStores(w: World, s: State, p: Packet, now: u64)
    ensures Stores(w, s, Remember(w, s, p, now), p, now)
    ensures !HasId(s.recent, IdOf(w, p)) ==>
              var r := Remember(w, s, p, now).recent; r != [] && r[|r| - 1] == Stored(IdOf(w, p), p, now)
  {
    if !HasId(s.recent, IdOf(w, p)) {
      KeepStoresLast(s.recent, IdOf(w, p), p, now);
    }
  }

  // ----- the gates of a transaction, written out -----

  predicate GatesOpen(w: World, cfg: Config, s: State, p: Packet) {
    var env := E.Decoded(p.payload);
    && (env.Ok? && env.value.validUntil.Some? && s.head.Some? ==> s.head.value.height < env.value.validUntil.value)
    && (cfg.verifyBeforeRelay ==> env.Ok? && w.wireVerifies(env.value.txWire))
    && (env.Ok? ==> (if env.value.txId.Some? then env.value.txId.value else w.txIdOf(env.value.txWire))
                    !in LastN(s.acked, 1024))
  }

  lemma GatesAre(w: World, cfg: Config, s: State, p: Packet)
    ensures GatesOpen(w, cfg, s, p) <==> !TxRefused(w, cfg, s, p)
  {
  }

  lemma GatesStayOpen(w: World, cfg: Config, s: State, p: Packet)
    ensures GatesOpen(w, cfg, MarkSeen(s, p), p) <==> GatesOpen(w, cfg, s, p)
  {
  }

  /** The header is new and, for a transaction, the gates are open. */
  predicate Carries(w: World, cfg: Config, s: State, p: Packet) {
    Unseen(s, p) && (p.msgType == NimiqTx ==> GatesOpen(w, cfg, s, p))
  }

  // ----- handler by handler -----

  ghost predicate Done(w: World, s: State, t: State, p: Packet, src: Option<Peer>, ch: Choice) {
    Relays(s, t, p, src, ch) && Stores(w, s, t, p, ch.now) && !Unseen(t, p)
  }

  lemma RelayKeeps(s: State, p: Packet, src: Option<Peer>, at: nat, ch: Choice)
    ensures RelayOnward(s, p, src, at, ch).recent == s.recent && RelayOnward(s, p, src, at, ch).relaySeen == s.relaySeen
  {
  }

  /** Mark, absorb into head, balances, ledger, pending or acks, store, relay. */
  lemma AbsorbDone(w: World, s: State, s1: State, p: Packet, src: Option<Peer>, ch: Choice)
    requires Unseen(s, p)
    requires s1.peers == s.peers && s1.outbox == s.outbox && s1.relaySeen == MarkSeen(s, p).relaySeen
    requires s1.recent == Remember(w, s, p, ch.now).recent
    ensures Done(w, s, RelayOnward(s1, p, src, |s.relaySeen|, ch), p, src, ch)
  {
    SameSends(s, s1, p.msgType);
    ThenRelay(s, s1, p, src, |s.relaySeen|, ch);
    RelayKeeps(s1, p, src, |s.relaySeen|, ch);
    RememberStores(w, s, p, ch.now);
  }

  lemma ReceiptDone(w: World, s: State, p: Packet, src: Option<Peer>, ch: Choice)
    requires Unseen(s, p)
    ensures Done(w, s, HandleReceipt(w, s, p, src, ch), p, src, ch)
  {
    AbsorbDone(w, s, ApplyReceipt(Remember(w, MarkSeen(s, p), p, ch.now), p.payload), p, src, ch);
  }

  lemma BeaconDone(w: World, cfg: Config, s: State, p: Packet, src: Option<Peer>, ch: Choice)
    requires Unseen(s, p)
    ensures Done(w, s, HandleHeadBeacon(w, cfg, s, p, src, ch), p, src, ch)
  {
    AbsorbDone(w, s, Remember(w, AbsorbBeacon(cfg, MarkSeen(s, p), p.payload), p, ch.now), p, src, ch);
  }

  lemma ResponseDone(w: World, cfg: Config, s: State, p: Packet, src: Option<Peer>, ch: Choice)
    requires Unseen(s, p)
    ensures Done(w, s, HandleBalanceResponse(w, cfg, s, p, src, ch), p, src, ch)
  {
    AbsorbDone(w, s, Remember(w, AbsorbBalance(cfg, MarkSeen(s, p), p.payload), p, ch.now), p, src, ch);
  }

  lemma OpaqueDone(w: World, s: State, p: Packet, src: Option<Peer>, ch: Choice)
    requires Unseen(s, p)
    ensures Done(w, s, HandleOpaque(w, s, p, src, ch), p, src, ch)
  {
    AbsorbDone(w, s, Remember(w, MarkSeen(s, p), p, ch.now), p, src, ch);
  }

  /** A flood of a packet of another type leaves the duties towards `p` as they are. */
  lemma FloodOthers(s: State, r: Packet, ty: MessageType)
    requires r.msgType != ty
    ensures SendsOthers(s, Flood(s, r, None), ty)
  {
    var t := Flood(s, r, None);
    assert NewSends(s, t) == if Encodable(r) then Sends(s.peers, r, None) else [];
  }

  lemma OthersInTurn(s: State, s1: State, t: State, ty: MessageType)
    requires SendsOthers(s, s1, ty) && SendsOthers(s1, t, ty)
    ensures SendsOthers(s, t, ty)
  {
    assert NewSends(s, t) == NewSends(s, s1) + NewSends(s1, t);
  }

  /** `p` was marked last. */
  ghost predicate JustSeen(s: State, p: Packet) { s.relaySeen != [] && s.relaySeen[|s.relaySeen| - 1] == KeyOf(p) }

  lemma JustSeenStays(s: State, p: Packet, q: Packet)
    requires JustSeen(s, p)
    ensures !Unseen(s, p) && !Unseen(MarkSeen(s, q), p)
  {
    RememberedUntilEvicted(s.relaySeen, RELAY_CACHE_CAP, |s.relaySeen| - 1);
    var log := MarkSeen(s, q).relaySeen;
    assert log[|s.relaySeen| - 1] == KeyOf(p);
    RememberedUntilEvicted(log, RELAY_CACHE_CAP, |s.relaySeen| - 1);
  }

  lemma SubmitDuties(w: World, cfg: Config, s: State, e: E.NimiqEnvelope, ch: Choice, p: Packet)
    requires JustSeen(s, p) && p.msgType == NimiqTx
    ensures var t := Submit(w, cfg, s, e, ch);
            SendsOthers(s, t, NimiqTx) && t.recent == s.recent && !Unseen(t, p)
  {
    var id := TxIdIn(w, e);
    JustSeenStays(s, p, p);
    if IsNew(s.gatewaySeen, GATEWAY_CACHE_CAP, id) && ch.submit.Some? {
      var reply := Built(cfg, s, NimiqTxReceipt, EncodeReceipt(Receipt(id, ch.submit.value)));
      var t := Submit(w, cfg, s, e, ch);
      JustSeenStays(s, p, reply);
      FloodOthers(s, reply, NimiqTx);
      assert t.outbox == Flood(s, reply, None).outbox && t.relaySeen == MarkSeen(s, reply).relaySeen;
    } else {
      SameSends(s, Submit(w, cfg, s, e, ch), NimiqTx);
    }
  }

  lemma MarkIsJustSeen(s: State, p: Packet)
    requires Unseen(s, p)
    ensures JustSeen(MarkSeen(s, p), p)
  {
  }

  lemma CarryTxDone(w: World, cfg: Config, s: State, p: Packet, src: Option<Peer>, ch: Choice)
    requires Unseen(s, p) && p.msgType == NimiqTx
    ensures Done(w, s, CarryTx(w, cfg, MarkSeen(s, p), p, src, |s.relaySeen|, ch), p, src, ch)
  {
    var s1 := Remember(w, MarkSeen(s, p), p, ch.now);
    MarkIsJustSeen(s, p);
    JustSeenStays(s1, p, p);
    RememberStores(w, s, p, ch.now);
    SameSends(s, s1, NimiqTx);
    var env := E.Decoded(p.payload);
    var s2 := s1;
    if cfg.isGateway && env.Ok? {
      SubmitDuties(w, cfg, s1, env.value, ch, p);
      s2 := Submit(w, cfg, s1, env.value, ch);
      OthersInTurn(s, s1, s2, NimiqTx);
    }
    ThenRelay(s, s2, p, src, |s.relaySeen|, ch);
    RelayKeeps(s2, p, src, |s.relaySeen|, ch);
  }

  lemma TxDone(w: World, cfg: Config, s: State, p: Packet, src: Option<Peer>, ch: Choice)
    requires Unseen(s, p) && p.msgType == NimiqTx && GatesOpen(w, cfg, s, p)
    ensures Done(w, s, HandleTx(w, cfg, s, p, src, ch), p, src, ch)
  {
    GatesAre(w, cfg, MarkSeen(s, p), p);
    GatesStayOpen(w, cfg, s, p);
    CarryTxDone(w, cfg, s, p, src, ch);
  }

  /** What a node's own flood does to links, outbox, cache and seen keys. */
  lemma OwnFloodIs(w: World, cfg: Config, s: State, ty: MessageType, payload: seq<byte>, now: u64)
    ensures var t, own := OwnFlood(w, cfg, s, ty, payload, now), Built(cfg, s, ty, payload);
            && t.outbox == Flood(s, own, None).outbox && t.peers == s.peers
            && t.relaySeen == MarkSeen(s, own).relaySeen && t.recent == Keep(s.recent, IdOf(w, own), own, now)
  {
  }

  lemma AnswerIs(w: World, cfg: Config, s: State, address: B.Address, a: BalanceAnswer, now: u64, reply: Packet)
    requires reply == Built(cfg, s, NimiqBalanceResponse,
                            B.EncodeResponse(B.BalanceResponse(address, a.balance, a.headHeight, a.networkId)))
    ensures var t := AnswerBalance(w, cfg, s, address, a, now);
            && t.outbox == Flood(s, reply, None).outbox && t.peers == s.peers
            && t.relaySeen == MarkSeen(s, reply).relaySeen && t.recent == Keep(s.recent, IdOf(w, reply), reply, now)
  {
    var resp := B.BalanceResponse(address, a.balance, a.headHeight, a.networkId);
    var s1 := s.(balances := B.ObserveBalance(cfg.network, s.balances, resp));
    OwnFloodIs(w, cfg, s1, NimiqBalanceResponse, B.EncodeResponse(resp), now);
  }

  lemma SameOutbox(s: State, t: State, u: State, ty: MessageType)
    requires SendsOthers(s, u, ty) && t.outbox == u.outbox && t.peers == u.peers
    ensures SendsOthers(s, t, ty)
  {
  }

  /** From `s` to `t` the packet `reply` was marked, cached and flooded. */
  lemma FloodedReply(w: World, s: State, t: State, reply: Packet, p: Packet, now: u64)
    requires JustSeen(s, p) && reply.msgType != p.msgType
    requires t.outbox == Flood(s, reply, None).outbox && t.peers == s.peers
    requires t.relaySeen == MarkSeen(s, reply).relaySeen && t.recent == Keep(s.recent, IdOf(w, reply), reply, now)
    ensures SendsOthers(s, t, p.msgType) && !Unseen(t, p)
    ensures s.recent != [] && s.recent[|s.recent| - 1].at == now ==> s.recent[|s.recent| - 1] in t.recent
  {
    JustSeenStays(s, p, reply);
    FloodOthers(s, reply, p.msgType);
    SameOutbox(s, t, Flood(s, reply, None), p.msgType);
    if s.recent != [] && s.recent[|s.recent| - 1].at == now {
      KeepsTheLast(s.recent, IdOf(w, reply), reply, now);
    }
  }

  lemma AnswerDuties(w: World, cfg: Config, s: State, address: B.Address, a: BalanceAnswer, now: u64, p: Packet)
    requires JustSeen(s, p) && p.msgType == NimiqBalanceQuery
    ensures var t := AnswerBalance(w, cfg, s, address, a, now);
            && SendsOthers(s, t, NimiqBalanceQuery) && !Unseen(t, p)
            && (s.recent != [] && s.recent[|s.recent| - 1].at == now ==> s.recent[|s.recent| - 1] in t.recent)
  {
    var resp := B.BalanceResponse(address, a.balance, a.headHeight, a.networkId);
    var reply := Built(cfg, s, NimiqBalanceResponse, B.EncodeResponse(resp));
    AnswerIs(w, cfg, s, address, a, now, reply);
    FloodedReply(w, s, AnswerBalance(w, cfg, s, address, a, now), reply, p, now);
  }

  /** The state a query leaves before it is handed on. */
  function AfterAnswer(w: World, cfg: Config, s: State, p: Packet, ch: Choice): State {
    var query := B.DecodeQuery(p.payload);
    if cfg.isGateway && query.Some? && ch.balance.Some?
    then AnswerBalance(w, cfg, s, query.value, ch.balance.value, ch.now) else s
  }

  lemma AfterAnswerDuties(w: World, cfg: Config, s: State, p: Packet, ch: Choice)
    requires JustSeen(s, p) && p.msgType == NimiqBalanceQuery
    ensures var t := AfterAnswer(w, cfg, s, p, ch);
            && SendsOthers(s, t, NimiqBalanceQuery) && !Unseen(t, p)
            && (s.recent != [] && s.recent[|s.recent| - 1].at == ch.now ==> s.recent[|s.recent| - 1] in t.recent)
  {
    var query := B.DecodeQuery(p.payload);
    JustSeenStays(s, p, p);
    if cfg.isGateway && query.Some? && ch.balance.Some? {
      AnswerDuties(w, cfg, s, query.value, ch.balance.value, ch.now, p);
    } else {
      SameSends(s, s, NimiqBalanceQuery);
    }
  }

  lemma QueryEnds(w: World, cfg: Config, s: State, p: Packet, src: Option<Peer>, ch: Choice)
    requires Unseen(s, p)
    ensures HandleBalanceQuery(w, cfg, s, p, src, ch) ==
            RelayOnward(AfterAnswer(w, cfg, Remember(w, MarkSeen(s, p), p, ch.now), p, ch), p, src, |s.relaySeen|, ch)
  {
  }

  lemma QueryDone(w: World, cfg: Config, s: State, p: Packet, src: Option<Peer>, ch: Choice)
    requires Unseen(s, p) && p.msgType == NimiqBalanceQuery
    ensures Done(w, s, HandleBalanceQuery(w, cfg, s, p, src, ch), p, src, ch)
  {
    var s1 := Remember(w, MarkSeen(s, p), p, ch.now);
    MarkIsJustSeen(s, p);
    RememberStores(w, s, p, ch.now);
    AfterAnswerDuties(w, cfg, s1, p, ch);
    var s2 := AfterAnswer(w, cfg, s1, p, ch);
    SameSends(s, s1, NimiqBalanceQuery);
    OthersInTurn(s, s1, s2, NimiqBalanceQuery);
    ThenRelay(s, s2, p, src, |s.relaySeen|, ch);
    RelayKeeps(s2, p, src, |s.relaySeen|, ch);
    QueryEnds(w, cfg, s, p, src, ch);
  }

  // ----- every frame -----

  lemma DispatchDone(w: World, cfg: Config, s: State, p: Packet, src: Option<Peer>, ch: Choice)
    requires Modelled(p.msgType) && Carries(w, cfg, s, p)
    ensures Done(w, s, Dispatch(w, cfg, s, p, src, ch), p, src, ch)
  {
    if p.msgType == NimiqTx {
      TxDone(w, cfg, s, p, src, ch);
    } else if p.msgType == NimiqTxReceipt {
      ReceiptDone(w, s, p, src, ch);
    } else if p.msgType == NimiqHeadBeacon {
      BeaconDone(w, cfg, s, p, src, ch);
    } else if p.msgType == NimiqBalanceQuery {
      QueryDone(w, cfg, s, p, src, ch);
    } else if p.msgType == NimiqBalanceResponse {
      ResponseDone(w, cfg, s, p, src, ch);
    } else {
      OpaqueDone(w, s, p, src, ch);
    }
  }

  /** The duty of a node towards every frame of a modelled type that is let in, has a new header and, for a
      transaction, an open window, a good signature where asked for and no ack: it is handed to every link but
      its source with one hop spent, while it has a hop to spend and the gate is open; it is cached as it came
      unless its id already is; and its header is seen from then on. */
  lemma FrameIsCarried(w: World, cfg: Config, s: State, src: Option<Peer>, p: Packet, ch: Choice)
    requires (src.Some? ==> ch.rateOk) && Modelled(p.msgType) && p.msgType != RequestSync && !p.flags.isRsr
    requires Carries(w, cfg, s, p)
    ensures Done(w, s, Inbound(w, cfg, s, src, p, ch), p, src, ch)
  {
    DispatchDone(w, cfg, s, p, src, ch);
    assert Inbound(w, cfg, s, src, p, ch) == Dispatch(w, cfg, s, p, src, ch);
  }

  /** A catch-up reply is cached in the same way, with its flag cleared and no hops, and not handed on. */
  lemma ReplyIsCarried(w: World, cfg: Config, s: State, src: Option<Peer>, p: Packet, ch: Choice, plain: Packet)
    requires (src.Some? ==> ch.rateOk) && Modelled(p.msgType) && p.flags.isRsr
    requires plain == p.(flags := p.flags.(isRsr := false), ttl := 0) && Carries(w, cfg, s, plain)
    ensures var t := Inbound(w, cfg, s, src, p, ch);
            && Stores(w, s, t, plain, ch.now) && !Unseen(t, p)
            && s.outbox <= t.outbox && forall q :: Send(q, Onward(plain)) !in NewSends(s, t)
  {
    assert plain == Unwrapped(p) && KeyOf(plain) == KeyOf(p);
    DispatchDone(w, cfg, s, plain, None, ch);
    assert Inbound(w, cfg, s, src, p, ch) == Dispatch(w, cfg, s, plain, None, ch);
  }

  lemma KnownIsDropped(w: World, cfg: Config, s: State, p: Packet, src: Option<Peer>, ch: Choice)
    requires !Unseen(s, p)
    ensures Dispatch(w, cfg, s, p, src, ch) == s
  {
    if p.msgType == NimiqTx {
      assert HandleTx(w, cfg, s, p, src, ch) == s;
    } else if p.msgType == NimiqTxReceipt {
      assert HandleReceipt(w, s, p, src, ch) == s;
    } else if p.msgType == NimiqHeadBeacon {
      assert HandleHeadBeacon(w, cfg, s, p, src, ch) == s;
    } else if p.msgType == NimiqBalanceQuery {
      assert HandleBalanceQuery(w, cfg, s, p, src, ch) == s;
    } else if p.msgType == NimiqBalanceResponse {
      assert HandleBalanceResponse(w, cfg, s, p, src, ch) == s;
    }
  }

  lemma RefusedOnlyMarks(w: World, cfg: Config, s: State, p: Packet, src: Option<Peer>, ch: Choice)
    requires Unseen(s, p) && !GatesOpen(w, cfg, s, p)
    ensures HandleTx(w, cfg, s, p, src, ch) == MarkSeen(s, p)
  {
    GatesAre(w, cfg, MarkSeen(s, p), p);
    GatesStayOpen(w, cfg, s, p);
  }

  lemma DispatchDrops(w: World, cfg: Config, s: State, p: Packet, src: Option<Peer>, ch: Choice)
    requires !Carries(w, cfg, s, p)
    ensures var t := Dispatch(w, cfg, s, p, src, ch); t == s.(relaySeen := t.relaySeen)
  {
    if Unseen(s, p) {
      RefusedOnlyMarks(w, cfg, s, p, src, ch);
    } else {
      KnownIsDropped(w, cfg, s, p, src, ch);
    }
  }

  /** Every other frame changes nothing but, at most, what is seen: a rate-limited one, a known header, a
      transaction with a gate closed. */
  lemma FrameIsDropped(w: World, cfg: Config, s: State, src: Option<Peer>, p: Packet, ch: Choice)
    requires p.msgType != RequestSync
    requires (src.Some? && !ch.rateOk) || !Carries(w, cfg, s, p)
    ensures var t := Inbound(w, cfg, s, src, p, ch); t == s.(relaySeen := t.relaySeen)
  {
    if src.None? || ch.rateOk {
      assert KeyOf(Unwrapped(p)) == KeyOf(p);
      assert GatesOpen(w, cfg, s, Unwrapped(p)) <==> GatesOpen(w, cfg, s, p);
      if p.flags.isRsr {
        DispatchDrops(w, cfg, s, Unwrapped(p), None, ch);
      } else {
        DispatchDrops(w, cfg, s, p, src, ch);
      }
    }
  }
}
