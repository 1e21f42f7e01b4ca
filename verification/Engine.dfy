/** One mesh node as a state machine: what `engine.rs`, `beacon.rs` and `balance.rs` do to a worker's
    state on every job. Each function below is the specification of one handler; `Worker.dfy` has the
    handlers themselves.

    The state carries three things the program does not store, all of them append-only records of
    what it did: the key logs of the dedup caches, the relays made and the gateway submissions made. */
module Engine {
  import opened Bytes
  import opened Packet
  import opened Dedup
  import opened Settlement
  import opened Beacon
  import E = Envelope
  import B = Balance
  import Codec

  const RELAY_CACHE_CAP: nat := 2048
  const GATEWAY_CACHE_CAP: nat := 1024
  const RECENT_CACHE_CAP: nat := 1000
  const RECENT_RETENTION_MS: nat := 900_000
  const MAX_PENDING: nat := 16
  const RETRY_MS: nat := 15_000
  const RETRY_WALL_MS: nat := 7_200_000

  /** A link-level peer name. */
  type Peer = nat

  datatype RelayKey = RelayKey(ty: byte, sender: Id8, timestamp: u64)

  /** The blind relay identity: header fields only. */
  function KeyOf(p: Packet): RelayKey {
    RelayKey(TypeByte(p.msgType), p.senderId, p.timestampMs)
  }

  /** What the model leaves uninterpreted: the two hashes, the GCS filter codec and the signature
      check of `verify_basic_wire`. */
  datatype World = World(
    txIdOf: seq<byte> -> E.TxId,
    packetIdOf: RelayKey -> nat,
    filterParses: seq<byte> -> bool,
    filterCovers: (seq<byte>, nat) -> bool,
    buildFilter: seq<nat> -> seq<byte>,
    wireVerifies: seq<byte> -> bool)

  datatype Config = Config(senderId: Id8, network: byte, isGateway: bool, verifyBeforeRelay: bool)

  datatype BalanceAnswer = BalanceAnswer(balance: u64, headHeight: u32, networkId: byte)

  /** What the environment decides while one frame is handled: the clock, the rate limiter, the
      battery/degree relay gate, and the gateway backend's answers. */
  datatype Choice = Choice(
    now: u64,
    rateOk: bool,
    relayOk: bool,
    submit: Option<ReceiptStatus>,
    balance: Option<BalanceAnswer>)

  datatype Stored = Stored(id: nat, packet: Packet, at: u64)
  datatype PendingTx = PendingTx(txId: E.TxId, packet: Packet, validUntil: Option<u32>,
                                 createdMs: u64, lastFloodMs: Option<u64>)
  datatype Send = Send(peer: Peer, packet: Packet)

  /** A relay of `packet`, whose key was accepted at position `at` of the relay log. */
  datatype Relay = Relay(at: nat, packet: Packet)

  /** A submission made when its txId was accepted at position `at` of the gateway log. */
  datatype Submission = Submission(at: nat, txId: E.TxId, wire: seq<byte>, networkId: byte,
                                   validUntil: Option<u32>, outcome: Option<ReceiptStatus>)

  datatype State = State(
    peers: seq<Peer>,
    relaySeen: seq<RelayKey>,
    gatewaySeen: seq<E.TxId>,
    acked: seq<E.TxId>,
    recent: seq<Stored>,
    head: Option<HeadBeacon>,
    balances: B.Entries,
    ledger: Ledger,
    pending: seq<PendingTx>,
    nextSeq: u64,
    uplink: Uplink,
    outbox: seq<Send>,
    originated: seq<seq<byte>>,
    relays: seq<Relay>,
    submissions: seq<Submission>)

  function Init(seed: u64): State {
    State([], [], [], [], [], None, map[], map[], [], seed, IDLE, [], [], [], [])
  }

  // ----- store-and-forward cache -----

  function Gc(r: seq<Stored>, now: u64): (r': seq<Stored>)
    ensures |r'| <= |r| && r' == r[|r| - |r'|..]
  {
    if r != [] && SatSub(now, r[0].at) > RECENT_RETENTION_MS then Gc(r[1..], now) else r
  }

  predicate HasId(r: seq<Stored>, id: nat) {
    exists i :: 0 <= i < |r| && r[i].id == id
  }

  function Keep(r: seq<Stored>, id: nat, p: Packet, now: u64): (r': seq<Stored>)
    ensures |r| <= RECENT_CACHE_CAP ==> |r'| <= RECENT_CACHE_CAP
    ensures forall x :: x in r' ==> x in r || x.packet == p
  {
    var live := Gc(r, now);
    if HasId(live, id) then live
    else (if |live| >= RECENT_CACHE_CAP then live[1..] else live) + [Stored(id, p, now)]
  }

  function Remember(w: World, s: State, p: Packet, now: u64): (s': State)
    ensures s' == s.(recent := s'.recent)
  {
    s.(recent := Keep(s.recent, w.packetIdOf(KeyOf(p)), p, now))
  }

  // ----- sending -----

  predicate Encodable(p: Packet) { |p.payload| <= Codec.MAX_PAYLOAD_LEN }

  /** One send per connected peer, except back out the source link. */
  function Sends(peers: seq<Peer>, p: Packet, exclude: Option<Peer>): (out: seq<Send>)
    ensures |out| <= |peers|
    ensures forall x :: x in out ==> x.packet == p && x.peer in peers && Some(x.peer) != exclude
  {
    if peers == [] then []
    else
      var init := Sends(peers[..|peers| - 1], p, exclude);
      if Some(peers[|peers| - 1]) == exclude then init else init + [Send(peers[|peers| - 1], p)]
  }

  function Flood(s: State, p: Packet, exclude: Option<Peer>): (s': State)
    ensures s' == s.(outbox := s'.outbox)
  {
    if Encodable(p) then s.(outbox := s.outbox + Sends(s.peers, p, exclude)) else s
  }

  function Built(cfg: Config, s: State, ty: MessageType, payload: seq<byte>): Packet {
    Packet(VERSION, ty, DEFAULT_TTL, s.nextSeq, Flags(false, false, false), cfg.senderId,
           Some(BROADCAST_RECIPIENT), payload, None)
  }

  function TakeSeq(s: State): (s': State)
    ensures s' == s.(nextSeq := s'.nextSeq)
  {
    s.(nextSeq := if s.nextSeq == U64_MAX then 0 else s.nextSeq + 1)
  }

  function MarkSeen(s: State, p: Packet): (s': State)
    ensures s' == s.(relaySeen := s'.relaySeen)
  {
    s.(relaySeen := Offer(s.relaySeen, RELAY_CACHE_CAP, KeyOf(p)))
  }

  predicate Unseen(s: State, p: Packet) {
    IsNew(s.relaySeen, RELAY_CACHE_CAP, KeyOf(p))
  }

  /** Cap, then decrement; `None` at the hop floor. */
  function RelayedTtl(ttl: byte): (r: Option<byte>)
    ensures r.Some? ==> r.value < ttl && r.value < DEFAULT_TTL
  {
    var capped := if ttl < DEFAULT_TTL then ttl else DEFAULT_TTL;
    if capped <= 1 then None else Some(capped - 1)
  }

  function RelayOnward(s: State, p: Packet, src: Option<Peer>, at: nat, ch: Choice): (s': State)
    ensures s' == s.(outbox := s'.outbox, relays := s'.relays)
  {
    if !ch.relayOk || RelayedTtl(p.ttl).None? || !Encodable(p) then s
    else
      var q := p.(ttl := RelayedTtl(p.ttl).value);
      s.(outbox := s.outbox + Sends(s.peers, q, src), relays := s.relays + [Relay(at, q)])
  }

  /** Build, mark as seen, store and flood a packet of one's own. */
  function OwnFlood(w: World, cfg: Config, s: State, ty: MessageType, payload: seq<byte>, now: u64): (s': State)
    ensures s' == s.(nextSeq := s'.nextSeq, relaySeen := s'.relaySeen, recent := s'.recent, outbox := s'.outbox)
  {
    var p := Built(cfg, s, ty, payload);
    Flood(Remember(w, MarkSeen(TakeSeq(s), p), p, now), p, None)
  }

  // ----- message handlers -----

  function HeadHeight(s: State): Option<u32> {
    if s.head.Some? then Some(s.head.value.height) else None
  }

  function TxIdIn(w: World, e: E.NimiqEnvelope): E.TxId {
    if e.txId.Some? then e.txId.value else w.txIdOf(e.txWire)
  }

  /** The gates of `handle_tx` after dedup: expired, not verified, already acked. */
  predicate TxRefused(w: World, cfg: Config, s: State, p: Packet) {
    var env := E.Decoded(p.payload);
    || (env.Ok? && IsExpired(HeadHeight(s), env.value.validUntil))
    || (cfg.verifyBeforeRelay && !(env.Ok? && w.wireVerifies(env.value.txWire)))
    || (env.Ok? && !IsNew(s.acked, GATEWAY_CACHE_CAP, TxIdIn(w, env.value)))
  }

  function FloodReceipt(cfg: Config, s: State, r: Receipt): (s': State)
    ensures s' == s.(nextSeq := s'.nextSeq, relaySeen := s'.relaySeen, outbox := s'.outbox)
  {
    var reply := Built(cfg, s, NimiqTxReceipt, EncodeReceipt(r));
    Flood(MarkSeen(TakeSeq(s), reply), reply, None)
  }

  function Submit(w: World, cfg: Config, s: State, e: E.NimiqEnvelope, ch: Choice): (s': State)
    ensures s' == s.(gatewaySeen := s'.gatewaySeen, submissions := s'.submissions, nextSeq := s'.nextSeq,
                     relaySeen := s'.relaySeen, outbox := s'.outbox)
    ensures s.submissions <= s'.submissions
  {
    var id := TxIdIn(w, e);
    if !IsNew(s.gatewaySeen, GATEWAY_CACHE_CAP, id) then s
    else
      var s1 := s.(gatewaySeen := s.gatewaySeen + [id],
                   submissions := s.submissions
                     + [Submission(|s.gatewaySeen|, id, e.txWire, e.networkId, e.validUntil, ch.submit)]);
      if ch.submit.None? then s1 else FloodReceipt(cfg, s1, Receipt(id, ch.submit.value))
  }

  /** `handle_tx` once past its gates: store, submit when a gateway, relay. */
  function CarryTx(w: World, cfg: Config, s: State, p: Packet, src: Option<Peer>, at: nat, ch: Choice): (s': State)
    ensures s' == s.(gatewaySeen := s'.gatewaySeen, submissions := s'.submissions, nextSeq := s'.nextSeq,
                     relaySeen := s'.relaySeen, outbox := s'.outbox, recent := s'.recent, relays := s'.relays)
    ensures s.submissions <= s'.submissions && (!cfg.isGateway ==> s'.submissions == s.submissions)
  {
    var env := E.Decoded(p.payload);
    var s1 := Remember(w, s, p, ch.now);
    var s2 := if cfg.isGateway && env.Ok? then Submit(w, cfg, s1, env.value, ch) else s1;
    RelayOnward(s2, p, src, at, ch)
  }

  function HandleTx(w: World, cfg: Config, s: State, p: Packet, src: Option<Peer>, ch: Choice): (s': State)
    ensures s' == s.(gatewaySeen := s'.gatewaySeen, submissions := s'.submissions, nextSeq := s'.nextSeq,
                     relaySeen := s'.relaySeen, outbox := s'.outbox, recent := s'.recent, relays := s'.relays)
    ensures s.submissions <= s'.submissions && (!cfg.isGateway ==> s'.submissions == s.submissions)
  {
    if !Unseen(s, p) then s
    else
      var s1 := MarkSeen(s, p);
      if TxRefused(w, cfg, s1, p) then s1 else CarryTx(w, cfg, s1, p, src, |s.relaySeen|, ch)
  }

  function ClearPending(ps: seq<PendingTx>, id: E.TxId): (r: seq<PendingTx>)
    ensures forall x :: x in r ==> x in ps
  {
    if ps == [] then []
    else
      var init := ClearPending(ps[..|ps| - 1], id);
      if ps[|ps| - 1].txId == id then init else init + [ps[|ps| - 1]]
  }

  function ApplyReceipt(s: State, payload: seq<byte>): (s': State)
    ensures s' == s.(ledger := s'.ledger, pending := s'.pending, acked := s'.acked)
    ensures s.acked <= s'.acked
  {
    match DecodeReceipt(payload)
    case None => s
    case Some(r) => s.(ledger := Settle(s.ledger, r.txId, PaymentOf(r.status)),
                       pending := ClearPending(s.pending, r.txId),
                       acked := Offer(s.acked, GATEWAY_CACHE_CAP, r.txId))
  }

  function HandleReceipt(w: World, s: State, p: Packet, src: Option<Peer>, ch: Choice): (s': State)
    ensures s' == s.(ledger := s'.ledger, pending := s'.pending, acked := s'.acked, relaySeen := s'.relaySeen,
                     recent := s'.recent, outbox := s'.outbox, relays := s'.relays)
  {
    if !Unseen(s, p) then s
    else
      var s1 := ApplyReceipt(Remember(w, MarkSeen(s, p), p, ch.now), p.payload);
      RelayOnward(s1, p, src, |s.relaySeen|, ch)
  }

  function AbsorbBeacon(cfg: Config, s: State, payload: seq<byte>): (s': State)
    ensures s' == s.(head := s'.head) && NotBehind(s.head, s'.head)
  {
    match DecodeBeacon(payload)
    case None => s
    case Some(b) => s.(head := AcceptHead(cfg.network, s.head, b))
  }

  function HandleHeadBeacon(w: World, cfg: Config, s: State, p: Packet, src: Option<Peer>, ch: Choice): (s': State)
    ensures s' == s.(head := s'.head, relaySeen := s'.relaySeen, recent := s'.recent, outbox := s'.outbox,
                     relays := s'.relays)
  {
    if !Unseen(s, p) then s
    else
      var s1 := Remember(w, AbsorbBeacon(cfg, MarkSeen(s, p), p.payload), p, ch.now);
      RelayOnward(s1, p, src, |s.relaySeen|, ch)
  }

  function AnswerBalance(w: World, cfg: Config, s: State, address: B.Address, a: BalanceAnswer, now: u64): (s': State)
    ensures s' == s.(balances := s'.balances, nextSeq := s'.nextSeq, relaySeen := s'.relaySeen,
                     recent := s'.recent, outbox := s'.outbox)
  {
    var resp := B.BalanceResponse(address, a.balance, a.headHeight, a.networkId);
    var s1 := s.(balances := B.ObserveBalance(cfg.network, s.balances, resp));
    OwnFlood(w, cfg, s1, NimiqBalanceResponse, B.EncodeResponse(resp), now)
  }

  function HandleBalanceQuery(w: World, cfg: Config, s: State, p: Packet, src: Option<Peer>, ch: Choice): (s': State)
    ensures s' == s.(balances := s'.balances, nextSeq := s'.nextSeq, relaySeen := s'.relaySeen,
                     recent := s'.recent, outbox := s'.outbox, relays := s'.relays)
  {
    if !Unseen(s, p) then s
    else
      var s1 := Remember(w, MarkSeen(s, p), p, ch.now);
      var query := B.DecodeQuery(p.payload);
      var s2 := if cfg.isGateway && query.Some? && ch.balance.Some?
                then AnswerBalance(w, cfg, s1, query.value, ch.balance.value, ch.now) else s1;
      RelayOnward(s2, p, src, |s.relaySeen|, ch)
  }

  function AbsorbBalance(cfg: Config, s: State, payload: seq<byte>): (s': State)
    ensures s' == s.(balances := s'.balances)
  {
    match B.DecodeResponse(payload)
    case None => s
    case Some(r) => s.(balances := B.ObserveBalance(cfg.network, s.balances, r))
  }

  function HandleBalanceResponse(w: World, cfg: Config, s: State, p: Packet, src: Option<Peer>, ch: Choice): (s': State)
    ensures s' == s.(balances := s'.balances, relaySeen := s'.relaySeen, recent := s'.recent,
                     outbox := s'.outbox, relays := s'.relays)
  {
    if !Unseen(s, p) then s
    else
      var s1 := Remember(w, AbsorbBalance(cfg, MarkSeen(s, p), p.payload), p, ch.now);
      RelayOnward(s1, p, src, |s.relaySeen|, ch)
  }

  /** The blind branch: any other type is stored and relayed unread. */
  function HandleOpaque(w: World, s: State, p: Packet, src: Option<Peer>, ch: Choice): (s': State)
    ensures s' == s.(relaySeen := s'.relaySeen, recent := s'.recent, outbox := s'.outbox, relays := s'.relays)
  {
    if !Unseen(s, p) then s
    else RelayOnward(Remember(w, MarkSeen(s, p), p, ch.now), p, src, |s.relaySeen|, ch)
  }

  /** The message types whose handling is modelled. To a node that takes no part in swaps, swap, chat and
      history-answer packets are carried blind: what their handlers read goes to logs outside this state,
      and the expiry of a swap intent is one more reason not to relay. Fragments and history queries start
      reassembly and fragmentation, which are not modelled. */
  predicate Modelled(t: MessageType) { t != Fragment && t != NimiqTxHistoryQuery }

  function Dispatch(w: World, cfg: Config, s: State, p: Packet, src: Option<Peer>, ch: Choice): (s': State)
    ensures s'.originated == s.originated && s.submissions <= s'.submissions
    ensures !cfg.isGateway ==> s'.submissions == s.submissions
  {
    if p.msgType == NimiqTx then HandleTx(w, cfg, s, p, src, ch)
    else if p.msgType == NimiqTxReceipt then HandleReceipt(w, s, p, src, ch)
    else if p.msgType == NimiqHeadBeacon then HandleHeadBeacon(w, cfg, s, p, src, ch)
    else if p.msgType == NimiqBalanceQuery then HandleBalanceQuery(w, cfg, s, p, src, ch)
    else if p.msgType == NimiqBalanceResponse then HandleBalanceResponse(w, cfg, s, p, src, ch)
    else if Modelled(p.msgType) then HandleOpaque(w, s, p, src, ch)
    else s
  }

  /** The isRSR replies for what a requester's filter does not cover, in cache order. */
  function CatchUp(w: World, r: seq<Stored>, filter: seq<byte>, to: Peer): (out: seq<Send>)
    ensures |out| <= |r|
    ensures forall x :: x in out ==>
              x.peer == to && x.packet.flags.isRsr && Encodable(x.packet)
              && exists y :: y in r && x.packet == y.packet.(flags := y.packet.flags.(isRsr := true))
  {
    if r == [] then []
    else
      var n := |r| - 1;
      var init := CatchUp(w, r[..n], filter, to);
      if w.filterCovers(filter, r[n].id) || !Encodable(r[n].packet) then init
      else
        assert r[n] in r;
        init + [Send(to, r[n].packet.(flags := r[n].packet.flags.(isRsr := true)))]
  }

  function HandleRequestSync(w: World, s: State, p: Packet, src: Option<Peer>, now: u64): (s': State)
    ensures s' == s.(recent := s'.recent, outbox := s'.outbox)
  {
    if src.None? || !w.filterParses(p.payload) then s
    else
      var live := Gc(s.recent, now);
      s.(recent := live, outbox := s.outbox + CatchUp(w, live, p.payload, src.value))
  }

  /** A catch-up reply is delivered locally: unflagged, with no hops left and no source link. */
  function Unwrapped(p: Packet): Packet {
    p.(flags := p.flags.(isRsr := false), ttl := 0)
  }

  function Inbound(w: World, cfg: Config, s: State, src: Option<Peer>, p: Packet, ch: Choice): (s': State)
    ensures s'.originated == s.originated && s.submissions <= s'.submissions
    ensures !cfg.isGateway ==> s'.submissions == s.submissions
  {
    if src.Some? && !ch.rateOk then s
    else if p.flags.isRsr then Dispatch(w, cfg, s, Unwrapped(p), None, ch)
    else if p.msgType == RequestSync then HandleRequestSync(w, s, p, src, ch.now)
    else Dispatch(w, cfg, s, p, src, ch)
  }

  /** A raw frame: what does not decode is dropped. */
  function InboundBytes(w: World, cfg: Config, s: State, src: Option<Peer>, b: seq<byte>, ch: Choice): State {
    match Codec.Decoded(b)
    case Ok(p) => Inbound(w, cfg, s, src, p, ch)
    case Err(_) => s
  }

  /** A receiver of an encoded frame handles exactly the packet that was sent. */
  lemma WireIsTransparent(w: World, cfg: Config, s: State, src: Option<Peer>, p: Packet, ch: Choice)
    requires p.version == VERSION && Encodable(p)
    ensures Codec.Encoded(p).Ok?
            && InboundBytes(w, cfg, s, src, Codec.Encoded(p).value, ch) == Inbound(w, cfg, s, src, p, ch)
  {
    Codec.FrameDecodes(p);
  }

  // ----- local jobs -----

  function LocalEnvelope(w: World, cfg: Config, s: State, wire: seq<byte>): E.NimiqEnvelope {
    E.NimiqEnvelope(wire, cfg.network,
                    if s.head.Some? then Some(ValidUntilOf(s.head.value.height)) else None,
                    Some(w.txIdOf(wire)), None, true)
  }

  function AddPending(ps: seq<PendingTx>, e: PendingTx): seq<PendingTx> {
    var rest := ClearPending(ps, e.txId);
    (if |rest| >= MAX_PENDING then rest[1..] else rest) + [e]
  }

  /** Mark, store, record as pending and flood a transaction of one's own. */
  function CarryLocal(w: World, cfg: Config, s: State, wire: seq<byte>, validUntil: Option<u32>,
                      payload: seq<byte>, now: u64): (s': State)
    ensures s' == s.(nextSeq := s'.nextSeq, relaySeen := s'.relaySeen, recent := s'.recent,
                     ledger := s'.ledger, originated := s'.originated, pending := s'.pending,
                     outbox := s'.outbox)
    ensures s'.originated == s.originated + [wire]
  {
    var id := w.txIdOf(wire);
    var p := Built(cfg, s, NimiqTx, payload);
    var s1 := Remember(w, MarkSeen(TakeSeq(s), p), p, now);
    var s2 := s1.(ledger := Record(s1.ledger, id, Outgoing), originated := s1.originated + [wire]);
    if !Encodable(p) then s2
    else
      var entry := PendingTx(id, p, validUntil, now, if s.peers != [] then Some(now) else None);
      Flood(s2.(pending := AddPending(s2.pending, entry)), p, None)
  }

  /** `flood_local_tx`: an oversized wire is refused before anything is recorded. */
  function LocalTx(w: World, cfg: Config, s: State, wire: seq<byte>, now: u64): (s': State)
    ensures s' == s.(nextSeq := s'.nextSeq, relaySeen := s'.relaySeen, recent := s'.recent,
                     ledger := s'.ledger, originated := s'.originated, pending := s'.pending,
                     outbox := s'.outbox)
    ensures s.originated <= s'.originated
  {
    var env := LocalEnvelope(w, cfg, s, wire);
    match E.Encoded(env)
    case Err(_) => s
    case Ok(payload) => CarryLocal(w, cfg, s, wire, env.validUntil, payload, now)
  }

  function LocalBalanceQuery(w: World, cfg: Config, s: State, address: B.Address, now: u64): (s': State)
    ensures s' == s.(nextSeq := s'.nextSeq, relaySeen := s'.relaySeen, recent := s'.recent, outbox := s'.outbox)
  {
    OwnFlood(w, cfg, s, NimiqBalanceQuery, address, now)
  }

  const GCS_MAX_ITEMS: nat := 360

  /** The ids to advertise: the most recent first, at most `n` of them. */
  function NewestIds(r: seq<Stored>, n: nat): seq<nat> {
    if r == [] || n == 0 then [] else [r[|r| - 1].id] + NewestIds(r[..|r| - 1], n - 1)
  }

  /** `emit_request_sync`: advertise what is held, hop budget zero. */
  function EmitRequestSync(w: World, cfg: Config, s: State, now: u64): (s': State)
    ensures s' == s.(nextSeq := s'.nextSeq, recent := s'.recent, outbox := s'.outbox)
  {
    var live := Gc(s.recent, now);
    var p := Built(cfg, s, RequestSync, w.buildFilter(NewestIds(live, GCS_MAX_ITEMS))).(ttl := 0);
    Flood(TakeSeq(s).(recent := live), p, None)
  }

  function BeaconPoll(w: World, cfg: Config, s: State, poll: Poll): (s': State)
    ensures s' == s.(uplink := s'.uplink, head := s'.head, nextSeq := s'.nextSeq, relaySeen := s'.relaySeen,
                     recent := s'.recent, outbox := s'.outbox)
  {
    if !cfg.isGateway then s
    else
      var s1 := s.(uplink := AfterPoll(s.uplink, poll));
      match Emits(s.uplink, poll)
      case None => s1
      case Some(b) =>
        OwnFlood(w, cfg, s1.(head := AcceptHead(cfg.network, s1.head, b)), NimiqHeadBeacon, EncodeBeacon(b), poll.now)
  }

  predicate PendingDead(e: PendingTx, head: Option<u32>, now: u64) {
    if e.validUntil.Some? then IsExpired(head, e.validUntil)
    else SatSub(now, e.createdMs) > RETRY_WALL_MS
  }

  function FailDead(l: Ledger, ps: seq<PendingTx>, head: Option<u32>, now: u64): Ledger {
    if ps == [] then l
    else
      var l' := FailDead(l, ps[..|ps| - 1], head, now);
      if PendingDead(ps[|ps| - 1], head, now) then Settle(l', ps[|ps| - 1].txId, PaymentStatus.Failed) else l'
  }

  function LivePending(ps: seq<PendingTx>, head: Option<u32>, now: u64): (r: seq<PendingTx>)
    ensures forall x :: x in r ==> x in ps
  {
    if ps == [] then []
    else
      var init := LivePending(ps[..|ps| - 1], head, now);
      if PendingDead(ps[|ps| - 1], head, now) then init else init + [ps[|ps| - 1]]
  }

  predicate RetryDue(e: PendingTx, now: u64) {
    e.lastFloodMs.None? || SatSub(now, e.lastFloodMs.value) >= RETRY_MS
  }

  /** Re-flood entry `i` if it is due, and stamp it. */
  function RetryEntry(s: State, i: nat, now: u64): (s': State)
    requires i < |s.pending|
    ensures s' == s.(pending := s'.pending, outbox := s'.outbox)
    ensures |s'.pending| == |s.pending| && s'.pending[i + 1..] == s.pending[i + 1..]
  {
    var e := s.pending[i];
    if !RetryDue(e, now) then s
    else Flood(s.(pending := s.pending[i := e.(lastFloodMs := Some(now))]), e.packet, None)
  }

  /** Re-flood every due entry among the first `k`. */
  function Retried(s: State, k: nat, now: u64): (s': State)
    requires k <= |s.pending|
    ensures |s'.pending| == |s.pending| && s'.pending[k..] == s.pending[k..]
    decreases k
  {
    if k == 0 then s
    else
      var s1 := Retried(s, k - 1, now);
      assert s1.pending[k..] == s1.pending[k - 1..][1..];
      RetryEntry(s1, k - 1, now)
  }

  /** `pending_retry::tick`: fail what can no longer land, re-offer the rest while linked. */
  function RetryTick(s: State, now: u64): State {
    var s1 := s.(ledger := FailDead(s.ledger, s.pending, HeadHeight(s), now),
                 pending := LivePending(s.pending, HeadHeight(s), now));
    if s.peers == [] then s1 else Retried(s1, |s1.pending|, now)
  }

  function AddPeer(peers: seq<Peer>, p: Peer): seq<Peer> {
    if p in peers then peers else peers + [p]
  }

  function RemovePeer(peers: seq<Peer>, p: Peer): seq<Peer> {
    if peers == [] then []
    else
      var init := RemovePeer(peers[..|peers| - 1], p);
      if peers[|peers| - 1] == p then init else init + [peers[|peers| - 1]]
  }

  // ----- jobs and runs -----

  datatype Job =
    | Receive(src: Option<Peer>, packet: Packet, ch: Choice)
    | SubmitTx(wire: seq<byte>, at: u64)
    | WatchIncoming(id: E.TxId)
    | QueryBalance(address: B.Address, at: u64)
    | SyncNow(at: u64)
    | PollBeacon(poll: Poll)
    | Retry(at: u64)
    | PeerUp(peer: Peer)
    | PeerDown(peer: Peer)

  function Step(w: World, cfg: Config, s: State, j: Job): State {
    match j
    case Receive(src, p, ch) => Inbound(w, cfg, s, src, p, ch)
    case SubmitTx(wire, at) => LocalTx(w, cfg, s, wire, at)
    case WatchIncoming(id) => s.(ledger := Record(s.ledger, id, Incoming))
    case QueryBalance(a, at) => LocalBalanceQuery(w, cfg, s, a, at)
    case SyncNow(at) => EmitRequestSync(w, cfg, s, at)
    case PollBeacon(poll) => BeaconPoll(w, cfg, s, poll)
    case Retry(at) => RetryTick(s, at)
    case PeerUp(p) => s.(peers := AddPeer(s.peers, p))
    case PeerDown(p) => s.(peers := RemovePeer(s.peers, p))
  }

  function Run(w: World, cfg: Config, s: State, js: seq<Job>): State
    decreases |js|
  {
    if js == [] then s else Step(w, cfg, Run(w, cfg, s, js[..|js| - 1]), js[|js| - 1])
  }
}
