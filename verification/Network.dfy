/** A network of honest nodes: frames in flight may be delivered in any order, lost or duplicated,
    links come and go, and every node may do any of its local jobs at any time.

    Main result: a payment that any node's ledger shows as settled was submitted to the chain by a
    gateway and accepted, with bytes some node of the network originated. */
module Network {
  import opened Bytes
  import opened Packet
  import opened Dedup
  import opened Settlement
  import opened Beacon
  import opened Engine
  import E = Envelope
  import B = Balance
  import Codec

  datatype Frame = Frame(src: Peer, dst: Peer, packet: Packet)
  datatype Origin = Origin(node: Peer, wire: seq<byte>)
  datatype Verdict = Verdict(gateway: Peer, txId: E.TxId, wire: seq<byte>, outcome: Option<ReceiptStatus>)

  /** The nodes, the bag of frames in flight, and two histories: every payment originated and every
      submission a gateway made, in order. */
  datatype Net = Net(
    configs: map<Peer, Config>,
    nodes: map<Peer, State>,
    flight: seq<Frame>,
    origins: seq<Origin>,
    verdicts: seq<Verdict>)

  ghost predicate Initial(net: Net) {
    && net.configs.Keys == net.nodes.Keys
    && (forall n :: n in net.nodes ==> exists seed: u64 :: net.nodes[n] == Init(seed))
    && net.flight == [] && net.origins == [] && net.verdicts == []
  }

  datatype Event =
    | Deliver(index: nat, attributed: bool, ch: Choice)
    | Lose(index: nat)
    | Duplicate(index: nat)
    | Local(node: Peer, job: Job)

  function Frames(n: Peer, out: seq<Send>): (fs: seq<Frame>)
    ensures |fs| == |out| && forall i :: 0 <= i < |out| ==> fs[i] == Frame(n, out[i].peer, out[i].packet)
  {
    seq(|out|, i requires 0 <= i < |out| => Frame(n, out[i].peer, out[i].packet))
  }

  function NewOrigins(n: Peer, s: State, s': State): seq<Origin> {
    if |s'.originated| <= |s.originated| then []
    else seq(|s'.originated| - |s.originated|,
             i requires 0 <= i < |s'.originated| - |s.originated| =>
               Origin(n, s'.originated[|s.originated| + i]))
  }

  function NewVerdicts(n: Peer, s: State, s': State): seq<Verdict> {
    if |s'.submissions| <= |s.submissions| then []
    else seq(|s'.submissions| - |s.submissions|,
             i requires 0 <= i < |s'.submissions| - |s.submissions| =>
               var sub := s'.submissions[|s.submissions| + i];
               Verdict(n, sub.txId, sub.wire, sub.outcome))
  }

  /** Node `n` has moved to `s'`; what it sent joins the frames `rest` still in flight. */
  function Moved(net: Net, n: Peer, s': State, rest: seq<Frame>): Net
    requires n in net.nodes
  {
    Net(net.configs, net.nodes[n := s'.(outbox := [])], rest + Frames(n, s'.outbox),
        net.origins + NewOrigins(n, net.nodes[n], s'), net.verdicts + NewVerdicts(n, net.nodes[n], s'))
  }

  function NodeActs(w: World, net: Net, n: Peer, j: Job, rest: seq<Frame>): Net
    requires n in net.nodes && n in net.configs
  {
    Moved(net, n, Step(w, net.configs[n], net.nodes[n], j), rest)
  }

  function Without(fs: seq<Frame>, i: nat): seq<Frame>
    requires i < |fs|
  {
    fs[..i] + fs[i + 1..]
  }

  function NetStep(w: World, net: Net, ev: Event): Net {
    match ev
    case Deliver(i, attributed, ch) =>
      if i >= |net.flight| then net
      else
        var f := net.flight[i];
        var rest := Without(net.flight, i);
        if f.dst !in net.nodes || f.dst !in net.configs then net.(flight := rest)
        else NodeActs(w, net, f.dst, Receive(if attributed then Some(f.src) else None, f.packet, ch), rest)
    case Lose(i) =>
      if i >= |net.flight| then net else net.(flight := Without(net.flight, i))
    case Duplicate(i) =>
      if i >= |net.flight| then net else net.(flight := net.flight + [net.flight[i]])
    case Local(n, j) =>
      if n !in net.nodes || n !in net.configs || j.Receive? then net
      else NodeActs(w, net, n, j, net.flight)
  }

  function RunNet(w: World, net: Net, evs: seq<Event>): Net
    decreases |evs|
  {
    if evs == [] then net else NetStep(w, RunNet(w, net, evs[..|evs| - 1]), evs[|evs| - 1])
  }

  // ----- what honest traffic may claim -----

  /** The wires originated and the txIds accepted so far. */
  datatype Truth = Truth(wires: set<seq<byte>>, accepted: set<E.TxId>)

  ghost predicate Within(t: Truth, u: Truth) { t.wires <= u.wires && t.accepted <= u.accepted }

  /** The payload of a transaction packet names an originated wire by its own id. */
  ghost predicate HonestEnvelope(w: World, t: Truth, e: E.NimiqEnvelope) {
    e.txWire in t.wires && e.txId == Some(w.txIdOf(e.txWire))
  }

  ghost predicate HonestTx(w: World, t: Truth, payload: seq<byte>) {
    E.Decoded(payload).Ok? ==> HonestEnvelope(w, t, E.Decoded(payload).value)
  }

  /** The payload of a receipt claims acceptance only of what was accepted. */
  ghost predicate HonestReceipt(t: Truth, payload: seq<byte>) {
    var r := DecodeReceipt(payload);
    r.Some? && r.value.status == Accepted ==> r.value.txId in t.accepted
  }

  ghost predicate HonestPacket(w: World, t: Truth, p: Packet) {
    && p.version == VERSION
    && (p.msgType == NimiqTx ==> HonestTx(w, t, p.payload))
    && (p.msgType == NimiqTxReceipt ==> HonestReceipt(t, p.payload))
  }

  ghost predicate HonestSubmission(w: World, t: Truth, sub: Submission) {
    && sub.wire in t.wires && sub.txId == w.txIdOf(sub.wire)
    && (sub.outcome == Some(Accepted) ==> sub.txId in t.accepted)
  }

  ghost predicate HonestStore(w: World, t: Truth, s: State) {
    && (forall x :: x in s.recent ==> HonestPacket(w, t, x.packet))
    && (forall x :: x in s.pending ==> HonestPacket(w, t, x.packet))
    && (forall x :: x in s.outbox ==> HonestPacket(w, t, x.packet) && Encodable(x.packet))
  }

  ghost predicate HonestLedger(t: Truth, l: Ledger) {
    forall id :: id in l && l[id].status == Settled ==> id in t.accepted
  }

  ghost predicate HonestRecord(w: World, t: Truth, s: State) {
    && HonestLedger(t, s.ledger)
    && (forall x :: x in s.submissions ==> HonestSubmission(w, t, x))
    && (forall x :: x in s.originated ==> x in t.wires)
  }

  ghost predicate HonestState(w: World, t: Truth, s: State) {
    HonestStore(w, t, s) && HonestRecord(w, t, s)
  }

  // ----- every handler keeps honesty, relative to a truth that covers the outcome -----

  lemma HonestGrows(w: World, t: Truth, u: Truth, s: State)
    requires HonestState(w, t, s) && Within(t, u)
    ensures HonestState(w, u, s)
  {
  }

  lemma SameHonest(w: World, t: Truth, s: State, s': State)
    requires HonestState(w, t, s)
    requires s'.recent == s.recent && s'.pending == s.pending && s'.outbox == s.outbox
    requires s'.ledger == s.ledger && s'.submissions == s.submissions && s'.originated == s.originated
    ensures HonestState(w, t, s')
  {
  }

  lemma RememberHonest(w: World, t: Truth, s: State, p: Packet, now: u64)
    requires HonestState(w, t, s) && HonestPacket(w, t, p)
    ensures HonestState(w, t, Remember(w, s, p, now))
  {
  }

  lemma FloodHonest(w: World, t: Truth, s: State, p: Packet, exclude: Option<Peer>)
    requires HonestState(w, t, s) && HonestPacket(w, t, p)
    ensures HonestState(w, t, Flood(s, p, exclude))
  {
  }

  lemma RelayOnwardHonest(w: World, t: Truth, s: State, p: Packet, src: Option<Peer>, at: nat, ch: Choice)
    requires HonestState(w, t, s) && HonestPacket(w, t, p)
    ensures HonestState(w, t, RelayOnward(s, p, src, at, ch))
  {
    if RelayedTtl(p.ttl).Some? {
      assert HonestPacket(w, t, p.(ttl := RelayedTtl(p.ttl).value));
    }
  }

  lemma MarkSeenHonest(w: World, t: Truth, s: State, p: Packet)
    requires HonestState(w, t, s)
    ensures HonestState(w, t, MarkSeen(s, p))
  {
    SameHonest(w, t, s, MarkSeen(s, p));
  }

  lemma FloodReceiptHonest(w: World, cfg: Config, t: Truth, s: State, r: Receipt)
    requires HonestState(w, t, s) && (r.status == Accepted ==> r.txId in t.accepted)
    ensures HonestState(w, t, FloodReceipt(cfg, s, r))
  {
    var reply := Built(cfg, s, NimiqTxReceipt, EncodeReceipt(r));
    ReceiptRoundTrip(r);
    var s1 := MarkSeen(TakeSeq(s), reply);
    SameHonest(w, t, s, s1);
    FloodHonest(w, t, s1, reply, None);
  }

  /** Everything `s'` recorded is covered by `t`. */
  ghost predicate Covers(t: Truth, s': State) {
    && (forall x :: x in s'.originated ==> x in t.wires)
    && (forall x :: x in s'.submissions && x.outcome == Some(Accepted) ==> x.txId in t.accepted)
  }

  lemma SubmitHonest(w: World, cfg: Config, t: Truth, s: State, e: E.NimiqEnvelope, ch: Choice)
    requires HonestState(w, t, s) && HonestEnvelope(w, t, e)
    requires Covers(t, Submit(w, cfg, s, e, ch))
    ensures HonestState(w, t, Submit(w, cfg, s, e, ch))
  {
    var id := TxIdIn(w, e);
    if IsNew(s.gatewaySeen, GATEWAY_CACHE_CAP, id) {
      var sub := Submission(|s.gatewaySeen|, id, e.txWire, e.networkId, e.validUntil, ch.submit);
      var s1 := s.(gatewaySeen := s.gatewaySeen + [id], submissions := s.submissions + [sub]);
      assert sub in s1.submissions && sub in Submit(w, cfg, s, e, ch).submissions;
      assert HonestSubmission(w, t, sub);
      assert HonestState(w, t, s1);
      if ch.submit.Some? {
        FloodReceiptHonest(w, cfg, t, s1, Receipt(id, ch.submit.value));
      }
    }
  }

  lemma HandleTxHonest(w: World, cfg: Config, t: Truth, s: State, p: Packet, src: Option<Peer>, ch: Choice)
    requires HonestState(w, t, s) && HonestPacket(w, t, p) && p.msgType == NimiqTx
    requires Covers(t, HandleTx(w, cfg, s, p, src, ch))
    ensures HonestState(w, t, HandleTx(w, cfg, s, p, src, ch))
  {
    MarkSeenHonest(w, t, s, p);
    var s1 := MarkSeen(s, p);
    if Unseen(s, p) && !TxRefused(w, cfg, s1, p) {
      RememberHonest(w, t, s1, p, ch.now);
      var s2 := Remember(w, s1, p, ch.now);
      var env := E.Decoded(p.payload);
      var s3 := if cfg.isGateway && env.Ok? then Submit(w, cfg, s2, env.value, ch) else s2;
      assert HandleTx(w, cfg, s, p, src, ch) == RelayOnward(s3, p, src, |s.relaySeen|, ch);
      if cfg.isGateway && env.Ok? {
        SubmitHonest(w, cfg, t, s2, env.value, ch);
      }
      RelayOnwardHonest(w, t, s3, p, src, |s.relaySeen|, ch);
    }
  }

  lemma ApplyReceiptHonest(w: World, t: Truth, s: State, payload: seq<byte>)
    requires HonestState(w, t, s) && HonestReceipt(t, payload)
    ensures HonestState(w, t, ApplyReceipt(s, payload))
  {
    var r := DecodeReceipt(payload);
    if r.Some? {
      SettleHonest(t, s.ledger, r.value);
      var s' := ApplyReceipt(s, payload);
      assert s'.recent == s.recent && s'.outbox == s.outbox;
      assert forall x :: x in s'.pending ==> x in s.pending;
    }
  }

  lemma SettleHonest(t: Truth, l: Ledger, r: Receipt)
    requires HonestLedger(t, l) && (r.status == Accepted ==> r.txId in t.accepted)
    ensures HonestLedger(t, Settle(l, r.txId, PaymentOf(r.status)))
  {
  }

  lemma HandleReceiptHonest(w: World, t: Truth, s: State, p: Packet, src: Option<Peer>, ch: Choice)
    requires HonestState(w, t, s) && HonestPacket(w, t, p) && p.msgType == NimiqTxReceipt
    ensures HonestState(w, t, HandleReceipt(w, s, p, src, ch))
  {
    MarkSeenHonest(w, t, s, p);
    var s1 := MarkSeen(s, p);
    RememberHonest(w, t, s1, p, ch.now);
    var s2 := Remember(w, s1, p, ch.now);
    ApplyReceiptHonest(w, t, s2, p.payload);
    RelayOnwardHonest(w, t, ApplyReceipt(s2, p.payload), p, src, |s.relaySeen|, ch);
  }

  /** Accept, absorb something into the head or the balances, store, relay. */
  lemma AbsorbHonest(w: World, t: Truth, s: State, s1: State, p: Packet, src: Option<Peer>, ch: Choice)
    requires HonestState(w, t, s) && HonestPacket(w, t, p)
    requires s1 == MarkSeen(s, p).(head := s1.head, balances := s1.balances)
    ensures HonestState(w, t, RelayOnward(Remember(w, s1, p, ch.now), p, src, |s.relaySeen|, ch))
  {
    SameHonest(w, t, s, s1);
    RememberHonest(w, t, s1, p, ch.now);
    RelayOnwardHonest(w, t, Remember(w, s1, p, ch.now), p, src, |s.relaySeen|, ch);
  }

  /** A packet of a type that makes no payment claim, built, stored and flooded by the node itself. */
  lemma OwnFloodHonest(w: World, cfg: Config, t: Truth, s: State, ty: MessageType, payload: seq<byte>, now: u64)
    requires HonestState(w, t, s) && ty != NimiqTx && ty != NimiqTxReceipt
    ensures HonestState(w, t, OwnFlood(w, cfg, s, ty, payload, now))
  {
    var p := Built(cfg, s, ty, payload);
    var s1 := MarkSeen(TakeSeq(s), p);
    SameHonest(w, t, s, s1);
    RememberHonest(w, t, s1, p, now);
    FloodHonest(w, t, Remember(w, s1, p, now), p, None);
  }

  lemma HandleBalanceQueryHonest(w: World, cfg: Config, t: Truth, s: State, p: Packet, src: Option<Peer>, ch: Choice)
    requires HonestState(w, t, s) && HonestPacket(w, t, p)
    ensures HonestState(w, t, HandleBalanceQuery(w, cfg, s, p, src, ch))
  {
    MarkSeenHonest(w, t, s, p);
    RememberHonest(w, t, MarkSeen(s, p), p, ch.now);
    var s1 := Remember(w, MarkSeen(s, p), p, ch.now);
    var query := B.DecodeQuery(p.payload);
    if cfg.isGateway && query.Some? && ch.balance.Some? {
      var a := ch.balance.value;
      var resp := B.BalanceResponse(query.value, a.balance, a.headHeight, a.networkId);
      var s2 := s1.(balances := B.ObserveBalance(cfg.network, s1.balances, resp));
      SameHonest(w, t, s1, s2);
      OwnFloodHonest(w, cfg, t, s2, NimiqBalanceResponse, B.EncodeResponse(resp), ch.now);
      RelayOnwardHonest(w, t, AnswerBalance(w, cfg, s1, query.value, a, ch.now), p, src, |s.relaySeen|, ch);
    } else {
      RelayOnwardHonest(w, t, s1, p, src, |s.relaySeen|, ch);
    }
  }

  lemma DispatchTxHonest(w: World, cfg: Config, t: Truth, s: State, p: Packet, src: Option<Peer>, ch: Choice)
    requires HonestState(w, t, s) && HonestPacket(w, t, p) && p.msgType == NimiqTx
    requires Covers(t, Dispatch(w, cfg, s, p, src, ch))
    ensures HonestState(w, t, Dispatch(w, cfg, s, p, src, ch))
  {
    HandleTxHonest(w, cfg, t, s, p, src, ch);
  }

  lemma DispatchClaimHonest(w: World, cfg: Config, t: Truth, s: State, p: Packet, src: Option<Peer>, ch: Choice)
    requires HonestState(w, t, s) && HonestPacket(w, t, p)
    requires p.msgType == NimiqTxReceipt || p.msgType == NimiqBalanceQuery
    ensures HonestState(w, t, Dispatch(w, cfg, s, p, src, ch))
  {
    if p.msgType == NimiqTxReceipt {
      HandleReceiptHonest(w, t, s, p, src, ch);
    } else {
      HandleBalanceQueryHonest(w, cfg, t, s, p, src, ch);
    }
  }

  lemma HandleHeadBeaconHonest(w: World, cfg: Config, t: Truth, s: State, p: Packet, src: Option<Peer>, ch: Choice)
    requires HonestState(w, t, s) && HonestPacket(w, t, p)
    ensures HonestState(w, t, HandleHeadBeacon(w, cfg, s, p, src, ch))
  {
    AbsorbHonest(w, t, s, AbsorbBeacon(cfg, MarkSeen(s, p), p.payload), p, src, ch);
  }

  lemma HandleBalanceResponseHonest(w: World, cfg: Config, t: Truth, s: State, p: Packet, src: Option<Peer>, ch: Choice)
    requires HonestState(w, t, s) && HonestPacket(w, t, p)
    ensures HonestState(w, t, HandleBalanceResponse(w, cfg, s, p, src, ch))
  {
    AbsorbHonest(w, t, s, AbsorbBalance(cfg, MarkSeen(s, p), p.payload), p, src, ch);
  }

  lemma HandleOpaqueHonest(w: World, t: Truth, s: State, p: Packet, src: Option<Peer>, ch: Choice)
    requires HonestState(w, t, s) && HonestPacket(w, t, p)
    ensures HonestState(w, t, HandleOpaque(w, s, p, src, ch))
  {
    AbsorbHonest(w, t, s, MarkSeen(s, p), p, src, ch);
  }

  lemma DispatchHonest(w: World, cfg: Config, t: Truth, s: State, p: Packet, src: Option<Peer>, ch: Choice)
    requires HonestState(w, t, s) && HonestPacket(w, t, p)
    requires Covers(t, Dispatch(w, cfg, s, p, src, ch))
    ensures HonestState(w, t, Dispatch(w, cfg, s, p, src, ch))
  {
    if p.msgType == NimiqTx {
      DispatchTxHonest(w, cfg, t, s, p, src, ch);
    } else if p.msgType == NimiqTxReceipt || p.msgType == NimiqBalanceQuery {
      DispatchClaimHonest(w, cfg, t, s, p, src, ch);
    } else if p.msgType == NimiqHeadBeacon {
      HandleHeadBeaconHonest(w, cfg, t, s, p, src, ch);
    } else if p.msgType == NimiqBalanceResponse {
      HandleBalanceResponseHonest(w, cfg, t, s, p, src, ch);
    } else {
      HandleOpaqueHonest(w, t, s, p, src, ch);
    }
  }

  lemma RequestSyncHonest(w: World, t: Truth, s: State, p: Packet, src: Option<Peer>, now: u64)
    requires HonestState(w, t, s)
    ensures HonestState(w, t, HandleRequestSync(w, s, p, src, now))
  {
    if src.Some? {
      var live := Gc(s.recent, now);
      forall x | x in CatchUp(w, live, p.payload, src.value)
        ensures HonestPacket(w, t, x.packet) && Encodable(x.packet)
      {
        var y :| y in live && x.packet == y.packet.(flags := y.packet.flags.(isRsr := true));
        assert y in s.recent;
      }
    }
  }

  // ----- local jobs -----

  lemma LocalEnvelopeHonest(w: World, cfg: Config, t: Truth, s: State, wire: seq<byte>)
    requires wire in t.wires && E.Encoded(LocalEnvelope(w, cfg, s, wire)).Ok?
    ensures HonestTx(w, t, E.Encoded(LocalEnvelope(w, cfg, s, wire)).value)
  {
    E.RoundTrip(LocalEnvelope(w, cfg, s, wire));
  }

  lemma AddPendingHonest(w: World, t: Truth, s: State, e: PendingTx)
    requires HonestState(w, t, s) && HonestPacket(w, t, e.packet)
    ensures HonestState(w, t, s.(pending := AddPending(s.pending, e)))
  {
  }

  lemma RecordOriginHonest(w: World, t: Truth, s: State, id: E.TxId, wire: seq<byte>)
    requires HonestState(w, t, s) && wire in t.wires
    ensures HonestState(w, t, s.(ledger := Record(s.ledger, id, Outgoing), originated := s.originated + [wire]))
  {
  }

  lemma LocalTxHonest(w: World, cfg: Config, t: Truth, s: State, wire: seq<byte>, now: u64)
    requires HonestState(w, t, s) && Covers(t, LocalTx(w, cfg, s, wire, now))
    ensures HonestState(w, t, LocalTx(w, cfg, s, wire, now))
  {
    var env, id := LocalEnvelope(w, cfg, s, wire), w.txIdOf(wire);
    var payload := E.Encoded(env);
    if payload.Ok? {
      var p := Built(cfg, s, NimiqTx, payload.value);
      var s1 := MarkSeen(TakeSeq(s), p);
      var s2 := Remember(w, s1, p, now);
      var s3 := s2.(ledger := Record(s2.ledger, id, Outgoing), originated := s2.originated + [wire]);
      var entry := PendingTx(id, p, env.validUntil, now, if s.peers != [] then Some(now) else None);
      var s4 := s3.(pending := AddPending(s3.pending, entry));
      assert LocalTx(w, cfg, s, wire, now) == if Encodable(p) then Flood(s4, p, None) else s3;
      assert wire in s3.originated && s4.originated == s3.originated;
      LocalEnvelopeHonest(w, cfg, t, s, wire);
      SameHonest(w, t, s, s1);
      RememberHonest(w, t, s1, p, now);
      RecordOriginHonest(w, t, s2, id, wire);
      AddPendingHonest(w, t, s3, entry);
      FloodHonest(w, t, s4, p, None);
    }
  }

  lemma {:induction false} FailDeadHonest(t: Truth, l: Ledger, ps: seq<PendingTx>, head: Option<u32>, now: u64)
    requires HonestLedger(t, l)
    ensures HonestLedger(t, FailDead(l, ps, head, now))
    decreases |ps|
  {
    if ps != [] {
      FailDeadHonest(t, l, ps[..|ps| - 1], head, now);
    }
  }

  lemma {:induction false} RetriedHonest(w: World, t: Truth, s: State, k: nat, now: u64)
    requires k <= |s.pending| && HonestState(w, t, s)
    ensures HonestState(w, t, Retried(s, k, now))
    decreases k
  {
    if k > 0 {
      RetriedHonest(w, t, s, k - 1, now);
      var s1 := Retried(s, k - 1, now);
      var e := s1.pending[k - 1];
      assert e in s1.pending;
      var s2 := s1.(pending := s1.pending[k - 1 := e.(lastFloodMs := Some(now))]);
      assert HonestState(w, t, s2);
      FloodHonest(w, t, s2, e.packet, None);
    }
  }

  lemma RetryTickHonest(w: World, t: Truth, s: State, now: u64)
    requires HonestState(w, t, s)
    ensures HonestState(w, t, RetryTick(s, now))
  {
    FailDeadHonest(t, s.ledger, s.pending, HeadHeight(s), now);
    var s1 := s.(ledger := FailDead(s.ledger, s.pending, HeadHeight(s), now),
                 pending := LivePending(s.pending, HeadHeight(s), now));
    assert HonestState(w, t, s1);
    RetriedHonest(w, t, s1, |s1.pending|, now);
  }

  lemma BeaconPollHonest(w: World, cfg: Config, t: Truth, s: State, poll: Poll)
    requires HonestState(w, t, s)
    ensures HonestState(w, t, BeaconPoll(w, cfg, s, poll))
  {
    var b := Emits(s.uplink, poll);
    if cfg.isGateway && b.Some? {
      var s2 := s.(uplink := AfterPoll(s.uplink, poll), head := AcceptHead(cfg.network, s.head, b.value));
      SameHonest(w, t, s, s2);
      OwnFloodHonest(w, cfg, t, s2, NimiqHeadBeacon, EncodeBeacon(b.value), poll.now);
    }
  }

  lemma RequestOutHonest(w: World, cfg: Config, t: Truth, s: State, now: u64)
    requires HonestState(w, t, s)
    ensures HonestState(w, t, EmitRequestSync(w, cfg, s, now))
  {
    var live := Gc(s.recent, now);
    var p := Built(cfg, s, RequestSync, w.buildFilter(NewestIds(live, GCS_MAX_ITEMS))).(ttl := 0);
    var s1 := TakeSeq(s).(recent := live);
    assert HonestState(w, t, s1);
    FloodHonest(w, t, s1, p, None);
  }

  lemma StepHonest(w: World, cfg: Config, t: Truth, s: State, j: Job)
    requires HonestState(w, t, s) && (j.Receive? ==> HonestPacket(w, t, j.packet))
    requires Covers(t, Step(w, cfg, s, j))
    ensures HonestState(w, t, Step(w, cfg, s, j))
  {
    match j
    case Receive(src, p, ch) =>
      if src.Some? && !ch.rateOk {
      } else if p.flags.isRsr {
        DispatchHonest(w, cfg, t, s, Unwrapped(p), None, ch);
      } else if p.msgType == RequestSync {
        RequestSyncHonest(w, t, s, p, src, ch.now);
      } else {
        DispatchHonest(w, cfg, t, s, p, src, ch);
      }
    case SubmitTx(wire, now) => LocalTxHonest(w, cfg, t, s, wire, now);
    case WatchIncoming(id) => assert HonestLedger(t, Record(s.ledger, id, Incoming));
    case QueryBalance(a, now) => OwnFloodHonest(w, cfg, t, s, NimiqBalanceQuery, a, now);
    case SyncNow(now) => RequestOutHonest(w, cfg, t, s, now);
    case PollBeacon(poll) => BeaconPollHonest(w, cfg, t, s, poll);
    case Retry(now) => RetryTickHonest(w, t, s, now);
    case PeerUp(_) => SameHonest(w, t, s, Step(w, cfg, s, j));
    case PeerDown(_) => SameHonest(w, t, s, Step(w, cfg, s, j));
  }

  // ----- the network invariant -----

  ghost function Wires(os: seq<Origin>): set<seq<byte>> { set o | o in os :: o.wire }

  ghost function AcceptedIds(vs: seq<Verdict>): set<E.TxId> {
    set v | v in vs && v.outcome == Some(Accepted) :: v.txId
  }

  ghost function TruthOf(net: Net): Truth { Truth(Wires(net.origins), AcceptedIds(net.verdicts)) }

  ghost predicate HonestVerdict(w: World, net: Net, v: Verdict) {
    && v.gateway in net.configs && net.configs[v.gateway].isGateway
    && v.txId == w.txIdOf(v.wire) && v.wire in Wires(net.origins)
  }

  ghost predicate NetInv(w: World, net: Net) {
    && (forall n :: n in net.nodes ==> n in net.configs && HonestState(w, TruthOf(net), net.nodes[n]))
    && (forall f :: f in net.flight ==> HonestPacket(w, TruthOf(net), f.packet) && Encodable(f.packet))
    && (forall v :: v in net.verdicts ==> HonestVerdict(w, net, v))
  }

  /** The records of a node only grow, and only a gateway submits. */
  ghost predicate RecordsGrow(cfg: Config, s: State, s': State) {
    && s.originated <= s'.originated && s.submissions <= s'.submissions
    && (!cfg.isGateway ==> s'.submissions == s.submissions)
  }

  lemma {:induction false} RetriedRecords(s: State, k: nat, now: u64)
    requires k <= |s.pending|
    ensures Retried(s, k, now).originated == s.originated && Retried(s, k, now).submissions == s.submissions
    decreases k
  {
    if k > 0 {
      RetriedRecords(s, k - 1, now);
    }
  }

  lemma StepRecords(w: World, cfg: Config, s: State, j: Job)
    ensures RecordsGrow(cfg, s, Step(w, cfg, s, j))
  {
    if j.Retry? {
      var s1 := s.(ledger := FailDead(s.ledger, s.pending, HeadHeight(s), j.at),
                   pending := LivePending(s.pending, HeadHeight(s), j.at));
      RetriedRecords(s1, |s1.pending|, j.at);
    }
  }

  lemma OriginsCover(n: Peer, os: seq<Origin>, s: State, s': State)
    requires s.originated <= s'.originated && forall x :: x in s.originated ==> x in Wires(os)
    ensures forall x :: x in s'.originated ==> x in Wires(os + NewOrigins(n, s, s'))
    ensures Wires(os) <= Wires(os + NewOrigins(n, s, s'))
  {
    var new' := NewOrigins(n, s, s');
    assert forall o :: o in os ==> o in os + new';
    forall x | x in s'.originated ensures x in Wires(os + new') {
      var i :| 0 <= i < |s'.originated| && s'.originated[i] == x;
      if i >= |s.originated| {
        var o := Origin(n, x);
        assert new'[i - |s.originated|] == o;
        assert (os + new')[|os| + i - |s.originated|] == o;
        assert o in os + new' && o.wire == x;
      } else {
        assert s.originated[i] == x;
        assert x in Wires(os);
        var o :| o in os && o.wire == x;
        assert o in os + new';
      }
    }
  }

  ghost predicate AcceptedCovered(subs: seq<Submission>, ids: set<E.TxId>) {
    forall x :: x in subs && x.outcome == Some(Accepted) ==> x.txId in ids
  }

  lemma VerdictsCover(n: Peer, vs: seq<Verdict>, s: State, s': State)
    requires s.submissions <= s'.submissions && AcceptedCovered(s.submissions, AcceptedIds(vs))
    ensures AcceptedCovered(s'.submissions, AcceptedIds(vs + NewVerdicts(n, s, s')))
    ensures AcceptedIds(vs) <= AcceptedIds(vs + NewVerdicts(n, s, s'))
  {
    var new' := NewVerdicts(n, s, s');
    assert forall v :: v in vs ==> v in vs + new';
    forall x | x in s'.submissions && x.outcome == Some(Accepted) ensures x.txId in AcceptedIds(vs + new') {
      var i :| 0 <= i < |s'.submissions| && s'.submissions[i] == x;
      if i >= |s.submissions| {
        assert new'[i - |s.submissions|] == Verdict(n, x.txId, x.wire, x.outcome);
        assert Verdict(n, x.txId, x.wire, x.outcome) in vs + new';
      } else {
        assert s.submissions[i] == x;
      }
    }
  }

  /** Each new verdict is a submission the node recorded. */
  lemma NewVerdictsRecorded(n: Peer, s: State, s': State, v: Verdict)
    requires v in NewVerdicts(n, s, s')
    ensures |s'.submissions| > |s.submissions| && v.gateway == n
    ensures exists sub :: sub in s'.submissions && v.txId == sub.txId && v.wire == sub.wire && v.outcome == sub.outcome
  {
    var i :| 0 <= i < |NewVerdicts(n, s, s')| && NewVerdicts(n, s, s')[i] == v;
    var sub := s'.submissions[|s.submissions| + i];
    assert sub in s'.submissions && v.txId == sub.txId && v.wire == sub.wire && v.outcome == sub.outcome;
  }

  lemma NewVerdictsHonest(w: World, net: Net, n: Peer, s': State, net': Net)
    requires NetInv(w, net) && n in net.nodes && RecordsGrow(net.configs[n], net.nodes[n], s')
    requires net'.configs == net.configs && HonestState(w, TruthOf(net'), s')
    requires net'.verdicts == net.verdicts + NewVerdicts(n, net.nodes[n], s')
    requires Wires(net.origins) <= Wires(net'.origins)
    ensures forall v :: v in net'.verdicts ==> HonestVerdict(w, net', v)
  {
    forall v | v in net'.verdicts ensures HonestVerdict(w, net', v) {
      if v in net.verdicts {
        assert HonestVerdict(w, net, v);
      } else {
        NewVerdictsRecorded(n, net.nodes[n], s', v);
        var sub :| sub in s'.submissions && v.txId == sub.txId && v.wire == sub.wire && v.outcome == sub.outcome;
        assert HonestSubmission(w, TruthOf(net'), sub);
      }
    }
  }

  lemma NewFramesHonest(w: World, t: Truth, n: Peer, s': State)
    requires HonestState(w, t, s')
    ensures forall f :: f in Frames(n, s'.outbox) ==> HonestPacket(w, t, f.packet) && Encodable(f.packet)
  {
    forall f | f in Frames(n, s'.outbox) ensures HonestPacket(w, t, f.packet) && Encodable(f.packet) {
      var i :| 0 <= i < |s'.outbox| && Frames(n, s'.outbox)[i] == f;
      assert s'.outbox[i] in s'.outbox;
    }
  }

  /** The invariant survives any honest move of one node's state. */
  lemma NodeMovesInv(w: World, net: Net, n: Peer, s': State, rest: seq<Frame>, net': Net)
    requires NetInv(w, net) && n in net.nodes && RecordsGrow(net.configs[n], net.nodes[n], s')
    requires forall f :: f in rest ==> f in net.flight
    requires net' == Moved(net, n, s', rest)
    requires Within(TruthOf(net), TruthOf(net')) && HonestState(w, TruthOf(net'), s')
    ensures NetInv(w, net')
  {
    var t, u := TruthOf(net), TruthOf(net');
    NewVerdictsHonest(w, net, n, s', net');
    NewFramesHonest(w, u, n, s');
    forall m | m in net'.nodes ensures m in net'.configs && HonestState(w, u, net'.nodes[m]) {
      if m != n {
        HonestGrows(w, t, u, net.nodes[m]);
      }
    }
    forall f | f in net'.flight ensures HonestPacket(w, u, f.packet) && Encodable(f.packet) {
      if f in rest {
        assert HonestPacket(w, t, f.packet);
      }
    }
  }

  lemma NodeActsInv(w: World, net: Net, n: Peer, j: Job, rest: seq<Frame>)
    requires NetInv(w, net) && n in net.nodes
    requires j.Receive? ==> HonestPacket(w, TruthOf(net), j.packet)
    requires forall f :: f in rest ==> f in net.flight
    ensures NetInv(w, NodeActs(w, net, n, j, rest))
  {
    var cfg, s := net.configs[n], net.nodes[n];
    var s' := Step(w, cfg, s, j);
    var net' := NodeActs(w, net, n, j, rest);
    StepRecords(w, cfg, s, j);
    OriginsCover(n, net.origins, s, s');
    VerdictsCover(n, net.verdicts, s, s');
    HonestGrows(w, TruthOf(net), TruthOf(net'), s);
    StepHonest(w, cfg, TruthOf(net'), s, j);
    NodeMovesInv(w, net, n, s', rest, net');
  }

  lemma NetStepInv(w: World, net: Net, ev: Event)
    requires NetInv(w, net)
    ensures NetInv(w, NetStep(w, net, ev))
  {
    match ev
    case Deliver(i, attributed, ch) =>
      if i < |net.flight| {
        var f, rest := net.flight[i], Without(net.flight, i);
        if f.dst in net.nodes {
          NodeActsInv(w, net, f.dst, Receive(if attributed then Some(f.src) else None, f.packet, ch), rest);
        }
      }
    case Local(n, j) =>
      if n in net.nodes && !j.Receive? {
        NodeActsInv(w, net, n, j, net.flight);
      }
    case _ =>
  }

  lemma InitialInv(w: World, net: Net)
    requires Initial(net)
    ensures NetInv(w, net)
  {
    forall n | n in net.nodes ensures n in net.configs && HonestState(w, TruthOf(net), net.nodes[n]) {
      var seed: u64 :| net.nodes[n] == Init(seed);
    }
  }

  lemma {:induction false} RunNetInv(w: World, net: Net, evs: seq<Event>)
    requires Initial(net)
    ensures NetInv(w, RunNet(w, net, evs))
    decreases |evs|
  {
    if evs == [] {
      InitialInv(w, net);
    } else {
      RunNetInv(w, net, evs[..|evs| - 1]);
      NetStepInv(w, RunNet(w, net, evs[..|evs| - 1]), evs[|evs| - 1]);
    }
  }

  // ----- frames and bytes -----

  /** On every run every frame in flight is the packet of some bytes: it encodes, and delivering the frame is
      handing its destination the encoded bytes. */
  lemma FlightIsBytes(w: World, net0: Net, evs: seq<Event>, i: nat, attributed: bool, ch: Choice)
    requires Initial(net0) && i < |RunNet(w, net0, evs).flight|
    ensures var net := RunNet(w, net0, evs);
            var f := net.flight[i];
            var src := if attributed then Some(f.src) else None;
            && Codec.Encoded(f.packet).Ok?
            && (f.dst in net.nodes && f.dst in net.configs ==>
                  NetStep(w, net, Deliver(i, attributed, ch)) ==
                  Moved(net, f.dst,
                        InboundBytes(w, net.configs[f.dst], net.nodes[f.dst], src, Codec.Encoded(f.packet).value, ch),
                        Without(net.flight, i)))
  {
    RunNetInv(w, net0, evs);
    var net := RunNet(w, net0, evs);
    var f := net.flight[i];
    assert f in net.flight;
    Codec.FrameDecodes(f.packet);
    if f.dst in net.nodes && f.dst in net.configs {
      var src := if attributed then Some(f.src) else None;
      WireIsTransparent(w, net.configs[f.dst], net.nodes[f.dst], src, f.packet, ch);
    }
  }

  // ----- settlement provenance -----

  /** A gateway of the network submitted `v.wire`, which some node originated, and the chain took it. */
  ghost predicate Landed(w: World, net: Net, v: Verdict) {
    && v in net.verdicts && v.outcome == Some(Accepted)
    && HonestVerdict(w, net, v)
  }

  lemma SettledHasVerdict(w: World, net: Net, n: Peer, id: E.TxId)
    requires NetInv(w, net) && n in net.nodes
    requires id in net.nodes[n].ledger && net.nodes[n].ledger[id].status == Settled
    ensures exists v :: Landed(w, net, v) && v.txId == id
  {
    assert id in AcceptedIds(net.verdicts);
    var v :| v in net.verdicts && v.outcome == Some(Accepted) && v.txId == id;
    assert Landed(w, net, v);
  }

  /** Settlement provenance, on every run of every network of honest nodes: whichever node's ledger
      shows a payment as settled, a gateway has submitted it and had it accepted. */
  lemma SettlementProvenance(w: World, net0: Net, evs: seq<Event>, n: Peer, id: E.TxId)
    requires Initial(net0)
    requires n in RunNet(w, net0, evs).nodes && id in RunNet(w, net0, evs).nodes[n].ledger
    requires RunNet(w, net0, evs).nodes[n].ledger[id].status == Settled
    ensures exists v :: Landed(w, RunNet(w, net0, evs), v) && v.txId == id
  {
    RunNetInv(w, net0, evs);
    SettledHasVerdict(w, RunNet(w, net0, evs), n, id);
  }

  ghost predicate NoCollision(w: World, os: seq<Origin>) {
    forall o, p :: o in os && p in os && w.txIdOf(o.wire) == w.txIdOf(p.wire) ==> o.wire == p.wire
  }

  /** When no two originated wires share an id, the accepted submission carried exactly the bytes the
      origin handed to its node. */
  lemma OriginBytesLanded(w: World, net0: Net, evs: seq<Event>, o: Origin)
    requires Initial(net0)
    requires var net := RunNet(w, net0, evs);
             && NoCollision(w, net.origins) && o in net.origins && o.node in net.nodes
             && w.txIdOf(o.wire) in net.nodes[o.node].ledger
             && net.nodes[o.node].ledger[w.txIdOf(o.wire)].status == Settled
    ensures exists v :: Landed(w, RunNet(w, net0, evs), v) && v.wire == o.wire
  {
    var net := RunNet(w, net0, evs);
    RunNetInv(w, net0, evs);
    SettledHasVerdict(w, net, o.node, w.txIdOf(o.wire));
    var v :| Landed(w, net, v) && v.txId == w.txIdOf(o.wire);
    var p :| p in net.origins && p.wire == v.wire;
    assert v.wire == o.wire;
  }
}
