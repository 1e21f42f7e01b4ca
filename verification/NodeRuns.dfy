/** What every run of one node keeps, whatever frames reach it and whatever its environment decides. */
module NodeRuns {
  import opened Bytes
  import opened Packet
  import opened Dedup
  import opened Settlement
  import opened Beacon
  import opened Engine
  import E = Envelope
  import B = Balance

  // ----- the invariant -----

  ghost predicate LogsSpaced(s: State) {
    Spaced(s.relaySeen, RELAY_CACHE_CAP) && Spaced(s.gatewaySeen, GATEWAY_CACHE_CAP)
    && Spaced(s.acked, GATEWAY_CACHE_CAP)
  }

  /** Each relay goes back to its own acceptance of the relayed key. */
  ghost predicate RelaysTraced(s: State) {
    && (forall i :: 0 <= i < |s.relays| ==>
          s.relays[i].at < |s.relaySeen| && s.relaySeen[s.relays[i].at] == KeyOf(s.relays[i].packet))
    && (forall i, j :: 0 <= i < j < |s.relays| ==> s.relays[i].at < s.relays[j].at)
  }

  /** Each submission goes back to its own acceptance of the submitted txId. */
  ghost predicate SubmissionsTraced(s: State) {
    && (forall i :: 0 <= i < |s.submissions| ==>
          s.submissions[i].at < |s.gatewaySeen| && s.gatewaySeen[s.submissions[i].at] == s.submissions[i].txId)
    && (forall i, j :: 0 <= i < j < |s.submissions| ==> s.submissions[i].at < s.submissions[j].at)
  }

  ghost predicate Inv(s: State) {
    LogsSpaced(s) && RelaysTraced(s) && SubmissionsTraced(s) && |s.recent| <= RECENT_CACHE_CAP
  }

  /** The invariant reads six fields only. */
  lemma SameInv(s: State, s': State)
    requires Inv(s) && |s'.recent| <= RECENT_CACHE_CAP
    requires s'.relaySeen == s.relaySeen && s'.gatewaySeen == s.gatewaySeen && s'.acked == s.acked
    requires s'.relays == s.relays && s'.submissions == s.submissions
    ensures Inv(s')
  {
  }

  /** The acceptance at `at` of the key of `p` has not been relayed yet, nor any later one. */
  ghost predicate Ready(s: State, p: Packet, at: nat) {
    && Inv(s)
    && at < |s.relaySeen| && s.relaySeen[at] == KeyOf(p)
    && forall i :: 0 <= i < |s.relays| ==> s.relays[i].at < at
  }

  /** A step that relays nothing. */
  ghost predicate Quiet(s: State, s': State) {
    Inv(s') && s.relaySeen <= s'.relaySeen && s'.relays == s.relays
  }

  lemma MarkSeenQuiet(s: State, p: Packet)
    requires Inv(s)
    ensures Quiet(s, MarkSeen(s, p))
    ensures Unseen(s, p) ==> Ready(MarkSeen(s, p), p, |s.relaySeen|)
  {
    OfferKeepsSpaced(s.relaySeen, RELAY_CACHE_CAP, KeyOf(p));
  }

  lemma RelayOnwardInv(s: State, p: Packet, src: Option<Peer>, at: nat, ch: Choice)
    requires Ready(s, p, at)
    ensures Inv(RelayOnward(s, p, src, at, ch))
  {
  }

  lemma RememberQuiet(w: World, s: State, p: Packet, now: u64)
    requires Inv(s)
    ensures Quiet(s, Remember(w, s, p, now))
  {
  }

  lemma LogSubmissionInv(s: State, sub: Submission)
    requires Inv(s) && sub.at == |s.gatewaySeen| && IsNew(s.gatewaySeen, GATEWAY_CACHE_CAP, sub.txId)
    ensures Inv(s.(gatewaySeen := s.gatewaySeen + [sub.txId], submissions := s.submissions + [sub]))
  {
    OfferKeepsSpaced(s.gatewaySeen, GATEWAY_CACHE_CAP, sub.txId);
  }

  /** A packet built, marked as seen and flooded by this node itself. */
  lemma FloodOwnQuiet(s: State, p: Packet)
    requires Inv(s)
    ensures Quiet(s, Flood(MarkSeen(TakeSeq(s), p), p, None))
  {
    SameInv(s, TakeSeq(s));
    MarkSeenQuiet(TakeSeq(s), p);
    var s1 := MarkSeen(TakeSeq(s), p);
    SameInv(s1, Flood(s1, p, None));
  }

  lemma OwnFloodQuiet(w: World, cfg: Config, s: State, ty: MessageType, payload: seq<byte>, now: u64)
    requires Inv(s)
    ensures Quiet(s, OwnFlood(w, cfg, s, ty, payload, now))
  {
    var p := Built(cfg, s, ty, payload);
    SameInv(s, TakeSeq(s));
    MarkSeenQuiet(TakeSeq(s), p);
    var s1 := MarkSeen(TakeSeq(s), p);
    RememberQuiet(w, s1, p, now);
    var s2 := Remember(w, s1, p, now);
    SameInv(s2, Flood(s2, p, None));
  }

  lemma FloodReceiptQuiet(cfg: Config, s: State, r: Receipt)
    requires Inv(s)
    ensures Quiet(s, FloodReceipt(cfg, s, r))
  {
    FloodOwnQuiet(s, Built(cfg, s, NimiqTxReceipt, EncodeReceipt(r)));
  }

  lemma SubmitQuiet(w: World, cfg: Config, s: State, e: E.NimiqEnvelope, ch: Choice)
    requires Inv(s)
    ensures Quiet(s, Submit(w, cfg, s, e, ch))
  {
    var id := TxIdIn(w, e);
    if IsNew(s.gatewaySeen, GATEWAY_CACHE_CAP, id) {
      var sub := Submission(|s.gatewaySeen|, id, e.txWire, e.networkId, e.validUntil, ch.submit);
      LogSubmissionInv(s, sub);
      var s1 := s.(gatewaySeen := s.gatewaySeen + [id], submissions := s.submissions + [sub]);
      if ch.submit.Some? {
        FloodReceiptQuiet(cfg, s1, Receipt(id, ch.submit.value));
        assert Submit(w, cfg, s, e, ch) == FloodReceipt(cfg, s1, Receipt(id, ch.submit.value));
      }
    }
  }

  lemma HandleTxInv(w: World, cfg: Config, s: State, p: Packet, src: Option<Peer>, ch: Choice)
    requires Inv(s)
    ensures Inv(HandleTx(w, cfg, s, p, src, ch))
  {
    MarkSeenQuiet(s, p);
    var s1 := MarkSeen(s, p);
    if Unseen(s, p) && !TxRefused(w, cfg, s1, p) {
      RememberQuiet(w, s1, p, ch.now);
      var s2 := Remember(w, s1, p, ch.now);
      var env := E.Decoded(p.payload);
      var s3 := s2;
      if cfg.isGateway && env.Ok? {
        SubmitQuiet(w, cfg, s2, env.value, ch);
        s3 := Submit(w, cfg, s2, env.value, ch);
      }
      RelayOnwardInv(s3, p, src, |s.relaySeen|, ch);
    }
  }

  lemma ApplyReceiptQuiet(s: State, payload: seq<byte>)
    requires Inv(s)
    ensures Quiet(s, ApplyReceipt(s, payload))
  {
    var r := DecodeReceipt(payload);
    if r.Some? {
      OfferKeepsSpaced(s.acked, GATEWAY_CACHE_CAP, r.value.txId);
    }
  }

  lemma HandleReceiptInv(w: World, s: State, p: Packet, src: Option<Peer>, ch: Choice)
    requires Inv(s)
    ensures Inv(HandleReceipt(w, s, p, src, ch))
  {
    MarkSeenQuiet(s, p);
    if Unseen(s, p) {
      var s1 := MarkSeen(s, p);
      RememberQuiet(w, s1, p, ch.now);
      var s2 := Remember(w, s1, p, ch.now);
      ApplyReceiptQuiet(s2, p.payload);
      RelayOnwardInv(ApplyReceipt(s2, p.payload), p, src, |s.relaySeen|, ch);
    }
  }

  lemma AnswerBalanceQuiet(w: World, cfg: Config, s: State, address: B.Address, a: BalanceAnswer, now: u64)
    requires Inv(s)
    ensures Quiet(s, AnswerBalance(w, cfg, s, address, a, now))
  {
    var resp := B.BalanceResponse(address, a.balance, a.headHeight, a.networkId);
    var s1 := s.(balances := B.ObserveBalance(cfg.network, s.balances, resp));
    SameInv(s, s1);
    OwnFloodQuiet(w, cfg, s1, NimiqBalanceResponse, B.EncodeResponse(resp), now);
  }

  /** Accept, absorb something into the head or the balances, store, relay. */
  lemma AbsorbInv(w: World, s: State, s1: State, p: Packet, src: Option<Peer>, ch: Choice)
    requires Inv(s) && Unseen(s, p)
    requires s1 == MarkSeen(s, p).(head := s1.head, balances := s1.balances)
    ensures Inv(RelayOnward(Remember(w, s1, p, ch.now), p, src, |s.relaySeen|, ch))
  {
    MarkSeenQuiet(s, p);
    SameInv(MarkSeen(s, p), s1);
    RememberQuiet(w, s1, p, ch.now);
    RelayOnwardInv(Remember(w, s1, p, ch.now), p, src, |s.relaySeen|, ch);
  }

  lemma HandleHeadBeaconInv(w: World, cfg: Config, s: State, p: Packet, src: Option<Peer>, ch: Choice)
    requires Inv(s)
    ensures Inv(HandleHeadBeacon(w, cfg, s, p, src, ch))
  {
    if Unseen(s, p) {
      AbsorbInv(w, s, AbsorbBeacon(cfg, MarkSeen(s, p), p.payload), p, src, ch);
    }
  }

  lemma HandleBalanceResponseInv(w: World, cfg: Config, s: State, p: Packet, src: Option<Peer>, ch: Choice)
    requires Inv(s)
    ensures Inv(HandleBalanceResponse(w, cfg, s, p, src, ch))
  {
    if Unseen(s, p) {
      AbsorbInv(w, s, AbsorbBalance(cfg, MarkSeen(s, p), p.payload), p, src, ch);
    }
  }

  lemma HandleOpaqueInv(w: World, s: State, p: Packet, src: Option<Peer>, ch: Choice)
    requires Inv(s)
    ensures Inv(HandleOpaque(w, s, p, src, ch))
  {
    if Unseen(s, p) {
      AbsorbInv(w, s, MarkSeen(s, p), p, src, ch);
    }
  }

  lemma HandleBalanceQueryInv(w: World, cfg: Config, s: State, p: Packet, src: Option<Peer>, ch: Choice)
    requires Inv(s)
    ensures Inv(HandleBalanceQuery(w, cfg, s, p, src, ch))
  {
    MarkSeenQuiet(s, p);
    if Unseen(s, p) {
      RememberQuiet(w, MarkSeen(s, p), p, ch.now);
      var s1 := Remember(w, MarkSeen(s, p), p, ch.now);
      var query := B.DecodeQuery(p.payload);
      var s2 := s1;
      if cfg.isGateway && query.Some? && ch.balance.Some? {
        AnswerBalanceQuiet(w, cfg, s1, query.value, ch.balance.value, ch.now);
        s2 := AnswerBalance(w, cfg, s1, query.value, ch.balance.value, ch.now);
      }
      RelayOnwardInv(s2, p, src, |s.relaySeen|, ch);
    }
  }

  lemma DispatchInv(w: World, cfg: Config, s: State, p: Packet, src: Option<Peer>, ch: Choice)
    requires Inv(s)
    ensures Inv(Dispatch(w, cfg, s, p, src, ch))
  {
    if p.msgType == NimiqTx {
      HandleTxInv(w, cfg, s, p, src, ch);
    } else if p.msgType == NimiqTxReceipt {
      HandleReceiptInv(w, s, p, src, ch);
    } else if p.msgType == NimiqBalanceQuery {
      HandleBalanceQueryInv(w, cfg, s, p, src, ch);
    } else if p.msgType == NimiqHeadBeacon {
      HandleHeadBeaconInv(w, cfg, s, p, src, ch);
    } else if p.msgType == NimiqBalanceResponse {
      HandleBalanceResponseInv(w, cfg, s, p, src, ch);
    } else {
      HandleOpaqueInv(w, s, p, src, ch);
    }
  }

  lemma {:induction false} RetriedKeeps(s: State, k: nat, now: u64)
    requires k <= |s.pending|
    ensures Retried(s, k, now) == s.(pending := Retried(s, k, now).pending, outbox := Retried(s, k, now).outbox)
    decreases k
  {
    if k > 0 {
      RetriedKeeps(s, k - 1, now);
    }
  }

  lemma LocalTxInv(w: World, cfg: Config, s: State, wire: seq<byte>, now: u64)
    requires Inv(s)
    ensures Inv(LocalTx(w, cfg, s, wire, now))
  {
    var payload := E.Encoded(LocalEnvelope(w, cfg, s, wire));
    if payload.Ok? {
      var p := Built(cfg, s, NimiqTx, payload.value);
      SameInv(s, TakeSeq(s));
      MarkSeenQuiet(TakeSeq(s), p);
      RememberQuiet(w, MarkSeen(TakeSeq(s), p), p, now);
      SameInv(Remember(w, MarkSeen(TakeSeq(s), p), p, now), LocalTx(w, cfg, s, wire, now));
    }
  }

  lemma BeaconPollInv(w: World, cfg: Config, s: State, poll: Poll)
    requires Inv(s)
    ensures Inv(BeaconPoll(w, cfg, s, poll))
  {
    var b := Emits(s.uplink, poll);
    if cfg.isGateway && b.Some? {
      var s2 := s.(uplink := AfterPoll(s.uplink, poll), head := AcceptHead(cfg.network, s.head, b.value));
      SameInv(s, s2);
      OwnFloodQuiet(w, cfg, s2, NimiqHeadBeacon, EncodeBeacon(b.value), poll.now);
    }
  }

  lemma RetryTickInv(s: State, now: u64)
    requires Inv(s)
    ensures Inv(RetryTick(s, now))
  {
    var s1 := s.(ledger := FailDead(s.ledger, s.pending, HeadHeight(s), now),
                 pending := LivePending(s.pending, HeadHeight(s), now));
    RetriedKeeps(s1, |s1.pending|, now);
    SameInv(s, RetryTick(s, now));
  }

  lemma LocalJobsInv(w: World, cfg: Config, s: State, j: Job)
    requires Inv(s) && !j.Receive?
    ensures Inv(Step(w, cfg, s, j))
  {
    match j
    case SubmitTx(wire, now) => LocalTxInv(w, cfg, s, wire, now);
    case QueryBalance(a, now) => OwnFloodQuiet(w, cfg, s, NimiqBalanceQuery, a, now);
    case PollBeacon(poll) => BeaconPollInv(w, cfg, s, poll);
    case Retry(now) => RetryTickInv(s, now);
    case _ => SameInv(s, Step(w, cfg, s, j));
  }

  lemma StepInv(w: World, cfg: Config, s: State, j: Job)
    requires Inv(s)
    ensures Inv(Step(w, cfg, s, j))
  {
    if !j.Receive? {
      LocalJobsInv(w, cfg, s, j);
    } else if j.packet.flags.isRsr {
      DispatchInv(w, cfg, s, Unwrapped(j.packet), None, j.ch);
    } else {
      DispatchInv(w, cfg, s, j.packet, j.src, j.ch);
    }
  }

  lemma {:induction false} RunInv(w: World, cfg: Config, s: State, js: seq<Job>)
    requires Inv(s)
    ensures Inv(Run(w, cfg, s, js))
    decreases |js|
  {
    if js != [] {
      RunInv(w, cfg, s, js[..|js| - 1]);
      StepInv(w, cfg, Run(w, cfg, s, js[..|js| - 1]), js[|js| - 1]);
    }
  }

  // ----- bounded at-most-once -----

  /** Two relays of one relay key have at least 2048 distinct other keys accepted between their
      acceptances. */
  ghost predicate RelaysApart(s: State) {
    forall i, j | 0 <= i < j < |s.relays| && KeyOf(s.relays[i].packet) == KeyOf(s.relays[j].packet) ::
      Apart(s.relaySeen, RELAY_CACHE_CAP, s.relays[i].at, s.relays[j].at)
      && s.relaySeen[s.relays[i].at] == KeyOf(s.relays[i].packet)
  }

  /** Two submissions of one txId, whatever the first one's outcome, have at least 1024 distinct
      other txIds accepted between them. */
  ghost predicate SubmissionsApart(s: State) {
    forall i, j | 0 <= i < j < |s.submissions| && s.submissions[i].txId == s.submissions[j].txId ::
      Apart(s.gatewaySeen, GATEWAY_CACHE_CAP, s.submissions[i].at, s.submissions[j].at)
      && s.gatewaySeen[s.submissions[i].at] == s.submissions[i].txId
  }

  lemma InvKeepsApart(s: State)
    requires Inv(s)
    ensures RelaysApart(s) && SubmissionsApart(s)
  {
    forall i, j | 0 <= i < j < |s.relays| && KeyOf(s.relays[i].packet) == KeyOf(s.relays[j].packet)
      ensures Apart(s.relaySeen, RELAY_CACHE_CAP, s.relays[i].at, s.relays[j].at)
    {
      AcceptedAgainOnlyAfterEviction(s.relaySeen, RELAY_CACHE_CAP, s.relays[i].at, s.relays[j].at);
    }
    forall i, j | 0 <= i < j < |s.submissions| && s.submissions[i].txId == s.submissions[j].txId
      ensures Apart(s.gatewaySeen, GATEWAY_CACHE_CAP, s.submissions[i].at, s.submissions[j].at)
    {
      AcceptedAgainOnlyAfterEviction(s.gatewaySeen, GATEWAY_CACHE_CAP, s.submissions[i].at, s.submissions[j].at);
    }
  }

  /** Bounded at-most-once, on every run of a node. */
  lemma AtMostOnce(w: World, cfg: Config, seed: u64, js: seq<Job>)
    ensures RelaysApart(Run(w, cfg, Init(seed), js)) && SubmissionsApart(Run(w, cfg, Init(seed), js))
  {
    RunInv(w, cfg, Init(seed), js);
    InvKeepsApart(Run(w, cfg, Init(seed), js));
  }

  // ----- dead and landed transactions stay dead -----

  /** The head never goes back and the ack log only grows. */
  ghost predicate Grows(s: State, s': State) {
    NotBehind(s.head, s'.head) && s.acked <= s'.acked
  }

  lemma DispatchGrows(w: World, cfg: Config, s: State, p: Packet, src: Option<Peer>, ch: Choice)
    ensures Grows(s, Dispatch(w, cfg, s, p, src, ch))
  {
    if p.msgType == NimiqTxReceipt {
      assert Grows(s, HandleReceipt(w, s, p, src, ch));
    } else if p.msgType == NimiqHeadBeacon {
      assert Grows(s, HandleHeadBeacon(w, cfg, s, p, src, ch));
    } else {
      assert Dispatch(w, cfg, s, p, src, ch).head == s.head && Dispatch(w, cfg, s, p, src, ch).acked == s.acked;
    }
  }

  lemma StepGrows(w: World, cfg: Config, s: State, j: Job)
    ensures Grows(s, Step(w, cfg, s, j))
  {
    if j.Receive? {
      DispatchGrows(w, cfg, s, Unwrapped(j.packet), None, j.ch);
      DispatchGrows(w, cfg, s, j.packet, j.src, j.ch);
    } else if j.Retry? {
      var s1 := s.(ledger := FailDead(s.ledger, s.pending, HeadHeight(s), j.at),
                   pending := LivePending(s.pending, HeadHeight(s), j.at));
      RetriedKeeps(s1, |s1.pending|, j.at);
    }
  }

  lemma {:induction false} RunGrows(w: World, cfg: Config, s: State, js: seq<Job>)
    ensures Grows(s, Run(w, cfg, s, js))
    decreases |js|
  {
    if js != [] {
      RunGrows(w, cfg, s, js[..|js| - 1]);
      StepGrows(w, cfg, Run(w, cfg, s, js[..|js| - 1]), js[|js| - 1]);
    }
  }

  /** Nothing of `p` was stored, submitted or relayed: at most its key was marked as seen. */
  ghost predicate Dropped(s: State, s': State) {
    s' == s.(relaySeen := s'.relaySeen)
  }

  lemma HandleTxDrops(w: World, cfg: Config, s: State, p: Packet, src: Option<Peer>, ch: Choice)
    requires TxRefused(w, cfg, s, p)
    ensures Dropped(s, HandleTx(w, cfg, s, p, src, ch))
  {
    assert TxRefused(w, cfg, MarkSeen(s, p), p);
  }

  lemma RefusedIsDropped(w: World, cfg: Config, s: State, p: Packet, src: Option<Peer>, ch: Choice)
    requires p.msgType == NimiqTx && TxRefused(w, cfg, s, p)
    ensures Dropped(s, Inbound(w, cfg, s, src, p, ch))
  {
    if p.flags.isRsr {
      HandleTxDrops(w, cfg, s, Unwrapped(p), None, ch);
    } else {
      HandleTxDrops(w, cfg, s, p, src, ch);
    }
  }

  /** Once a node's head has reached `h`, no transaction whose window ends at or before `h` is
      stored, submitted or relayed by it again, directly or through catch-up, on any later run. */
  lemma DeadStaysDead(w: World, cfg: Config, s: State, js: seq<Job>, h: u32,
                      p: Packet, src: Option<Peer>, ch: Choice)
    requires s.head.Some? && s.head.value.height >= h
    requires p.msgType == NimiqTx && E.Decoded(p.payload).Ok?
    requires var v := E.Decoded(p.payload).value.validUntil; v.Some? && v.value <= h
    ensures var s' := Run(w, cfg, s, js); Dropped(s', Inbound(w, cfg, s', src, p, ch))
  {
    RunGrows(w, cfg, s, js);
    var s' := Run(w, cfg, s, js);
    assert IsExpired(HeadHeight(s'), E.Decoded(p.payload).value.validUntil);
    RefusedIsDropped(w, cfg, s', p, src, ch);
  }

  /** Handling a new receipt leaves its txId among the remembered acks. */
  lemma ReceiptIsRemembered(w: World, s: State, p: Packet, src: Option<Peer>, ch: Choice)
    requires Unseen(s, p) && DecodeReceipt(p.payload).Some?
    ensures var id := DecodeReceipt(p.payload).value.txId;
            !IsNew(HandleReceipt(w, s, p, src, ch).acked, GATEWAY_CACHE_CAP, id)
  {
  }

  /** Once a node has acked a txId, no packet carrying it, under any header, is stored, submitted or
      relayed by it again until 1024 further txIds have been acked. */
  lemma LandedStaysLanded(w: World, cfg: Config, s: State, js: seq<Job>, at: nat,
                          p: Packet, src: Option<Peer>, ch: Choice)
    requires at < |s.acked|
    requires |Run(w, cfg, s, js).acked| - at <= GATEWAY_CACHE_CAP
    requires p.msgType == NimiqTx && E.Decoded(p.payload).Ok?
    requires TxIdIn(w, E.Decoded(p.payload).value) == s.acked[at]
    ensures var s' := Run(w, cfg, s, js); Dropped(s', Inbound(w, cfg, s', src, p, ch))
  {
    RunGrows(w, cfg, s, js);
    var s' := Run(w, cfg, s, js);
    RememberedUntilEvicted(s'.acked, GATEWAY_CACHE_CAP, at);
    assert s'.acked[at] == s.acked[at];
    RefusedIsDropped(w, cfg, s', p, src, ch);
  }
}
