/** Exactly when a gateway submits a transaction, exactly when a receipt settles a payment, and exactly how
    long a receipt keeps its transaction from being carried again. */
module Landing {
  import opened Bytes
  import opened Packet
  import opened Dedup
  import opened Settlement
  import opened Engine
  import opened Handlers
  import opened NodeRuns
  import opened FirstCopies
  import opened Convergence
  import E = Envelope

  // ----- submissions -----

  /** What lets `handle_tx` submit: a gateway, an unseen header, past the gates, a readable envelope, and a
      txId not among the last 1024 it claimed. */
  predicate MaySubmit(w: World, cfg: Config, s: State, p: Packet) {
    && cfg.isGateway && Unseen(s, p) && !TxRefused(w, cfg, s, p) && E.Decoded(p.payload).Ok?
    && IsNew(s.gatewaySeen, GATEWAY_CACHE_CAP, TxIdIn(w, E.Decoded(p.payload).value))
  }

  function SubmissionOf(w: World, s: State, e: E.NimiqEnvelope, outcome: Option<ReceiptStatus>): Submission {
    Submission(|s.gatewaySeen|, TxIdIn(w, e), e.txWire, e.networkId, e.validUntil, outcome)
  }

  lemma SubmitDoes(w: World, cfg: Config, s: State, e: E.NimiqEnvelope, ch: Choice)
    ensures var t, id := Submit(w, cfg, s, e, ch), TxIdIn(w, e);
            if IsNew(s.gatewaySeen, GATEWAY_CACHE_CAP, id) then
              && t.submissions == s.submissions + [SubmissionOf(w, s, e, ch.submit)]
              && t.gatewaySeen == s.gatewaySeen + [id]
            else t.submissions == s.submissions && t.gatewaySeen == s.gatewaySeen
  {
  }

  lemma CarryDoes(w: World, cfg: Config, s: State, p: Packet, src: Option<Peer>, at: nat, ch: Choice)
    ensures var t, env, s1 := CarryTx(w, cfg, s, p, src, at, ch), E.Decoded(p.payload), Remember(w, s, p, ch.now);
            if cfg.isGateway && env.Ok? then
              var u := Submit(w, cfg, s1, env.value, ch);
              t.submissions == u.submissions && t.gatewaySeen == u.gatewaySeen
            else t.submissions == s.submissions && t.gatewaySeen == s.gatewaySeen
  {
  }

  lemma GatesIgnoreTheHeader(w: World, cfg: Config, s: State, p: Packet)
    ensures TxRefused(w, cfg, MarkSeen(s, p), p) <==> TxRefused(w, cfg, s, p)
  {
  }

  /** One submission is made exactly then, of exactly the envelope's wire, and its txId is claimed whatever
      the outcome; otherwise nothing is submitted or claimed. */
  lemma SubmitsIff(w: World, cfg: Config, s: State, p: Packet, src: Option<Peer>, ch: Choice)
    ensures var t := HandleTx(w, cfg, s, p, src, ch);
            if MaySubmit(w, cfg, s, p) then
              var e := E.Decoded(p.payload).value;
              && t.submissions == s.submissions + [SubmissionOf(w, s, e, ch.submit)]
              && t.gatewaySeen == s.gatewaySeen + [TxIdIn(w, e)]
            else t.submissions == s.submissions && t.gatewaySeen == s.gatewaySeen
  {
    GatesIgnoreTheHeader(w, cfg, s, p);
    var s1 := MarkSeen(s, p);
    CarryDoes(w, cfg, s1, p, src, |s.relaySeen|, ch);
    if E.Decoded(p.payload).Ok? {
      SubmitDoes(w, cfg, Remember(w, s1, p, ch.now), E.Decoded(p.payload).value, ch);
    }
  }

  /** The same for a frame: rate-limited frames and other types submit nothing, and a catch-up reply submits
      like the packet it carries. */
  lemma FrameSubmitsIff(w: World, cfg: Config, s: State, src: Option<Peer>, p: Packet, ch: Choice)
    ensures var t := Inbound(w, cfg, s, src, p, ch);
            |t.submissions| > |s.submissions| <==>
            (src.Some? ==> ch.rateOk) && p.msgType == NimiqTx && MaySubmit(w, cfg, s, p)
  {
    if p.msgType == NimiqTx {
      SubmitsIff(w, cfg, s, Unwrapped(p), None, ch);
      SubmitsIff(w, cfg, s, p, src, ch);
      assert KeyOf(Unwrapped(p)) == KeyOf(p);
    } else {
      OthersSubmitNothing(w, cfg, s, Unwrapped(p), None, ch);
      OthersSubmitNothing(w, cfg, s, p, src, ch);
    }
  }

  lemma OthersSubmitNothing(w: World, cfg: Config, s: State, p: Packet, src: Option<Peer>, ch: Choice)
    requires p.msgType != NimiqTx
    ensures Dispatch(w, cfg, s, p, src, ch).submissions == s.submissions
    ensures Dispatch(w, cfg, s, p, src, ch).gatewaySeen == s.gatewaySeen
  {
  }

  lemma DispatchClaims(w: World, cfg: Config, s: State, p: Packet, src: Option<Peer>, ch: Choice)
    ensures s.gatewaySeen <= Dispatch(w, cfg, s, p, src, ch).gatewaySeen
  {
    if p.msgType == NimiqTx {
      SubmitsIff(w, cfg, s, p, src, ch);
    } else {
      OthersSubmitNothing(w, cfg, s, p, src, ch);
    }
  }

  lemma StepClaims(w: World, cfg: Config, s: State, j: Job)
    ensures s.gatewaySeen <= Step(w, cfg, s, j).gatewaySeen
  {
    if j.Receive? {
      DispatchClaims(w, cfg, s, Unwrapped(j.packet), None, j.ch);
      DispatchClaims(w, cfg, s, j.packet, j.src, j.ch);
    } else if j.Retry? {
      var s1 := s.(ledger := FailDead(s.ledger, s.pending, HeadHeight(s), j.at),
                   pending := LivePending(s.pending, HeadHeight(s), j.at));
      RetriedKeeps(s1, |s1.pending|, j.at);
    }
  }

  lemma {:induction false} RunClaims(w: World, cfg: Config, s: State, js: seq<Job>)
    ensures s.gatewaySeen <= Run(w, cfg, s, js).gatewaySeen
    decreases |js|
  {
    if js != [] {
      RunClaims(w, cfg, s, js[..|js| - 1]);
      StepClaims(w, cfg, Run(w, cfg, s, js[..|js| - 1]), js[|js| - 1]);
    }
  }

  /** A submission that ended in a transient error is not made again by the same gateway: on every later run,
      until 1024 further txIds are claimed, no frame carrying that txId, under any header, is submitted. */
  lemma ErrorIsNotRetried(w: World, cfg: Config, s: State, js: seq<Job>, k: nat,
                          p: Packet, src: Option<Peer>, ch: Choice)
    requires Inv(s) && k < |s.submissions| && s.submissions[k].outcome == None
    requires |Run(w, cfg, s, js).gatewaySeen| - s.submissions[k].at <= GATEWAY_CACHE_CAP
    requires E.Decoded(p.payload).Ok? && TxIdIn(w, E.Decoded(p.payload).value) == s.submissions[k].txId
    ensures var t := Run(w, cfg, s, js);
            |Inbound(w, cfg, t, src, p, ch).submissions| <= |t.submissions|
  {
    var t, at := Run(w, cfg, s, js), s.submissions[k].at;
    RunClaims(w, cfg, s, js);
    RememberedUntilEvicted(t.gatewaySeen, GATEWAY_CACHE_CAP, at);
    assert t.gatewaySeen[at] == s.gatewaySeen[at] == s.submissions[k].txId;
    FrameSubmitsIff(w, cfg, t, src, p, ch);
  }

  /** The failing input: a gateway whose uplink fails on `first` ignores `retry`, the same payment under a
      fresh header, although the uplink would now accept it and no gate refuses it. */
  lemma RetryAfterErrorIsSwallowed(w: World, cfg: Config, s: State, first: Packet, retry: Packet,
                                   src: Option<Peer>, down: Choice, up: Choice)
    requires MaySubmit(w, cfg, s, first) && down.submit == None && up.submit == Some(Accepted)
    requires retry.payload == first.payload
    ensures var t := HandleTx(w, cfg, s, first, src, down);
            && |t.submissions| == |s.submissions| + 1 && !TxRefused(w, cfg, t, retry)
            && HandleTx(w, cfg, t, retry, src, up).submissions == t.submissions
  {
    SubmitsIff(w, cfg, s, first, src, down);
    var t := HandleTx(w, cfg, s, first, src, down);
    RememberedUntilEvicted(t.gatewaySeen, GATEWAY_CACHE_CAP, |s.gatewaySeen|);
    SubmitsIff(w, cfg, t, retry, src, up);
    assert t.head == s.head && t.acked == s.acked;
  }

  // ----- status codes -----

  /** A new receipt of the right length settles the pending payment it names exactly when its status byte is
      neither 1 nor 2, and fails it otherwise. */
  lemma SettlesIffCode(w: World, s: State, p: Packet, src: Option<Peer>, ch: Choice, id: E.TxId)
    requires Unseen(s, p) && |p.payload| == E.TX_ID_LEN + 1 && p.payload[..E.TX_ID_LEN] == id
    requires id in s.ledger && s.ledger[id].status == Pending
    ensures var code, t := p.payload[E.TX_ID_LEN], HandleReceipt(w, s, p, src, ch);
            && id in t.ledger
            && (t.ledger[id].status == Settled <==> code != 1 && code != 2)
            && (t.ledger[id].status == PaymentStatus.Failed <==> code == 1 || code == 2)
  {
    var r := DecodeReceipt(p.payload).value;
    HandleReceiptIs(w, s, p, src, ch, r);
    SettleExactly(s.ledger, id, PaymentOf(r.status), id);
  }

  lemma LastByteIsKnown(r: Receipt)
    ensures EncodeReceipt(r)[E.TX_ID_LEN] <= 2
  {
  }

  /** A status byte that no node writes settles a payment. */
  lemma UnknownCodeSettles(w: World, s: State, p: Packet, src: Option<Peer>, ch: Choice, id: E.TxId)
    requires Unseen(s, p) && p.payload == id + [3] && id in s.ledger && s.ledger[id].status == Pending
    ensures var t := HandleReceipt(w, s, p, src, ch); id in t.ledger && t.ledger[id].status == Settled
    ensures forall r: Receipt :: EncodeReceipt(r) != p.payload
  {
    assert p.payload[..E.TX_ID_LEN] == id && p.payload[E.TX_ID_LEN] == 3;
    SettlesIffCode(w, s, p, src, ch, id);
    forall r: Receipt ensures EncodeReceipt(r) != p.payload {
      LastByteIsKnown(r);
    }
  }

  // ----- how long a receipt keeps its transaction away -----

  /** A receipt frame that is not rate-limited goes to the receipt handler, catch-up or not. */
  lemma ReceiptFrameIs(w: World, cfg: Config, s: State, src: Option<Peer>, q: Packet, ch: Choice)
    requires q.msgType == NimiqTxReceipt && (src.Some? ==> ch.rateOk)
    ensures Step(w, cfg, s, Receive(src, q, ch)) ==
            if q.flags.isRsr then HandleReceipt(w, s, Unwrapped(q), None, ch) else HandleReceipt(w, s, q, src, ch)
  {
    assert Step(w, cfg, s, Receive(src, q, ch)) == Inbound(w, cfg, s, src, q, ch);
  }

  /** The log of acks after a receipt frame whose header is new. */
  lemma ReceiptFrameAcks(w: World, cfg: Config, s: State, src: Option<Peer>, q: Packet, ch: Choice, r: Receipt)
    requires q.msgType == NimiqTxReceipt && Unseen(s, q) && DecodeReceipt(q.payload) == Some(r)
    requires src.Some? ==> ch.rateOk
    ensures Step(w, cfg, s, Receive(src, q, ch)).acked == Offer(s.acked, GATEWAY_CACHE_CAP, r.txId)
  {
    ReceiptFrameIs(w, cfg, s, src, q, ch);
    if q.flags.isRsr {
      assert KeyOf(Unwrapped(q)) == KeyOf(q);
      HandleReceiptAcks(w, s, Unwrapped(q), None, ch, r);
    } else {
      HandleReceiptAcks(w, s, q, src, ch, r);
    }
  }

  lemma HandleReceiptAcks(w: World, s: State, q: Packet, src: Option<Peer>, ch: Choice, r: Receipt)
    requires Unseen(s, q) && DecodeReceipt(q.payload) == Some(r)
    ensures HandleReceipt(w, s, q, src, ch).acked == Offer(s.acked, GATEWAY_CACHE_CAP, r.txId)
  {
  }

  /** Once a node has processed a receipt for a txId new to its ack window, no frame carrying that txId, under
      any header, is stored, submitted or relayed by it on any later run with fewer than 1024 further acks. */
  lemma ReceiptEndsCarrying(w: World, cfg: Config, s: State, from: Option<Peer>, q: Packet, heard: Choice, r: Receipt,
                            js: seq<Job>, p: Packet, src: Option<Peer>, ch: Choice)
    requires q.msgType == NimiqTxReceipt && Unseen(s, q) && DecodeReceipt(q.payload) == Some(r)
    requires (from.Some? ==> heard.rateOk) && IsNew(s.acked, GATEWAY_CACHE_CAP, r.txId)
    requires var s1 := Step(w, cfg, s, Receive(from, q, heard));
             |Run(w, cfg, s1, js).acked| - |s1.acked| < GATEWAY_CACHE_CAP
    requires p.msgType == NimiqTx && E.Decoded(p.payload).Ok? && TxIdIn(w, E.Decoded(p.payload).value) == r.txId
    ensures var t := Run(w, cfg, Step(w, cfg, s, Receive(from, q, heard)), js);
            Dropped(t, Inbound(w, cfg, t, src, p, ch))
  {
    ReceiptFrameAcks(w, cfg, s, from, q, heard, r);
    LandedStaysLanded(w, cfg, Step(w, cfg, s, Receive(from, q, heard)), js, |s.acked|, p, src, ch);
  }

  /** A receipt that repeats a txId already acked at position `at` changes nothing in the ack log. After a
      run `js` that acks `n` further txIds but not this one again, it is still known exactly when
      `n <= 1024 - (|s.acked| - at)`, as if the repetition had not come: it buys no time. */
  lemma RepeatedReceiptExact(w: World, cfg: Config, s: State, from: Option<Peer>, q: Packet, heard: Choice, r: Receipt,
                             js: seq<Job>, at: nat, s1: State, t: State)
    requires q.msgType == NimiqTxReceipt && Unseen(s, q) && DecodeReceipt(q.payload) == Some(r)
    requires (from.Some? ==> heard.rateOk) && !IsNew(s.acked, GATEWAY_CACHE_CAP, r.txId)
    requires at < |s.acked| && s.acked[at] == r.txId
    requires s1 == Step(w, cfg, s, Receive(from, q, heard)) && t == Run(w, cfg, s1, js)
    requires forall i :: at < i < |t.acked| ==> t.acked[i] != r.txId
    ensures s1.acked == s.acked && s.acked <= t.acked
    ensures var n := |t.acked| - |s.acked|;
            !IsNew(t.acked, GATEWAY_CACHE_CAP, r.txId) <==> n <= GATEWAY_CACHE_CAP - (|s.acked| - at)
  {
    ReceiptFrameAcks(w, cfg, s, from, q, heard, r);
    RunGrows(w, cfg, s1, js);
    KnownExactlyInWindow(t.acked, GATEWAY_CACHE_CAP, at);
  }

  lemma KnownExactlyInWindow<K>(log: seq<K>, cap: nat, at: nat)
    requires at < |log| && forall i :: at < i < |log| ==> log[i] != log[at]
    ensures !IsNew(log, cap, log[at]) <==> |log| - at <= cap
  {
    if |log| - at <= cap {
      RememberedUntilEvicted(log, cap, at);
    } else {
      var window := LastN(log, cap);
      forall i | 0 <= i < |window| ensures window[i] != log[at] {
        assert window[i] == log[|log| - |window| + i];
      }
    }
  }

  /** The failing input: a full ack window, its oldest txId acked again, then one new ack. The repeated txId
      is forgotten, so nothing but the other gates keeps its transaction away. */
  lemma RepeatedReceiptIsForgotten(w: World, s: State, again: Packet, other: Packet, src: Option<Peer>, ch: Choice,
                                   r: Receipt, o: Receipt)
    requires |s.acked| >= GATEWAY_CACHE_CAP && Spaced(s.acked, GATEWAY_CACHE_CAP)
    requires r.txId == LastN(s.acked, GATEWAY_CACHE_CAP)[0] && IsNew(s.acked, GATEWAY_CACHE_CAP, o.txId)
    requires Unseen(s, again) && DecodeReceipt(again.payload) == Some(r)
    requires var s1 := HandleReceipt(w, s, again, src, ch);
             Unseen(s1, other) && DecodeReceipt(other.payload) == Some(o)
    ensures var s1 := HandleReceipt(w, s, again, src, ch);
            IsNew(HandleReceipt(w, s1, other, src, ch).acked, GATEWAY_CACHE_CAP, r.txId)
  {
    HandleReceiptAcks(w, s, again, src, ch, r);
    HandleReceiptAcks(w, HandleReceipt(w, s, again, src, ch), other, src, ch, o);
    ReofferingDoesNotRefresh(s.acked, GATEWAY_CACHE_CAP, o.txId);
  }

  // ----- two ledgers, one payment -----

  /** All frames are receipts for `id`. */
  predicate ReceiptsFor(fs: seq<Packet>, id: E.TxId) {
    forall p :: p in fs ==>
      p.msgType == NimiqTxReceipt && DecodeReceipt(p.payload).Some? && DecodeReceipt(p.payload).value.txId == id
  }

  function VerdictIn(p: Packet): PaymentStatus
    requires DecodeReceipt(p.payload).Some?
  {
    PaymentOf(DecodeReceipt(p.payload).value.status)
  }

  /** The node waits for `id` and has seen none of the frames. */
  predicate Awaits(s: State, id: E.TxId, fs: seq<Packet>) {
    id in s.ledger && s.ledger[id].status == Pending && forall p :: p in fs ==> Unseen(s, p)
  }

  function StatusOf(s: State, id: E.TxId): Option<PaymentStatus> {
    if id in s.ledger then Some(s.ledger[id].status) else None
  }

  lemma ReceiptArrives(w: World, cfg: Config, s: State, a: Arrival, id: E.TxId)
    requires LetIn(a) && ReceiptsFor([a.packet], id)
    ensures var t := Step(w, cfg, s, Receive(a.src, a.packet, a.ch));
            StatusOf(t, id) == if StatusOf(s, id) == Some(Pending) && Unseen(s, a.packet) then Some(VerdictIn(a.packet))
                               else StatusOf(s, id)
  {
    var p := a.packet;
    assert p in [p];
    var r := DecodeReceipt(p.payload).value;
    ReceiptFrameIs(w, cfg, s, a.src, p, a.ch);
    assert KeyOf(Unwrapped(p)) == KeyOf(p);
    if Unseen(s, p) {
      HandleReceiptIs(w, s, Unwrapped(p), None, a.ch, r);
      HandleReceiptIs(w, s, p, a.src, a.ch, r);
      SettleExactly(s.ledger, id, PaymentOf(r.status), id);
    }
  }

  lemma RunJobs(w: World, cfg: Config, s: State, ds: seq<Arrival>)
    requires ds != []
    ensures var init, a := ds[..|ds| - 1], ds[|ds| - 1];
            Run(w, cfg, s, Jobs(ds)) == Step(w, cfg, Run(w, cfg, s, Jobs(init)), Receive(a.src, a.packet, a.ch))
  {
    assert Jobs(ds)[..|ds| - 1] == Jobs(ds[..|ds| - 1]);
  }

  /** The receipt handled first decides, and no later one changes anything. */
  lemma {:induction false} FirstReceiptDecides(w: World, cfg: Config, s: State, ds: seq<Arrival>,
                                               fs: seq<Packet>, id: E.TxId)
    requires Awaits(s, id, fs) && ReceiptsFor(fs, id) && AllLetIn(ds) && AllFrom(Packets(ds), fs) && ds != []
    ensures ds[0].packet in fs && StatusOf(Run(w, cfg, s, Jobs(ds)), id) == Some(VerdictIn(ds[0].packet))
    decreases |ds|
  {
    var init, a := ds[..|ds| - 1], ds[|ds| - 1];
    AllFromInit(ds, fs);
    RunJobs(w, cfg, s, ds);
    ReceiptArrives(w, cfg, Run(w, cfg, s, Jobs(init)), a, id);
    if |ds| == 1 {
      assert Jobs(init) == [];
    } else {
      FirstReceiptDecides(w, cfg, s, init, fs, id);
    }
  }

  /** Any two nodes waiting for the payment and given exactly these receipts close it the same way. */
  ghost predicate LedgersAgree(w: World, id: E.TxId, fs: seq<Packet>) {
    forall c: Config, d: Config, s: State, t: State, ds: seq<Arrival>, es: seq<Arrival> ::
      Awaits(s, id, fs) && Awaits(t, id, fs) && Delivers(ds, fs) && Delivers(es, fs) ==>
      StatusOf(Run(w, c, s, Jobs(ds)), id) == StatusOf(Run(w, d, t, Jobs(es)), id)
  }

  ghost predicate SameVerdicts(fs: seq<Packet>, id: E.TxId)
    requires ReceiptsFor(fs, id)
  {
    forall p, q :: p in fs && q in fs ==> VerdictIn(p) == VerdictIn(q)
  }

  lemma DeliveredFrom(ds: seq<Arrival>, fs: seq<Packet>)
    requires Delivers(ds, fs) && fs != []
    ensures ds != [] && AllFrom(Packets(ds), fs)
  {
    assert fs[0] in fs;
  }

  function Waiting(id: E.TxId): State { Init(0).(ledger := map[id := Tracked(Pending, Outgoing)]) }

  lemma ReceiptFirst(w: World, id: E.TxId, fs: seq<Packet>, p: Packet)
    requires ReceiptsFor(fs, id) && p in fs
    ensures Delivers(ArriveAs([p] + fs), fs) && Awaits(Waiting(id), id, fs)
    ensures StatusOf(Run(w, SomeNode(0), Waiting(id), Jobs(ArriveAs([p] + fs))), id) == Some(VerdictIn(p))
  {
    ArriveDelivers(fs, [p] + fs);
    DeliveredFrom(ArriveAs([p] + fs), fs);
    FirstReceiptDecides(w, SomeNode(0), Waiting(id), ArriveAs([p] + fs), fs, id);
  }

  /** All ledgers agree, whatever the order, exactly when all the receipts say the same. */
  lemma LedgersAgreeIff(w: World, id: E.TxId, fs: seq<Packet>)
    requires ReceiptsFor(fs, id) && fs != []
    ensures LedgersAgree(w, id, fs) <==> SameVerdicts(fs, id)
  {
    if SameVerdicts(fs, id) {
      forall c: Config, d: Config, s: State, t: State, ds: seq<Arrival>, es: seq<Arrival>
        | Awaits(s, id, fs) && Awaits(t, id, fs) && Delivers(ds, fs) && Delivers(es, fs)
        ensures StatusOf(Run(w, c, s, Jobs(ds)), id) == StatusOf(Run(w, d, t, Jobs(es)), id)
      {
        DeliveredFrom(ds, fs);
        DeliveredFrom(es, fs);
        FirstReceiptDecides(w, c, s, ds, fs, id);
        FirstReceiptDecides(w, d, t, es, fs, id);
      }
    }
    if LedgersAgree(w, id, fs) {
      forall p, q | p in fs && q in fs ensures VerdictIn(p) == VerdictIn(q) {
        ReceiptFirst(w, id, fs, p);
        ReceiptFirst(w, id, fs, q);
      }
    }
  }

  /** The failing input: of an accepting and a refusing receipt each node keeps the one it handles first. */
  lemma TwoVerdictsDivide(w: World, id: E.TxId, yes: Packet, no: Packet)
    requires ReceiptsFor([yes, no], id) && yes in [yes, no] && no in [yes, no]
    requires VerdictIn(yes) == Settled && VerdictIn(no) == PaymentStatus.Failed
    ensures var s := Waiting(id);
            && StatusOf(Run(w, SomeNode(0), s, Jobs(ArriveAs([yes] + [yes, no]))), id) == Some(Settled)
            && StatusOf(Run(w, SomeNode(0), s, Jobs(ArriveAs([no] + [yes, no]))), id) == Some(PaymentStatus.Failed)
  {
    ReceiptFirst(w, id, [yes, no], yes);
    ReceiptFirst(w, id, [yes, no], no);
  }
}
