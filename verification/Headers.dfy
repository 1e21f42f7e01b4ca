/** The sequence number a node writes into the header of what it originates: exactly which jobs take one, and
    when two packets of its own can share a relay key. */
module Headers {
  import opened Bytes
  import opened Packet
  import opened Dedup
  import opened Settlement
  import opened Beacon
  import opened Engine
  import opened Duties
  import opened Origination
  import opened Landing
  import E = Envelope
  import B = Balance

  const CYCLE: nat := 0x1_0000_0000_0000_0000

  /** A frame makes the node originate a packet: the receipt of a submission that got a verdict, or the answer to
      a balance query. */
  predicate Replies(w: World, cfg: Config, s: State, p: Packet, ch: Choice) {
    || (p.msgType == NimiqTx && MaySubmit(w, cfg, s, p) && ch.submit.Some?)
    || (p.msgType == NimiqBalanceQuery && cfg.isGateway && Unseen(s, p) && B.DecodeQuery(p.payload).Some?
        && ch.balance.Some?)
  }

  /** The job makes the node originate a packet. */
  predicate Originates(w: World, cfg: Config, s: State, j: Job) {
    match j
    case Receive(src, p, ch) => (src.Some? ==> ch.rateOk) && Replies(w, cfg, s, p, ch)
    case SubmitTx(wire, _) => |wire| <= 255
    case QueryBalance(_, _) => true
    case SyncNow(_) => true
    case PollBeacon(poll) => cfg.isGateway && Emits(s.uplink, poll).Some?
    case _ => false
  }

  function Count(b: bool): nat { if b then 1 else 0 }

  /** The counter after `k` increments. */
  function Advanced(n: u64, k: nat): u64 {
    if k == 0 then n else if Advanced(n, k - 1) == U64_MAX then 0 else Advanced(n, k - 1) + 1
  }

  lemma {:induction false} AdvancedIs(n: u64, k: nat)
    ensures Advanced(n, k) == (n + k) % 0x1_0000_0000_0000_0000
  {
    if k > 0 {
      AdvancedIs(n, k - 1);
    }
  }

  lemma TakeIs(s: State)
    ensures TakeSeq(s).nextSeq == Advanced(s.nextSeq, 1)
  {
    assert Advanced(s.nextSeq, 0) == s.nextSeq;
  }

  lemma SubmitTakes(w: World, cfg: Config, s: State, e: E.NimiqEnvelope, ch: Choice)
    ensures Submit(w, cfg, s, e, ch).nextSeq ==
            if IsNew(s.gatewaySeen, GATEWAY_CACHE_CAP, TxIdIn(w, e)) && ch.submit.Some? then TakeSeq(s).nextSeq
            else s.nextSeq
  {
  }

  lemma CarryTakes(w: World, cfg: Config, s: State, p: Packet, src: Option<Peer>, at: nat, ch: Choice)
    ensures var env, s1 := E.Decoded(p.payload), Remember(w, s, p, ch.now);
            CarryTx(w, cfg, s, p, src, at, ch).nextSeq ==
            if cfg.isGateway && env.Ok? then Submit(w, cfg, s1, env.value, ch).nextSeq else s.nextSeq
  {
  }

  lemma RefusedTakes(w: World, cfg: Config, s: State, p: Packet, src: Option<Peer>, ch: Choice)
    requires !Unseen(s, p) || TxRefused(w, cfg, MarkSeen(s, p), p)
    ensures HandleTx(w, cfg, s, p, src, ch).nextSeq == s.nextSeq
  {
  }

  lemma PassedTakes(w: World, cfg: Config, s: State, p: Packet, src: Option<Peer>, ch: Choice, s1: State)
    requires Unseen(s, p) && s1 == MarkSeen(s, p) && !TxRefused(w, cfg, s1, p)
    ensures HandleTx(w, cfg, s, p, src, ch) == CarryTx(w, cfg, s1, p, src, |s.relaySeen|, ch)
  {
  }

  lemma CarrySubmits(w: World, cfg: Config, s: State, p: Packet, src: Option<Peer>, at: nat, ch: Choice,
                     e: E.NimiqEnvelope, s1: State)
    requires cfg.isGateway && E.Decoded(p.payload) == Ok(e) && s1 == Remember(w, s, p, ch.now)
    ensures CarryTx(w, cfg, s, p, src, at, ch).nextSeq == Submit(w, cfg, s1, e, ch).nextSeq
  {
  }

  lemma GatewayCarries(w: World, cfg: Config, s: State, p: Packet, src: Option<Peer>, at: nat, ch: Choice,
                       e: E.NimiqEnvelope)
    requires cfg.isGateway && E.Decoded(p.payload) == Ok(e)
    ensures CarryTx(w, cfg, s, p, src, at, ch).nextSeq ==
            if IsNew(s.gatewaySeen, GATEWAY_CACHE_CAP, TxIdIn(w, e)) && ch.submit.Some? then TakeSeq(s).nextSeq
            else s.nextSeq
  {
    var s1 := Remember(w, s, p, ch.now);
    CarrySubmits(w, cfg, s, p, src, at, ch, e, s1);
    SubmitTakes(w, cfg, s1, e, ch);
  }

  lemma OthersCarry(w: World, cfg: Config, s: State, p: Packet, src: Option<Peer>, at: nat, ch: Choice)
    requires !(cfg.isGateway && E.Decoded(p.payload).Ok?)
    ensures CarryTx(w, cfg, s, p, src, at, ch).nextSeq == s.nextSeq
  {
    CarryTakes(w, cfg, s, p, src, at, ch);
  }

  /** Past the gates, a gateway's verdict on a readable transaction that is new to it takes a number. */
  predicate Reports(w: World, cfg: Config, s: State, p: Packet, ch: Choice) {
    cfg.isGateway && ch.submit.Some? && E.Decoded(p.payload).Ok?
    && IsNew(s.gatewaySeen, GATEWAY_CACHE_CAP, TxIdIn(w, E.Decoded(p.payload).value))
  }

  lemma CarriedTakes(w: World, cfg: Config, s: State, p: Packet, src: Option<Peer>, at: nat, ch: Choice)
    ensures CarryTx(w, cfg, s, p, src, at, ch).nextSeq ==
            if Reports(w, cfg, s, p, ch) then TakeSeq(s).nextSeq else s.nextSeq
  {
    if cfg.isGateway && E.Decoded(p.payload).Ok? {
      GatewayCarries(w, cfg, s, p, src, at, ch, E.Decoded(p.payload).value);
    } else {
      OthersCarry(w, cfg, s, p, src, at, ch);
    }
  }

  lemma PassedReports(w: World, cfg: Config, s: State, p: Packet, src: Option<Peer>, ch: Choice)
    requires Unseen(s, p) && !TxRefused(w, cfg, s, p)
    ensures HandleTx(w, cfg, s, p, src, ch).nextSeq ==
            if Reports(w, cfg, s, p, ch) then TakeSeq(s).nextSeq else s.nextSeq
  {
    var s1 := MarkSeen(s, p);
    GatesIgnoreTheHeader(w, cfg, s, p);
    PassedTakes(w, cfg, s, p, src, ch, s1);
    CarriedTakes(w, cfg, s1, p, src, |s.relaySeen|, ch);
  }

  lemma TxTakes(w: World, cfg: Config, s: State, p: Packet, src: Option<Peer>, ch: Choice)
    ensures HandleTx(w, cfg, s, p, src, ch).nextSeq ==
            if MaySubmit(w, cfg, s, p) && ch.submit.Some? then TakeSeq(s).nextSeq else s.nextSeq
  {
    if !Unseen(s, p) || TxRefused(w, cfg, s, p) {
      GatesIgnoreTheHeader(w, cfg, s, p);
      RefusedTakes(w, cfg, s, p, src, ch);
    } else {
      PassedReports(w, cfg, s, p, src, ch);
      assert Reports(w, cfg, s, p, ch) <==> MaySubmit(w, cfg, s, p) && ch.submit.Some?;
    }
  }

  lemma AnswerTakes(w: World, cfg: Config, s: State, p: Packet, ch: Choice)
    ensures AfterAnswer(w, cfg, s, p, ch).nextSeq ==
            if cfg.isGateway && B.DecodeQuery(p.payload).Some? && ch.balance.Some? then TakeSeq(s).nextSeq
            else s.nextSeq
  {
  }

  lemma QueryTakes(w: World, cfg: Config, s: State, p: Packet, src: Option<Peer>, ch: Choice)
    ensures HandleBalanceQuery(w, cfg, s, p, src, ch).nextSeq ==
            if cfg.isGateway && Unseen(s, p) && B.DecodeQuery(p.payload).Some? && ch.balance.Some?
            then TakeSeq(s).nextSeq else s.nextSeq
  {
    if Unseen(s, p) {
      var s1 := Remember(w, MarkSeen(s, p), p, ch.now);
      QueryEnds(w, cfg, s, p, src, ch);
      AnswerTakes(w, cfg, s1, p, ch);
      assert HandleBalanceQuery(w, cfg, s, p, src, ch).nextSeq == AfterAnswer(w, cfg, s1, p, ch).nextSeq;
    } else {
      assert HandleBalanceQuery(w, cfg, s, p, src, ch) == s;
    }
  }

  lemma OthersTakeNothing(w: World, cfg: Config, s: State, p: Packet, src: Option<Peer>, ch: Choice)
    requires p.msgType != NimiqTx && p.msgType != NimiqBalanceQuery
    ensures Dispatch(w, cfg, s, p, src, ch).nextSeq == s.nextSeq
  {
  }

  lemma DispatchTakes(w: World, cfg: Config, s: State, p: Packet, src: Option<Peer>, ch: Choice)
    ensures Dispatch(w, cfg, s, p, src, ch).nextSeq == Advanced(s.nextSeq, Count(Replies(w, cfg, s, p, ch)))
  {
    TakeIs(s);
    if p.msgType == NimiqTx {
      TxTakes(w, cfg, s, p, src, ch);
      assert Dispatch(w, cfg, s, p, src, ch) == HandleTx(w, cfg, s, p, src, ch);
    } else if p.msgType == NimiqBalanceQuery {
      QueryTakes(w, cfg, s, p, src, ch);
      assert Dispatch(w, cfg, s, p, src, ch) == HandleBalanceQuery(w, cfg, s, p, src, ch);
    } else {
      OthersTakeNothing(w, cfg, s, p, src, ch);
    }
  }

  lemma SameReplies(w: World, cfg: Config, s: State, p: Packet, ch: Choice)
    ensures Replies(w, cfg, s, Unwrapped(p), ch) <==> Replies(w, cfg, s, p, ch)
  {
    assert KeyOf(Unwrapped(p)) == KeyOf(p);
  }

  lemma FrameTakes(w: World, cfg: Config, s: State, src: Option<Peer>, p: Packet, ch: Choice)
    ensures Inbound(w, cfg, s, src, p, ch).nextSeq ==
            Advanced(s.nextSeq, Count((src.Some? ==> ch.rateOk) && Replies(w, cfg, s, p, ch)))
  {
    TakeIs(s);
    if src.Some? && !ch.rateOk {
    } else if p.flags.isRsr {
      SameReplies(w, cfg, s, p, ch);
      DispatchTakes(w, cfg, s, Unwrapped(p), None, ch);
    } else if p.msgType != RequestSync {
      DispatchTakes(w, cfg, s, p, src, ch);
    }
  }

  lemma PaymentTakes(w: World, cfg: Config, s: State, wire: seq<byte>, now: u64)
    ensures LocalTx(w, cfg, s, wire, now).nextSeq == if |wire| <= 255 then TakeSeq(s).nextSeq else s.nextSeq
  {
    if |wire| <= 255 {
      LocalEnvelopeIsOwn(w, cfg, s, wire);
      var e := LocalEnvelope(w, cfg, s, wire);
      var payload := E.Encoded(e).value;
      assert LocalTx(w, cfg, s, wire, now) == CarryLocal(w, cfg, s, wire, e.validUntil, payload, now);
    } else {
      LongWireIsRefused(w, cfg, s, wire, now);
    }
  }

  lemma {:induction false} RetryTakesNothing(s: State, k: nat, now: u64)
    requires k <= |s.pending|
    ensures Retried(s, k, now).nextSeq == s.nextSeq
    decreases k
  {
    if k > 0 {
      RetryTakesNothing(s, k - 1, now);
    }
  }

  /** A job takes one sequence number if it originates a packet and none otherwise. */
  lemma StepTakes(w: World, cfg: Config, s: State, j: Job)
    ensures Step(w, cfg, s, j).nextSeq == Advanced(s.nextSeq, Count(Originates(w, cfg, s, j)))
  {
    TakeIs(s);
    match j
    case Receive(src, p, ch) => FrameTakes(w, cfg, s, src, p, ch);
    case SubmitTx(wire, at) => PaymentTakes(w, cfg, s, wire, at);
    case Retry(at) =>
      var live := s.(ledger := FailDead(s.ledger, s.pending, HeadHeight(s), at),
                     pending := LivePending(s.pending, HeadHeight(s), at));
      RetryTakesNothing(live, |live.pending|, at);
    case _ =>
  }

  /** How many packets the jobs make a node originate. */
  function Originated(w: World, cfg: Config, s: State, js: seq<Job>): (n: nat)
    ensures n <= |js|
    decreases |js|
  {
    if js == [] then 0
    else
      var init := js[..|js| - 1];
      Originated(w, cfg, s, init) + Count(Originates(w, cfg, Run(w, cfg, s, init), js[|js| - 1]))
  }

  lemma {:induction false} AdvancedTwice(n: u64, k: nat, t: u64, m: nat)
    requires t == Advanced(n, k)
    ensures Advanced(t, m) == Advanced(n, k + m)
    decreases m
  {
    if m > 0 {
      AdvancedTwice(n, k, t, m - 1);
    }
  }

  lemma LastTakes(w: World, cfg: Config, s: State, init: seq<Job>, j: Job, t: State)
    requires t == Run(w, cfg, s, init)
    ensures Originated(w, cfg, s, init + [j]) == Originated(w, cfg, s, init) + Count(Originates(w, cfg, t, j))
    ensures Run(w, cfg, s, init + [j]) == Step(w, cfg, t, j)
  {
    assert (init + [j])[..|init|] == init;
  }

  lemma LastAdvances(w: World, cfg: Config, s: State, init: seq<Job>, j: Job, t: State) returns (taken: nat)
    requires t == Run(w, cfg, s, init)
    ensures Originated(w, cfg, s, init + [j]) == Originated(w, cfg, s, init) + taken
    ensures Run(w, cfg, s, init + [j]).nextSeq == Advanced(t.nextSeq, taken)
  {
    taken := Count(Originates(w, cfg, t, j));
    LastTakes(w, cfg, s, init, j, t);
    StepTakes(w, cfg, t, j);
  }

  /** `ns` are readings of a counter and `ks` how often it was incremented up to each. */
  ghost predicate Counted(ns: seq<u64>, ks: seq<nat>) {
    && |ns| == |ks| > 0 && ks[0] == 0
    && forall i :: 0 < i < |ns| ==> ks[i - 1] <= ks[i] && ns[i] == Advanced(ns[i - 1], ks[i] - ks[i - 1])
  }

  lemma {:induction false} CountsUp(ns: seq<u64>, ks: seq<nat>, i: nat)
    requires Counted(ns, ks) && i < |ns|
    ensures ns[i] == Advanced(ns[0], ks[i])
  {
    if i > 0 {
      CountsUp(ns, ks, i - 1);
      AdvancedTwice(ns[0], ks[i - 1], ns[i - 1], ks[i] - ks[i - 1]);
    }
  }

  lemma AnotherReading(ns: seq<u64>, ks: seq<nat>, n: u64, taken: nat) returns (ns': seq<u64>, ks': seq<nat>)
    requires Counted(ns, ks) && n == Advanced(ns[|ns| - 1], taken)
    ensures Counted(ns', ks') && ns'[0] == ns[0] && ns'[|ns'| - 1] == n && ks'[|ks'| - 1] == ks[|ks| - 1] + taken
  {
    ns', ks' := ns + [n], ks + [ks[|ks| - 1] + taken];
  }

  /** `ns` and `ks` are readings up to the end of the run. */
  ghost predicate ReadTo(w: World, cfg: Config, s: State, js: seq<Job>, ns: seq<u64>, ks: seq<nat>) {
    && Counted(ns, ks) && ns[0] == s.nextSeq
    && ns[|ns| - 1] == Run(w, cfg, s, js).nextSeq && ks[|ks| - 1] == Originated(w, cfg, s, js)
  }

  lemma ReadOneMore(w: World, cfg: Config, s: State, init: seq<Job>, j: Job, ns: seq<u64>, ks: seq<nat>)
    returns (ns': seq<u64>, ks': seq<nat>)
    requires ReadTo(w, cfg, s, init, ns, ks)
    ensures ReadTo(w, cfg, s, init + [j], ns', ks')
  {
    var t := Run(w, cfg, s, init);
    var taken := LastAdvances(w, cfg, s, init, j, t);
    ns', ks' := AnotherReading(ns, ks, Run(w, cfg, s, init + [j]).nextSeq, taken);
  }

  lemma {:induction false} Readings(w: World, cfg: Config, s: State, js: seq<Job>) returns (ns: seq<u64>, ks: seq<nat>)
    ensures ReadTo(w, cfg, s, js, ns, ks)
    decreases |js|
  {
    if js == [] {
      ns, ks := [s.nextSeq], [0];
    } else {
      ns, ks := Readings(w, cfg, s, js[..|js| - 1]);
      ns, ks := ReadOneMore(w, cfg, s, js[..|js| - 1], js[|js| - 1], ns, ks);
      assert js[..|js| - 1] + [js[|js| - 1]] == js;
    }
  }

  /** Over every run the sequence number has advanced by exactly the packets originated. */
  lemma SequenceCounts(w: World, cfg: Config, s: State, js: seq<Job>)
    ensures Run(w, cfg, s, js).nextSeq == Advanced(s.nextSeq, Originated(w, cfg, s, js))
  {
    var ns, ks := Readings(w, cfg, s, js);
    CountsUp(ns, ks, |ns| - 1);
  }

  /** A packet of the node's own under the sequence number the state would use next. */
  predicate OwnHeader(cfg: Config, s: State, x: Packet) {
    x.senderId == cfg.senderId && x.timestampMs == s.nextSeq
  }

  lemma TypeBytesDiffer(a: MessageType, b: MessageType)
    ensures TypeByte(a) == TypeByte(b) <==> a == b
  {
    assert TypeOf(TypeByte(a)) == Some(a) && TypeOf(TypeByte(b)) == Some(b);
  }

  lemma KeysApart(x: Packet, y: Packet, n: nat)
    requires x.senderId == y.senderId && y.timestampMs == Advanced(x.timestampMs, n)
    ensures KeyOf(x) == KeyOf(y) <==> x.msgType == y.msgType && n % 0x1_0000_0000_0000_0000 == 0
    ensures 0 < n < 0x1_0000_0000_0000_0000 ==> KeyOf(x) != KeyOf(y)
  {
    TypeBytesDiffer(x.msgType, y.msgType);
    ComesBackIff(x.timestampMs, n);
    SmallIsNoCycle(n);
  }

  /** Two packets of a node's own, with `n` of them originated from the first up to the second, have the same
      relay key exactly when they are of one type and `n` is a multiple of 2^64. */
  lemma OwnKeysRepeatIff(w: World, cfg: Config, s: State, js: seq<Job>, x: Packet, y: Packet, n: nat)
    requires OwnHeader(cfg, s, x) && OwnHeader(cfg, Run(w, cfg, s, js), y) && n == Originated(w, cfg, s, js)
    ensures KeyOf(x) == KeyOf(y) <==> x.msgType == y.msgType && n % 0x1_0000_0000_0000_0000 == 0
  {
    SequenceCounts(w, cfg, s, js);
    KeysApart(x, y, n);
  }

  lemma {:induction false} FirstCounts(w: World, cfg: Config, s: State, js: seq<Job>)
    requires js != [] && Originates(w, cfg, s, js[0])
    ensures Originated(w, cfg, s, js) >= 1
    decreases |js|
  {
    if |js| == 1 {
      assert js[..0] == [];
    } else {
      assert js[..|js| - 1][0] == js[0];
      FirstCounts(w, cfg, s, js[..|js| - 1]);
    }
  }

  /** So a packet a node originates shares its key with none it originates in the 2^64 - 1 jobs from there on,
      and whoever remembers the one does not take the other for a copy. */
  lemma OwnKeysAreFresh(w: World, cfg: Config, s: State, js: seq<Job>, x: Packet, y: Packet)
    requires js != [] && Originates(w, cfg, s, js[0]) && |js| < 0x1_0000_0000_0000_0000
    requires OwnHeader(cfg, s, x) && OwnHeader(cfg, Run(w, cfg, s, js), y)
    ensures KeyOf(x) != KeyOf(y)
  {
    FirstCounts(w, cfg, s, js);
    SequenceCounts(w, cfg, s, js);
    KeysApart(x, y, Originated(w, cfg, s, js));
  }

  lemma SmallIsNoCycle(k: nat)
    ensures 0 < k < CYCLE ==> k % CYCLE != 0
  {
  }

  lemma ComesBackIff(n: u64, k: nat)
    ensures Advanced(n, k) == n <==> k % CYCLE == 0
  {
    AdvancedIs(n, k);
    SumComesBackIff(n, k / CYCLE, k % CYCLE);
  }

  lemma SumComesBackIff(n: u64, q: nat, r: nat)
    requires r < CYCLE
    ensures (n + (q * CYCLE + r)) % CYCLE == n <==> r == 0
  {
    assert (n + (q * CYCLE + r)) % CYCLE == (n + r) % CYCLE;
  }
}
