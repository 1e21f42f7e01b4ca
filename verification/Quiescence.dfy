/** Flooding dies out. Without new local jobs, every delivery schedule from any state of the network
    is at most as long as a number computed from the frames in flight, even if nodes keep forgetting
    what they have seen and links keep changing.

    A frame weighs one more than everything its delivery can put in flight. */
module Quiescence {
  import opened Bytes
  import opened Packet
  import opened Settlement
  import opened Engine
  import opened Network
  import E = Envelope
  import B = Balance

  /** The types whose handling at a gateway may start another flood. */
  predicate Triggers(t: MessageType) { t == NimiqTx || t == NimiqBalanceQuery }

  /** The cost of sending something of cost `n` over every one of `d` links. */
  function Fan(d: nat, n: nat): nat { d * n }

  /** The weight of a packet that is only relayed, in a network of degree at most `d`. */
  function Plain(d: nat, ttl: byte): (n: nat)
    ensures n >= 1
    decreases ttl
  {
    match RelayedTtl(ttl)
    case None => 1
    case Some(t) => 1 + Fan(d, Plain(d, t))
  }

  /** The weight of a packet that may also trigger one flood of plain packets. */
  function Triggering(d: nat, ttl: byte): (n: nat)
    ensures n >= 1
    decreases ttl
  {
    var answer := 1 + Fan(d, Plain(d, DEFAULT_TTL));
    match RelayedTtl(ttl)
    case None => answer
    case Some(t) => answer + Fan(d, Triggering(d, t))
  }

  function Handled(d: nat, ty: MessageType, ttl: byte): (n: nat)
    ensures n >= 1
  {
    if Triggers(ty) then Triggering(d, ttl) else Plain(d, ttl)
  }

  /** A catch-up reply is handled with no hops left; a sync request may bring back a whole cache. */
  function Weight(d: nat, p: Packet): (n: nat)
    ensures n >= 1
  {
    if p.flags.isRsr then Handled(d, p.msgType, 0)
    else if p.msgType == RequestSync then 1 + RECENT_CACHE_CAP * Triggering(d, 0)
    else Handled(d, p.msgType, p.ttl)
  }

  function SendsWeight(d: nat, out: seq<Send>): nat {
    if out == [] then 0 else SendsWeight(d, out[..|out| - 1]) + Weight(d, out[|out| - 1].packet)
  }

  function Total(d: nat, fs: seq<Frame>): nat {
    if fs == [] then 0 else Total(d, fs[..|fs| - 1]) + Weight(d, fs[|fs| - 1].packet)
  }

  // ----- sums -----

  lemma {:induction false} SendsWeightAppend(d: nat, a: seq<Send>, b: seq<Send>)
    ensures SendsWeight(d, a + b) == SendsWeight(d, a) + SendsWeight(d, b)
    decreases |b|
  {
    if b == [] {
      assert a + b == a;
    } else {
      assert (a + b)[..|a + b| - 1] == a + b[..|b| - 1];
      SendsWeightAppend(d, a, b[..|b| - 1]);
    }
  }

  /** Sends of weight at most `m` each. */
  lemma {:induction false} SendsWeightBound(d: nat, out: seq<Send>, m: nat)
    requires forall x :: x in out ==> Weight(d, x.packet) <= m
    ensures SendsWeight(d, out) <= |out| * m
    decreases |out|
  {
    if out != [] {
      SendsWeightBound(d, out[..|out| - 1], m);
      assert out[|out| - 1] in out;
      assert |out| * m == (|out| - 1) * m + m;
    }
  }

  lemma MulMono(a: nat, b: nat, m: nat)
    requires a <= b
    ensures a * m <= b * m
  {
  }

  /** Flooding one packet to at most `d` peers. */
  lemma FloodWeight(d: nat, peers: seq<Peer>, p: Packet, exclude: Option<Peer>)
    requires |peers| <= d
    ensures SendsWeight(d, Sends(peers, p, exclude)) <= Fan(d, Weight(d, p))
  {
    var out := Sends(peers, p, exclude);
    SendsWeightBound(d, out, Weight(d, p));
    MulMono(|out|, d, Weight(d, p));
  }

  lemma {:induction false} TotalAppend(d: nat, a: seq<Frame>, b: seq<Frame>)
    ensures Total(d, a + b) == Total(d, a) + Total(d, b)
    decreases |b|
  {
    if b == [] {
      assert a + b == a;
    } else {
      assert (a + b)[..|a + b| - 1] == a + b[..|b| - 1];
      TotalAppend(d, a, b[..|b| - 1]);
    }
  }

  lemma TotalWithout(d: nat, fs: seq<Frame>, i: nat)
    requires i < |fs|
    ensures Total(d, fs) == Total(d, Without(fs, i)) + Weight(d, fs[i].packet)
  {
    var pre, one, post := fs[..i], [fs[i]], fs[i + 1..];
    assert fs == pre + one + post;
    TotalAppend(d, pre + one, post);
    TotalAppend(d, pre, one);
    TotalAppend(d, pre, post);
    assert one[..0] == [];
    assert Total(d, one) == Weight(d, fs[i].packet);
  }

  lemma {:induction false} FramesWeight(d: nat, n: Peer, out: seq<Send>)
    ensures Total(d, Frames(n, out)) == SendsWeight(d, out)
    decreases |out|
  {
    if out != [] {
      FramesWeight(d, n, out[..|out| - 1]);
      assert Frames(n, out)[..|out| - 1] == Frames(n, out[..|out| - 1]);
    }
  }

  // ----- what one delivery puts in flight -----

  /** The node's outbox grew by sends of total weight at most `budget`, and its links are the same. */
  ghost predicate Spends(d: nat, s: State, s': State, budget: nat) {
    && s'.peers == s.peers
    && s.outbox <= s'.outbox
    && SendsWeight(d, s'.outbox[|s.outbox|..]) <= budget
  }

  lemma SpendNothing(d: nat, s: State, s': State)
    requires s'.peers == s.peers && s'.outbox == s.outbox
    ensures Spends(d, s, s', 0)
  {
    assert s'.outbox[|s.outbox|..] == [];
  }

  lemma SpendInTurn(d: nat, s0: State, s1: State, s2: State, a: nat, b: nat)
    requires Spends(d, s0, s1, a) && Spends(d, s1, s2, b)
    ensures Spends(d, s0, s2, a + b)
  {
    var x, y := s1.outbox[|s0.outbox|..], s2.outbox[|s1.outbox|..];
    assert s2.outbox[|s0.outbox|..] == x + y;
    SendsWeightAppend(d, x, y);
  }

  lemma SpendsAtMost(d: nat, s: State, s': State, a: nat, b: nat)
    requires Spends(d, s, s', a) && a <= b
    ensures Spends(d, s, s', b)
  {
  }

  lemma FloodSpends(d: nat, s: State, p: Packet, exclude: Option<Peer>, budget: nat)
    requires |s.peers| <= d && budget == Fan(d, Weight(d, p))
    ensures Spends(d, s, Flood(s, p, exclude), budget)
  {
    var s' := Flood(s, p, exclude);
    if Encodable(p) {
      assert s'.outbox[|s.outbox|..] == Sends(s.peers, p, exclude);
      FloodWeight(d, s.peers, p, exclude);
    } else {
      SpendNothing(d, s, s');
      SpendsAtMost(d, s, s', 0, budget);
    }
  }

  /** What relaying `p` may cost. */
  ghost function RelayBudget(d: nat, p: Packet): nat {
    match RelayedTtl(p.ttl)
    case None => 0
    case Some(t) => Fan(d, Weight(d, p.(ttl := t)))
  }

  lemma RelaySpends(d: nat, s: State, p: Packet, src: Option<Peer>, at: nat, ch: Choice)
    requires |s.peers| <= d
    ensures Spends(d, s, RelayOnward(s, p, src, at, ch), RelayBudget(d, p))
  {
    var s' := RelayOnward(s, p, src, at, ch);
    if ch.relayOk && RelayedTtl(p.ttl).Some? && Encodable(p) {
      var q := p.(ttl := RelayedTtl(p.ttl).value);
      assert s'.outbox[|s.outbox|..] == Sends(s.peers, q, src);
      FloodWeight(d, s.peers, q, src);
    } else {
      SpendNothing(d, s, s');
    }
  }

  /** The cost of one flood that triggers nothing. */
  ghost function FreshFlood(d: nat): nat { Fan(d, Plain(d, DEFAULT_TTL)) }

  /** A node floods a packet of its own, of a type that triggers nothing. */
  lemma OwnFloodSpends(d: nat, s: State, s1: State, p: Packet)
    requires |s.peers| <= d && s1.peers == s.peers && s1.outbox == s.outbox
    requires !p.flags.isRsr && p.ttl == DEFAULT_TTL && !Triggers(p.msgType) && p.msgType != RequestSync
    ensures Spends(d, s, Flood(s1, p, None), FreshFlood(d))
  {
    FloodSpends(d, s1, p, None, FreshFlood(d));
    SpendNothing(d, s, s1);
    SpendInTurn(d, s, s1, Flood(s1, p, None), 0, FreshFlood(d));
  }

  lemma SubmitSpends(d: nat, w: World, cfg: Config, s: State, s1: State, e: E.NimiqEnvelope, ch: Choice)
    requires |s.peers| <= d && s1.peers == s.peers && s1.outbox == s.outbox
    ensures Spends(d, s, Submit(w, cfg, s1, e, ch), FreshFlood(d))
  {
    var id := TxIdIn(w, e);
    var s' := Submit(w, cfg, s1, e, ch);
    if s'.outbox == s.outbox {
      SpendNothing(d, s, s');
      SpendsAtMost(d, s, s', 0, FreshFlood(d));
    } else {
      var sub := Submission(|s1.gatewaySeen|, id, e.txWire, e.networkId, e.validUntil, ch.submit);
      var s2 := s1.(gatewaySeen := s1.gatewaySeen + [id], submissions := s1.submissions + [sub]);
      var reply := Built(cfg, s2, NimiqTxReceipt, EncodeReceipt(Receipt(id, ch.submit.value)));
      assert s' == Flood(MarkSeen(TakeSeq(s2), reply), reply, None);
      OwnFloodSpends(d, s, MarkSeen(TakeSeq(s2), reply), reply);
    }
  }

  lemma AnswerSpends(d: nat, w: World, cfg: Config, s: State, s1: State, address: B.Address, a: BalanceAnswer, now: u64)
    requires |s.peers| <= d && s1.peers == s.peers && s1.outbox == s.outbox
    ensures Spends(d, s, AnswerBalance(w, cfg, s1, address, a, now), FreshFlood(d))
  {
    var resp := B.BalanceResponse(address, a.balance, a.headHeight, a.networkId);
    var s2 := s1.(balances := B.ObserveBalance(cfg.network, s1.balances, resp));
    var reply := Built(cfg, s2, NimiqBalanceResponse, B.EncodeResponse(resp));
    OwnFloodSpends(d, s, Remember(w, MarkSeen(TakeSeq(s2), reply), reply, now), reply);
  }

  ghost predicate SpendsLess(d: nat, s: State, s': State, limit: nat)
  {
    && s'.peers == s.peers
    && s.outbox <= s'.outbox
    && SendsWeight(d, s'.outbox[|s.outbox|..]) < limit
  }

  /** The flood a handler may trigger before it relays. */
  ghost function TriggerBudget(d: nat, ty: MessageType): nat {
    if Triggers(ty) then FreshFlood(d) else 0
  }

  lemma BudgetsFit(d: nat, p: Packet)
    requires !p.flags.isRsr && (p.msgType != RequestSync || p.ttl == 0)
    ensures TriggerBudget(d, p.msgType) + RelayBudget(d, p) < Handled(d, p.msgType, p.ttl)
  {
  }

  /** Send at most one triggered flood, then relay: cheaper than the packet's weight. */
  lemma ThenRelay(d: nat, s: State, s1: State, p: Packet, src: Option<Peer>, at: nat, ch: Choice)
    requires |s.peers| <= d && Spends(d, s, s1, TriggerBudget(d, p.msgType))
    requires !p.flags.isRsr && (p.msgType != RequestSync || p.ttl == 0)
    ensures SpendsLess(d, s, RelayOnward(s1, p, src, at, ch), Handled(d, p.msgType, p.ttl))
  {
    RelaySpends(d, s1, p, src, at, ch);
    SpendInTurn(d, s, s1, RelayOnward(s1, p, src, at, ch), TriggerBudget(d, p.msgType), RelayBudget(d, p));
    BudgetsFit(d, p);
  }

  lemma CarrySpends(d: nat, w: World, cfg: Config, s: State, s1: State,
                    p: Packet, src: Option<Peer>, at: nat, ch: Choice)
    requires |s.peers| <= d && s1.peers == s.peers && s1.outbox == s.outbox
    requires p.msgType == NimiqTx && !p.flags.isRsr
    ensures SpendsLess(d, s, CarryTx(w, cfg, s1, p, src, at, ch), Handled(d, p.msgType, p.ttl))
  {
    var s2 := Remember(w, s1, p, ch.now);
    var env := E.Decoded(p.payload);
    if cfg.isGateway && env.Ok? {
      SubmitSpends(d, w, cfg, s, s2, env.value, ch);
      ThenRelay(d, s, Submit(w, cfg, s2, env.value, ch), p, src, at, ch);
    } else {
      SpendNothing(d, s, s2);
      ThenRelay(d, s, s2, p, src, at, ch);
    }
  }

  lemma HandleTxSpends(d: nat, w: World, cfg: Config, s: State, p: Packet, src: Option<Peer>, ch: Choice)
    requires |s.peers| <= d && p.msgType == NimiqTx && !p.flags.isRsr
    ensures SpendsLess(d, s, HandleTx(w, cfg, s, p, src, ch), Handled(d, p.msgType, p.ttl))
  {
    var s1 := MarkSeen(s, p);
    CarrySpends(d, w, cfg, s, s1, p, src, |s.relaySeen|, ch);
    SpendNothing(d, s, s);
    SpendNothing(d, s, s1);
  }

  lemma HandleBalanceQuerySpends(d: nat, w: World, cfg: Config, s: State, p: Packet, src: Option<Peer>, ch: Choice)
    requires |s.peers| <= d && p.msgType == NimiqBalanceQuery && !p.flags.isRsr
    ensures SpendsLess(d, s, HandleBalanceQuery(w, cfg, s, p, src, ch), Handled(d, p.msgType, p.ttl))
  {
    var s1 := Remember(w, MarkSeen(s, p), p, ch.now);
    var query := B.DecodeQuery(p.payload);
    if !Unseen(s, p) {
      SpendNothing(d, s, s);
    } else if cfg.isGateway && query.Some? && ch.balance.Some? {
      AnswerSpends(d, w, cfg, s, s1, query.value, ch.balance.value, ch.now);
      ThenRelay(d, s, AnswerBalance(w, cfg, s1, query.value, ch.balance.value, ch.now), p, src, |s.relaySeen|, ch);
    } else {
      SpendNothing(d, s, s1);
      ThenRelay(d, s, s1, p, src, |s.relaySeen|, ch);
    }
  }

  /** The handlers that only absorb, store and relay. */
  lemma AbsorbSpends(d: nat, s: State, s1: State, p: Packet, src: Option<Peer>, ch: Choice)
    requires |s.peers| <= d && !p.flags.isRsr && (p.msgType != RequestSync || p.ttl == 0)
    requires s1.peers == s.peers && s1.outbox == s.outbox
    ensures SpendsLess(d, s, RelayOnward(s1, p, src, |s.relaySeen|, ch), Handled(d, p.msgType, p.ttl))
    ensures SpendsLess(d, s, s, Handled(d, p.msgType, p.ttl))
  {
    SpendNothing(d, s, s);
    SpendNothing(d, s, s1);
    ThenRelay(d, s, s1, p, src, |s.relaySeen|, ch);
  }

  lemma HandleReceiptSpends(d: nat, w: World, s: State, p: Packet, src: Option<Peer>, ch: Choice)
    requires |s.peers| <= d && !p.flags.isRsr && (p.msgType != RequestSync || p.ttl == 0)
    ensures SpendsLess(d, s, HandleReceipt(w, s, p, src, ch), Handled(d, p.msgType, p.ttl))
  {
    AbsorbSpends(d, s, ApplyReceipt(Remember(w, MarkSeen(s, p), p, ch.now), p.payload), p, src, ch);
  }

  lemma HandleHeadBeaconSpends(d: nat, w: World, cfg: Config, s: State, p: Packet, src: Option<Peer>, ch: Choice)
    requires |s.peers| <= d && !p.flags.isRsr && (p.msgType != RequestSync || p.ttl == 0)
    ensures SpendsLess(d, s, HandleHeadBeacon(w, cfg, s, p, src, ch), Handled(d, p.msgType, p.ttl))
  {
    AbsorbSpends(d, s, Remember(w, AbsorbBeacon(cfg, MarkSeen(s, p), p.payload), p, ch.now), p, src, ch);
  }

  lemma HandleBalanceResponseSpends(d: nat, w: World, cfg: Config, s: State, p: Packet, src: Option<Peer>, ch: Choice)
    requires |s.peers| <= d && !p.flags.isRsr && (p.msgType != RequestSync || p.ttl == 0)
    ensures SpendsLess(d, s, HandleBalanceResponse(w, cfg, s, p, src, ch), Handled(d, p.msgType, p.ttl))
  {
    AbsorbSpends(d, s, Remember(w, AbsorbBalance(cfg, MarkSeen(s, p), p.payload), p, ch.now), p, src, ch);
  }

  lemma HandleOpaqueSpends(d: nat, w: World, s: State, p: Packet, src: Option<Peer>, ch: Choice)
    requires |s.peers| <= d && !p.flags.isRsr && (p.msgType != RequestSync || p.ttl == 0)
    ensures SpendsLess(d, s, HandleOpaque(w, s, p, src, ch), Handled(d, p.msgType, p.ttl))
  {
    AbsorbSpends(d, s, Remember(w, MarkSeen(s, p), p, ch.now), p, src, ch);
  }

  lemma DispatchSpends(d: nat, w: World, cfg: Config, s: State, p: Packet, src: Option<Peer>, ch: Choice)
    requires |s.peers| <= d && !p.flags.isRsr && (p.msgType != RequestSync || p.ttl == 0)
    ensures SpendsLess(d, s, Dispatch(w, cfg, s, p, src, ch), Handled(d, p.msgType, p.ttl))
  {
    if p.msgType == NimiqTx {
      HandleTxSpends(d, w, cfg, s, p, src, ch);
    } else if p.msgType == NimiqBalanceQuery {
      HandleBalanceQuerySpends(d, w, cfg, s, p, src, ch);
    } else if p.msgType == NimiqTxReceipt {
      HandleReceiptSpends(d, w, s, p, src, ch);
    } else if p.msgType == NimiqHeadBeacon {
      HandleHeadBeaconSpends(d, w, cfg, s, p, src, ch);
    } else if p.msgType == NimiqBalanceResponse {
      HandleBalanceResponseSpends(d, w, cfg, s, p, src, ch);
    } else if Modelled(p.msgType) {
      HandleOpaqueSpends(d, w, s, p, src, ch);
    } else {
      SpendNothing(d, s, s);
    }
  }

  lemma RequestSyncSpends(d: nat, w: World, s: State, p: Packet, src: Option<Peer>, now: u64)
    requires |s.recent| <= RECENT_CACHE_CAP
    ensures SpendsLess(d, s, HandleRequestSync(w, s, p, src, now), 1 + RECENT_CACHE_CAP * Triggering(d, 0))
  {
    var s' := HandleRequestSync(w, s, p, src, now);
    if src.None? || !w.filterParses(p.payload) {
      SpendNothing(d, s, s);
    } else {
      var out := CatchUp(w, Gc(s.recent, now), p.payload, src.value);
      assert s'.outbox[|s.outbox|..] == out;
      SendsWeightBound(d, out, Triggering(d, 0));
      MulMono(|out|, RECENT_CACHE_CAP, Triggering(d, 0));
    }
  }

  /** Whatever the node remembers or has forgotten, handling a frame puts less weight in flight than
      the frame took out. */
  lemma InboundSpends(d: nat, w: World, cfg: Config, s: State, src: Option<Peer>, p: Packet, ch: Choice)
    requires |s.peers| <= d && |s.recent| <= RECENT_CACHE_CAP
    ensures SpendsLess(d, s, Inbound(w, cfg, s, src, p, ch), Weight(d, p))
  {
    if src.Some? && !ch.rateOk {
      SpendNothing(d, s, s);
    } else if p.flags.isRsr {
      DispatchSpends(d, w, cfg, s, Unwrapped(p), None, ch);
    } else if p.msgType == RequestSync {
      RequestSyncSpends(d, w, s, p, src, ch.now);
    } else {
      DispatchSpends(d, w, cfg, s, p, src, ch);
    }
  }

  // ----- schedules -----

  /** Every node has at most `d` links, a bounded cache and nothing left to send. */
  ghost predicate Bounded(d: nat, nodes: map<Peer, State>) {
    forall n :: n in nodes ==> |nodes[n].peers| <= d && |nodes[n].recent| <= RECENT_CACHE_CAP && nodes[n].outbox == []
  }

  /** One delivery or loss of a frame of a modelled type. Between two of them the nodes may change in any
      way that keeps them bounded: links move, dedup caches forget, time passes. */
  ghost predicate FloodStep(w: World, d: nat, net: Net, net': Net) {
    exists nodes: map<Peer, State>, ev: Event ::
      Bounded(d, nodes) && (ev.Deliver? || ev.Lose?) && ev.index < |net.flight|
      && Modelled(net.flight[ev.index].packet.msgType)
      && net' == NetStep(w, net.(nodes := nodes), ev)
  }

  lemma DeliveryLightens(w: World, d: nat, net: Net, ev: Event)
    requires Bounded(d, net.nodes) && (ev.Deliver? || ev.Lose?) && ev.index < |net.flight|
    ensures Total(d, NetStep(w, net, ev).flight) < Total(d, net.flight)
  {
    var i := ev.index;
    var f, rest := net.flight[i], Without(net.flight, i);
    TotalWithout(d, net.flight, i);
    if ev.Deliver? && f.dst in net.nodes && f.dst in net.configs {
      var s := net.nodes[f.dst];
      var src := if ev.attributed then Some(f.src) else None;
      var s' := Inbound(w, net.configs[f.dst], s, src, f.packet, ev.ch);
      InboundSpends(d, w, net.configs[f.dst], s, src, f.packet, ev.ch);
      assert s'.outbox[|s.outbox|..] == s'.outbox;
      FramesWeight(d, f.dst, s'.outbox);
      TotalAppend(d, rest, Frames(f.dst, s'.outbox));
      assert NetStep(w, net, ev).flight == rest + Frames(f.dst, s'.outbox);
    }
  }

  lemma FloodStepLightens(w: World, d: nat, net: Net, net': Net)
    requires FloodStep(w, d, net, net')
    ensures Total(d, net'.flight) < Total(d, net.flight)
  {
    var nodes: map<Peer, State>, ev: Event :|
      Bounded(d, nodes) && (ev.Deliver? || ev.Lose?) && ev.index < |net.flight|
      && Modelled(net.flight[ev.index].packet.msgType)
      && net' == NetStep(w, net.(nodes := nodes), ev);
    DeliveryLightens(w, d, net.(nodes := nodes), ev);
  }

  ghost predicate Schedule(w: World, d: nat, nets: seq<Net>) {
    forall i :: 0 <= i < |nets| - 1 ==> FloodStep(w, d, nets[i], nets[i + 1])
  }

  /** Flood quiescence: no delivery schedule is longer than the weight initially in flight. */
  lemma {:induction false} FloodQuiesces(w: World, d: nat, nets: seq<Net>)
    requires nets != [] && Schedule(w, d, nets)
    ensures |nets| - 1 + Total(d, nets[|nets| - 1].flight) <= Total(d, nets[0].flight)
    decreases |nets|
  {
    if |nets| > 1 {
      var n := |nets| - 1;
      var init := nets[..n];
      assert Schedule(w, d, init) by {
        forall i | 0 <= i < |init| - 1 ensures FloodStep(w, d, init[i], init[i + 1]) {
          assert FloodStep(w, d, nets[i], nets[i + 1]);
        }
      }
      FloodQuiesces(w, d, init);
      assert FloodStep(w, d, nets[n - 1], nets[n - 1 + 1]);
      FloodStepLightens(w, d, nets[n - 1], nets[n]);
    }
  }
}
