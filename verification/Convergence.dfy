/** When nodes that were given the same gossip frames, in any order and with any repetitions, agree. */
module Convergence {
  import opened Bytes
  import opened Packet
  import opened Dedup
  import opened Beacon
  import opened Engine
  import opened FirstCopies
  import opened NodeGossip
  import B = Balance

  // ----- schedules of frames of one gossip type -----

  predicate GossipType(t: MessageType) { t == NimiqHeadBeacon || t == NimiqBalanceResponse }

  function KeySet(fs: seq<Packet>): set<RelayKey> { set p | p in fs :: KeyOf(p) }

  /** Frames of one gossip type whose relay keys the dedup cache can hold all at once. */
  ghost predicate Batch(ty: MessageType, fs: seq<Packet>) {
    GossipType(ty) && (forall p :: p in fs ==> p.msgType == ty) && |KeySet(fs)| <= RELAY_CACHE_CAP
  }

  /** A frame arriving over a link, not stopped by the rate limiter. */
  datatype Arrival = Arrival(src: Option<Peer>, packet: Packet, ch: Choice)

  predicate LetIn(a: Arrival) { a.src.Some? ==> a.ch.rateOk }

  function Packets(ds: seq<Arrival>): (ps: seq<Packet>)
    ensures |ps| == |ds| && forall i :: 0 <= i < |ds| ==> ps[i] == ds[i].packet
  {
    seq(|ds|, i requires 0 <= i < |ds| => ds[i].packet)
  }

  function Jobs(ds: seq<Arrival>): (js: seq<Job>)
    ensures |js| == |ds| && forall i :: 0 <= i < |ds| ==> js[i] == Receive(ds[i].src, ds[i].packet, ds[i].ch)
  {
    seq(|ds|, i requires 0 <= i < |ds| => Receive(ds[i].src, ds[i].packet, ds[i].ch))
  }

  /** A fresh node after these arrivals. */
  function Given(w: World, cfg: Config, seed: u64, ds: seq<Arrival>): State { Run(w, cfg, Init(seed), Jobs(ds)) }

  lemma GivenStep(w: World, cfg: Config, seed: u64, ds: seq<Arrival>)
    requires ds != []
    ensures var init, a := ds[..|ds| - 1], ds[|ds| - 1];
            && Given(w, cfg, seed, ds) == Inbound(w, cfg, Given(w, cfg, seed, init), a.src, a.packet, a.ch)
            && Packets(ds)[..|ds| - 1] == Packets(init) && Jobs(ds)[..|ds| - 1] == Jobs(init)
  {
    assert Jobs(ds)[..|ds| - 1] == Jobs(ds[..|ds| - 1]);
    assert Packets(ds)[..|ds| - 1] == Packets(ds[..|ds| - 1]);
  }

  ghost predicate AllLetIn(ds: seq<Arrival>) { forall i :: 0 <= i < |ds| ==> LetIn(ds[i]) }

  ghost predicate AllFrom(ps: seq<Packet>, fs: seq<Packet>) { forall p :: p in ps ==> p in fs }

  /** The arrivals are the frames of `fs`, each at least once and nothing else, over whatever links. */
  ghost predicate Delivers(ds: seq<Arrival>, fs: seq<Packet>) { AllLetIn(ds) && SameFrames(fs, Packets(ds)) }

  // ----- what a node handles of a schedule -----

  function KeysOf(ps: seq<Packet>): (ks: seq<RelayKey>)
    ensures |ks| == |ps| && forall i :: 0 <= i < |ps| ==> ks[i] == KeyOf(ps[i])
  {
    seq(|ps|, i requires 0 <= i < |ps| => KeyOf(ps[i]))
  }

  ghost predicate NoRepeats(ks: seq<RelayKey>) { forall i, j :: 0 <= i < j < |ks| ==> ks[i] != ks[j] }

  lemma {:induction false} KeysDistinct(ps: seq<Packet>)
    ensures NoRepeats(KeysOf(Firsts(ps)))
    decreases |ps|
  {
    if ps != [] {
      var init, last := ps[..|ps| - 1], ps[|ps| - 1];
      KeysDistinct(init);
      KeyIsHandled(init, KeyOf(last));
      var before, ks := Firsts(init), KeysOf(Firsts(ps));
      assert forall i :: 0 <= i < |before| ==> ks[i] == KeysOf(before)[i];
    }
  }

  lemma KeysFit(fs: seq<Packet>, ps: seq<Packet>)
    requires |KeySet(fs)| <= RELAY_CACHE_CAP && AllFrom(ps, fs)
    ensures |Firsts(ps)| <= RELAY_CACHE_CAP
  {
    var ks := KeysOf(Firsts(ps));
    KeysDistinct(ps);
    DistinctCount(ks);
    forall k | k in Elems(ks) ensures k in KeySet(fs) {
      var i :| 0 <= i < |ks| && ks[i] == k;
      assert Firsts(ps)[i] in Firsts(ps);
      FirstsAreFrames(ps, Firsts(ps)[i]);
    }
    SubsetCount(Elems(ks), KeySet(fs));
  }

  lemma KeyListed(ps: seq<Packet>, k: RelayKey)
    ensures k in KeysOf(ps) <==> HasKey(ps, k)
  {
    var ks := KeysOf(ps);
    if k in ks {
      var i :| 0 <= i < |ks| && ks[i] == k;
      assert KeyOf(ps[i]) == k;
    }
    if HasKey(ps, k) {
      var i :| 0 <= i < |ps| && KeyOf(ps[i]) == k;
      assert ks[i] == k;
    }
  }

  /** The keys handled so far fit the cache, so a header is unseen exactly when its key is new. */
  lemma UnseenIffNew(fs: seq<Packet>, ps: seq<Packet>, s: State, p: Packet)
    requires |KeySet(fs)| <= RELAY_CACHE_CAP && AllFrom(ps, fs)
    requires s.relaySeen == KeysOf(Firsts(ps))
    ensures Unseen(s, p) <==> !HasKey(ps, KeyOf(p))
  {
    KeysFit(fs, ps);
    assert LastN(s.relaySeen, RELAY_CACHE_CAP) == s.relaySeen;
    KeyListed(Firsts(ps), KeyOf(p));
    KeyIsHandled(ps, KeyOf(p));
  }

  lemma HandlerMarks(w: World, cfg: Config, s: State, p: Packet, src: Option<Peer>, ch: Choice)
    requires GossipType(p.msgType)
    ensures Dispatch(w, cfg, s, p, src, ch).relaySeen == Offer(s.relaySeen, RELAY_CACHE_CAP, KeyOf(p))
  {
    if p.msgType == NimiqHeadBeacon {
      assert Dispatch(w, cfg, s, p, src, ch) == HandleHeadBeacon(w, cfg, s, p, src, ch);
    } else {
      ResponseIsRouted(w, cfg, s, p, src, ch);
    }
  }

  lemma ArrivalMarks(w: World, cfg: Config, s: State, a: Arrival)
    requires LetIn(a) && GossipType(a.packet.msgType)
    ensures Inbound(w, cfg, s, a.src, a.packet, a.ch).relaySeen == Offer(s.relaySeen, RELAY_CACHE_CAP, KeyOf(a.packet))
  {
    var p := a.packet;
    if p.flags.isRsr {
      assert KeyOf(Unwrapped(p)) == KeyOf(p);
      HandlerMarks(w, cfg, s, Unwrapped(p), None, a.ch);
    } else {
      HandlerMarks(w, cfg, s, p, a.src, a.ch);
    }
  }

  lemma FirstsStep(fs: seq<Packet>, ps: seq<Packet>, s: State, p: Packet)
    requires |KeySet(fs)| <= RELAY_CACHE_CAP && AllFrom(ps, fs) && s.relaySeen == KeysOf(Firsts(ps))
    ensures Offer(s.relaySeen, RELAY_CACHE_CAP, KeyOf(p)) == KeysOf(Firsts(ps + [p]))
    ensures Firsts(ps + [p]) == if Unseen(s, p) then Firsts(ps) + [p] else Firsts(ps)
  {
    UnseenIffNew(fs, ps, s, p);
    assert (ps + [p])[..|ps|] == ps;
    assert KeysOf(Firsts(ps) + [p]) == KeysOf(Firsts(ps)) + [KeyOf(p)];
  }

  /** A node given such frames from the start has seen exactly their first copies. */
  lemma {:induction false} SeenAreFirsts(w: World, cfg: Config, seed: u64, ty: MessageType,
                                         fs: seq<Packet>, ds: seq<Arrival>)
    requires Batch(ty, fs) && AllLetIn(ds) && AllFrom(Packets(ds), fs)
    ensures Given(w, cfg, seed, ds).relaySeen == KeysOf(Firsts(Packets(ds)))
    decreases |ds|
  {
    if ds != [] {
      var init, a := ds[..|ds| - 1], ds[|ds| - 1];
      GivenStep(w, cfg, seed, ds);
      AllFromInit(ds, fs);
      SeenAreFirsts(w, cfg, seed, ty, fs, init);
      var s := Given(w, cfg, seed, init);
      ArrivalMarks(w, cfg, s, a);
      FirstsStep(fs, Packets(init), s, a.packet);
    }
  }

  lemma AllFromInit(ds: seq<Arrival>, fs: seq<Packet>)
    requires ds != [] && AllFrom(Packets(ds), fs)
    ensures var init, a := ds[..|ds| - 1], ds[|ds| - 1];
            AllFrom(Packets(init), fs) && a.packet in fs && Packets(ds) == Packets(init) + [a.packet]
  {
    var init := ds[..|ds| - 1];
    assert Packets(ds) == Packets(init) + [ds[|ds| - 1].packet];
  }

  // ----- heads -----

  /** The beacons of frames, in order; unreadable frames have none. */
  function BeaconsOf(ps: seq<Packet>): seq<HeadBeacon> {
    if ps == [] then [] else BeaconsOf(ps[..|ps| - 1]) + Listed(DecodeBeacon(ps[|ps| - 1].payload))
  }

  /** The height a frame offers to a head cache of `net`. */
  function HeightOn(net: byte): Measure {
    (p: Packet) =>
      var b := DecodeBeacon(p.payload);
      if b.None? || b.value.networkId != net then None else Some(b.value.height)
  }

  function HeightOf(head: Option<HeadBeacon>): Option<nat> { if head.None? then None else Some(head.value.height) }

  lemma BeaconsAppend(ps: seq<Packet>, p: Packet)
    ensures BeaconsOf(ps + [p]) == BeaconsOf(ps) + Listed(DecodeBeacon(p.payload))
  {
    assert (ps + [p])[..|ps|] == ps;
  }

  lemma HeadHeightStep(net: byte, head: Option<HeadBeacon>, p: Packet)
    ensures HeightOf(AcceptAll(net, head, Listed(DecodeBeacon(p.payload)))) == Greater(HeightOf(head), HeightOn(net)(p))
  {
  }

  lemma {:induction false} HeadHeightIsBest(net: byte, ps: seq<Packet>)
    ensures HeightOf(HeadAfter(net, BeaconsOf(ps))) == Best(HeightOn(net), ps)
    decreases |ps|
  {
    if ps != [] {
      var init, last := ps[..|ps| - 1], ps[|ps| - 1];
      HeadHeightIsBest(net, init);
      HeadAfterAppend(net, BeaconsOf(init), Listed(DecodeBeacon(last.payload)));
      HeadHeightStep(net, HeadAfter(net, BeaconsOf(init)), last);
    }
  }

  /** The head of a node given beacon frames is that of a cache offered their first copies. */
  lemma {:induction false} HeadOfFirsts(w: World, cfg: Config, seed: u64, fs: seq<Packet>, ds: seq<Arrival>)
    requires Batch(NimiqHeadBeacon, fs) && AllLetIn(ds) && AllFrom(Packets(ds), fs)
    ensures Given(w, cfg, seed, ds).head == HeadAfter(cfg.network, BeaconsOf(Firsts(Packets(ds))))
    decreases |ds|
  {
    if ds != [] {
      var init, a := ds[..|ds| - 1], ds[|ds| - 1];
      var s := Given(w, cfg, seed, init);
      GivenStep(w, cfg, seed, ds);
      AllFromInit(ds, fs);
      HeadOfFirsts(w, cfg, seed, fs, init);
      SeenAreFirsts(w, cfg, seed, NimiqHeadBeacon, fs, init);
      HeadArrival(w, cfg, s, a, fs, Packets(init));
    }
  }

  lemma HeadArrival(w: World, cfg: Config, s: State, a: Arrival, fs: seq<Packet>, ps: seq<Packet>)
    requires |KeySet(fs)| <= RELAY_CACHE_CAP && AllFrom(ps, fs) && s.relaySeen == KeysOf(Firsts(ps))
    requires LetIn(a) && a.packet.msgType == NimiqHeadBeacon
    requires s.head == HeadAfter(cfg.network, BeaconsOf(Firsts(ps)))
    ensures Inbound(w, cfg, s, a.src, a.packet, a.ch).head
         == HeadAfter(cfg.network, BeaconsOf(Firsts(ps + [a.packet])))
  {
    ReceiveHead(w, cfg, s, a.src, a.packet, a.ch);
    FirstsStep(fs, ps, s, a.packet);
    HeadStep(cfg, s, a, Firsts(ps));
  }

  lemma HeadStep(cfg: Config, s: State, a: Arrival, firsts: seq<Packet>)
    requires LetIn(a) && a.packet.msgType == NimiqHeadBeacon && s.head == HeadAfter(cfg.network, BeaconsOf(firsts))
    ensures AcceptAll(cfg.network, s.head, OfferedHeads(cfg, s, Receive(a.src, a.packet, a.ch)))
         == HeadAfter(cfg.network, BeaconsOf(if Unseen(s, a.packet) then firsts + [a.packet] else firsts))
  {
    BeaconsAppend(firsts, a.packet);
    HeadAfterAppend(cfg.network, BeaconsOf(firsts), Listed(DecodeBeacon(a.packet.payload)));
  }

  /** Any two nodes of the network given exactly these frames end at the same head height. */
  ghost predicate HeightsAgree(w: World, net: byte, fs: seq<Packet>) {
    forall c: Config, d: Config, x: u64, y: u64, ds: seq<Arrival>, es: seq<Arrival> ::
      c.network == net && d.network == net && Delivers(ds, fs) && Delivers(es, fs) ==>
      HeightOf(Given(w, c, x, ds).head) == HeightOf(Given(w, d, y, es).head)
  }

  lemma HeightOfGiven(w: World, cfg: Config, seed: u64, fs: seq<Packet>, ds: seq<Arrival>)
    requires Batch(NimiqHeadBeacon, fs) && Delivers(ds, fs)
    ensures HeightOf(Given(w, cfg, seed, ds).head) == Best(HeightOn(cfg.network), Firsts(Packets(ds)))
  {
    HeadOfFirsts(w, cfg, seed, fs, ds);
    HeadHeightIsBest(cfg.network, Firsts(Packets(ds)));
  }

  const SOME_CHOICE: Choice := Choice(0, true, true, None, None)

  function ArriveAs(ps: seq<Packet>): (ds: seq<Arrival>)
    ensures |ds| == |ps| && forall i :: 0 <= i < |ps| ==> ds[i] == Arrival(None, ps[i], SOME_CHOICE)
  {
    seq(|ps|, i requires 0 <= i < |ps| => Arrival(None, ps[i], SOME_CHOICE))
  }

  lemma ArriveDelivers(fs: seq<Packet>, ps: seq<Packet>)
    requires SameFrames(fs, ps)
    ensures Delivers(ArriveAs(ps), fs) && Packets(ArriveAs(ps)) == ps
  {
    assert Packets(ArriveAs(ps)) == ps;
  }

  function SomeNode(net: byte): Config { Config(BROADCAST_RECIPIENT, net, false, false) }

  /** Nodes given the same beacon frames, in any order and with any repetitions, always end at the same height
      exactly when no frame is of their network or some relay key is used only for frames at the greatest
      height. Frames are at most as many different relay keys as the dedup cache holds. */
  lemma HeightsAgreeIff(w: World, net: byte, fs: seq<Packet>)
    requires Batch(NimiqHeadBeacon, fs)
    ensures HeightsAgree(w, net, fs) <==> Pinned(HeightOn(net), fs)
  {
    OneOutcomeIff(HeightOn(net), fs);
    if OneOutcome(HeightOn(net), fs) {
      forall c: Config, d: Config, x: u64, y: u64, ds: seq<Arrival>, es: seq<Arrival>
        | c.network == net && d.network == net && Delivers(ds, fs) && Delivers(es, fs)
        ensures HeightOf(Given(w, c, x, ds).head) == HeightOf(Given(w, d, y, es).head)
      {
        HeightOfGiven(w, c, x, fs, ds);
        HeightOfGiven(w, d, y, fs, es);
      }
    }
    if HeightsAgree(w, net, fs) {
      forall qs, rs | SameFrames(fs, qs) && SameFrames(fs, rs)
        ensures Best(HeightOn(net), Firsts(qs)) == Best(HeightOn(net), Firsts(rs))
      {
        ArriveDelivers(fs, qs);
        ArriveDelivers(fs, rs);
        HeightOfGiven(w, SomeNode(net), 0, fs, ArriveAs(qs));
        HeightOfGiven(w, SomeNode(net), 0, fs, ArriveAs(rs));
      }
    }
  }

  /** The frames at the greatest height on `net` carry one beacon. */
  ghost predicate TopsAgree(net: byte, fs: seq<Packet>) {
    forall p, q :: p in fs && q in fs && AtTop(HeightOn(net), fs, p) && AtTop(HeightOn(net), fs, q) ==>
      DecodeBeacon(p.payload) == DecodeBeacon(q.payload)
  }

  ghost predicate HeadsAgree(w: World, net: byte, fs: seq<Packet>) {
    forall c: Config, d: Config, x: u64, y: u64, ds: seq<Arrival>, es: seq<Arrival> ::
      c.network == net && d.network == net && Delivers(ds, fs) && Delivers(es, fs) ==>
      Given(w, c, x, ds).head == Given(w, d, y, es).head
  }

  lemma {:induction false} HeadComesFrom(net: byte, ps: seq<Packet>)
    ensures var head := HeadAfter(net, BeaconsOf(ps));
            head.Some? ==> exists p :: p in ps && DecodeBeacon(p.payload) == head && head.value.networkId == net
    decreases |ps|
  {
    if ps != [] {
      var init, last := ps[..|ps| - 1], ps[|ps| - 1];
      HeadComesFrom(net, init);
      HeadAfterAppend(net, BeaconsOf(init), Listed(DecodeBeacon(last.payload)));
      var head := HeadAfter(net, BeaconsOf(ps));
      assert last in ps;
      if head.Some? && head == HeadAfter(net, BeaconsOf(init)) {
        var p :| p in init && DecodeBeacon(p.payload) == head && head.value.networkId == net;
        assert p in ps;
      }
    }
  }

  lemma NoHigher(net: byte, head: Option<HeadBeacon>, p: Packet)
    requires head.Some? && (HeightOn(net)(p).Some? ==> HeightOn(net)(p).value <= head.value.height)
    ensures AcceptAll(net, head, Listed(DecodeBeacon(p.payload))) == head
  {
  }

  lemma OneTop(net: byte, p: Packet)
    requires HeightOn(net)(p).Some?
    ensures HeadAfter(net, BeaconsOf([p])) == DecodeBeacon(p.payload)
  {
    assert [p][..0] == [] && BeaconsOf([]) == [];
    HeadAfterAppend(net, [], Listed(DecodeBeacon(p.payload)));
  }

  lemma TopOfInit(h: Measure, ps: seq<Packet>)
    requires |ps| > 1 && AtTop(h, ps, ps[0])
    ensures var init, last := ps[..|ps| - 1], ps[|ps| - 1];
            init[0] == ps[0] && AtTop(h, init, init[0]) && (h(last).Some? ==> h(last).value <= h(ps[0]).value)
  {
    var init, last := ps[..|ps| - 1], ps[|ps| - 1];
    assert last in ps;
    assert forall p :: p in init ==> p in ps;
  }

  lemma {:induction false} FirstTopStays(net: byte, ps: seq<Packet>)
    requires ps != [] && AtTop(HeightOn(net), ps, ps[0])
    ensures HeadAfter(net, BeaconsOf(ps)) == DecodeBeacon(ps[0].payload)
    decreases |ps|
  {
    if |ps| == 1 {
      assert ps == [ps[0]];
      OneTop(net, ps[0]);
    } else {
      var init, last := ps[..|ps| - 1], ps[|ps| - 1];
      TopOfInit(HeightOn(net), ps);
      FirstTopStays(net, init);
      HeadAfterAppend(net, BeaconsOf(init), Listed(DecodeBeacon(last.payload)));
      NoHigher(net, HeadAfter(net, BeaconsOf(init)), last);
    }
  }

  /** The head of a node given frames among which some relay key is used only at the top is the beacon of a
      frame at the top. */
  lemma PinnedHead(w: World, cfg: Config, seed: u64, fs: seq<Packet>, ds: seq<Arrival>, p: Packet) returns (q: Packet)
    requires Batch(NimiqHeadBeacon, fs) && Delivers(ds, fs) && KeyAtTop(HeightOn(cfg.network), fs, p)
    ensures q in fs && AtTop(HeightOn(cfg.network), fs, q) && Given(w, cfg, seed, ds).head == DecodeBeacon(q.payload)
  {
    var firsts := Firsts(Packets(ds));
    HeadOfFirsts(w, cfg, seed, fs, ds);
    HeadHeightIsBest(cfg.network, firsts);
    PinnedIsTop(HeightOn(cfg.network), fs, Packets(ds), p);
    HeadComesFrom(cfg.network, firsts);
    HandledAreFrames(fs, Packets(ds));
    assert AtTop(HeightOn(cfg.network), fs, p);
    var head := Given(w, cfg, seed, ds).head;
    q :| q in firsts && DecodeBeacon(q.payload) == head && head.value.networkId == cfg.network;
    assert HeightOn(cfg.network)(q) == HeightOn(cfg.network)(p);
  }

  lemma NoHead(w: World, cfg: Config, seed: u64, fs: seq<Packet>, ds: seq<Arrival>)
    requires Batch(NimiqHeadBeacon, fs) && Delivers(ds, fs)
    requires forall p :: p in fs ==> HeightOn(cfg.network)(p).None?
    ensures Given(w, cfg, seed, ds).head == None
  {
    HeightOfGiven(w, cfg, seed, fs, ds);
    NothingMeasured(HeightOn(cfg.network), fs, Packets(ds));
  }

  /** A node that is given a top frame first keeps its beacon. */
  lemma TopFrameFirst(w: World, net: byte, fs: seq<Packet>, p: Packet)
    requires Batch(NimiqHeadBeacon, fs) && p in fs && AtTop(HeightOn(net), fs, p)
    ensures Delivers(ArriveAs([p] + fs), fs)
    ensures Given(w, SomeNode(net), 0, ArriveAs([p] + fs)).head == DecodeBeacon(p.payload)
  {
    var qs := [p] + fs;
    ArriveDelivers(fs, qs);
    HeadOfFirsts(w, SomeNode(net), 0, fs, ArriveAs(qs));
    FirstOfAll(qs);
    HandledAreFrames(fs, qs);
    FirstTopStays(net, Firsts(qs));
  }

  /** They always end with the same head exactly when, besides, the frames at the greatest height carry one
      beacon. */
  lemma HeadsAgreeIff(w: World, net: byte, fs: seq<Packet>)
    requires Batch(NimiqHeadBeacon, fs)
    ensures HeadsAgree(w, net, fs) <==> Pinned(HeightOn(net), fs) && TopsAgree(net, fs)
  {
    HeightsAgreeIff(w, net, fs);
    if Pinned(HeightOn(net), fs) && TopsAgree(net, fs) {
      PinnedHeadsAgree(w, net, fs);
    }
    if HeadsAgree(w, net, fs) {
      assert HeightsAgree(w, net, fs);
      forall p, q | p in fs && q in fs && AtTop(HeightOn(net), fs, p) && AtTop(HeightOn(net), fs, q)
        ensures DecodeBeacon(p.payload) == DecodeBeacon(q.payload)
      {
        TopFrameFirst(w, net, fs, p);
        TopFrameFirst(w, net, fs, q);
      }
    }
  }

  lemma PinnedHeadsAgree(w: World, net: byte, fs: seq<Packet>)
    requires Batch(NimiqHeadBeacon, fs) && Pinned(HeightOn(net), fs) && TopsAgree(net, fs)
    ensures HeadsAgree(w, net, fs)
  {
    forall c: Config, d: Config, x: u64, y: u64, ds: seq<Arrival>, es: seq<Arrival>
      | c.network == net && d.network == net && Delivers(ds, fs) && Delivers(es, fs)
      ensures Given(w, c, x, ds).head == Given(w, d, y, es).head
    {
      if forall p :: p in fs ==> HeightOn(net)(p).None? {
        NoHead(w, c, x, fs, ds);
        NoHead(w, d, y, fs, es);
      } else {
        var p :| KeyAtTop(HeightOn(net), fs, p);
        var q := PinnedHead(w, c, x, fs, ds, p);
        var r := PinnedHead(w, d, y, fs, es, p);
      }
    }
  }

  /** The failing input: two beacons under one relay key. Whichever comes first is the head; nodes that were
      given both differ in height. */
  lemma OneKeyTwoBeacons(w: World, cfg: Config, seed: u64, low: Packet, high: Packet)
    requires low.msgType == NimiqHeadBeacon && high.msgType == NimiqHeadBeacon && KeyOf(low) == KeyOf(high)
    requires HeightOn(cfg.network)(low).Some? && HeightOn(cfg.network)(high).Some?
    ensures Given(w, cfg, seed, ArriveAs([low, high])).head == DecodeBeacon(low.payload)
    ensures Given(w, cfg, seed, ArriveAs([high, low])).head == DecodeBeacon(high.payload)
  {
    FirstOfTwo(w, cfg, seed, low, high);
    FirstOfTwo(w, cfg, seed, high, low);
  }

  lemma FirstOfTwo(w: World, cfg: Config, seed: u64, p: Packet, q: Packet)
    requires p.msgType == NimiqHeadBeacon && q.msgType == NimiqHeadBeacon && KeyOf(p) == KeyOf(q)
    requires HeightOn(cfg.network)(p).Some?
    ensures Given(w, cfg, seed, ArriveAs([p, q])).head == DecodeBeacon(p.payload)
  {
    var fs := [p, q];
    assert KeySet(fs) == {KeyOf(p)};
    ArriveDelivers(fs, fs);
    HeadOfFirsts(w, cfg, seed, fs, ArriveAs(fs));
    assert fs[..1] == [p] && [p][..0] == [];
    assert KeyOf([p][0]) == KeyOf(q) && HasKey([p], KeyOf(q));
    assert Firsts([p]) == [p] by {
      assert !HasKey([], KeyOf(p));
    }
    assert Firsts(fs) == [p];
    FirstTopStays(cfg.network, [p]);
  }

  // ----- balances -----

  function ResponsesOf(ps: seq<Packet>): seq<B.BalanceResponse> {
    if ps == [] then [] else ResponsesOf(ps[..|ps| - 1]) + Listed(B.DecodeResponse(ps[|ps| - 1].payload))
  }

  /** The height at which a frame answers for `address` on `net`. */
  function AnswerHeightOn(net: byte, address: B.Address): Measure {
    (p: Packet) =>
      var r := B.DecodeResponse(p.payload);
      if r.None? || r.value.networkId != net || r.value.address != address then None else Some(r.value.headHeight)
  }

  function HeightAt(es: B.Entries, address: B.Address): Option<nat> {
    if address in es then Some(es[address].headHeight) else None
  }

  lemma ResponsesAppend(ps: seq<Packet>, p: Packet)
    ensures ResponsesOf(ps + [p]) == ResponsesOf(ps) + Listed(B.DecodeResponse(p.payload))
  {
    assert (ps + [p])[..|ps|] == ps;
  }

  lemma EntryHeightStep(net: byte, address: B.Address, es: B.Entries, p: Packet)
    ensures HeightAt(ObserveListed(net, es, Listed(B.DecodeResponse(p.payload))), address)
         == Greater(HeightAt(es, address), AnswerHeightOn(net, address)(p))
  {
  }

  lemma {:induction false} EntryHeightIsBest(net: byte, address: B.Address, ps: seq<Packet>)
    ensures HeightAt(B.EntriesAfter(net, ResponsesOf(ps)), address) == Best(AnswerHeightOn(net, address), ps)
    decreases |ps|
  {
    if ps != [] {
      var init, last := ps[..|ps| - 1], ps[|ps| - 1];
      EntryHeightIsBest(net, address, init);
      EntriesAfterAppend(net, ResponsesOf(init), Listed(B.DecodeResponse(last.payload)));
      EntryHeightStep(net, address, B.EntriesAfter(net, ResponsesOf(init)), last);
    }
  }

  lemma {:induction false} BalancesOfFirsts(w: World, cfg: Config, seed: u64, fs: seq<Packet>, ds: seq<Arrival>)
    requires Batch(NimiqBalanceResponse, fs) && AllLetIn(ds) && AllFrom(Packets(ds), fs)
    ensures Given(w, cfg, seed, ds).balances == B.EntriesAfter(cfg.network, ResponsesOf(Firsts(Packets(ds))))
    decreases |ds|
  {
    if ds != [] {
      var init, a := ds[..|ds| - 1], ds[|ds| - 1];
      var s := Given(w, cfg, seed, init);
      GivenStep(w, cfg, seed, ds);
      AllFromInit(ds, fs);
      BalancesOfFirsts(w, cfg, seed, fs, init);
      SeenAreFirsts(w, cfg, seed, NimiqBalanceResponse, fs, init);
      BalanceArrival(w, cfg, s, a, fs, Packets(init));
    }
  }

  lemma BalanceArrival(w: World, cfg: Config, s: State, a: Arrival, fs: seq<Packet>, ps: seq<Packet>)
    requires |KeySet(fs)| <= RELAY_CACHE_CAP && AllFrom(ps, fs) && s.relaySeen == KeysOf(Firsts(ps))
    requires LetIn(a) && a.packet.msgType == NimiqBalanceResponse
    requires s.balances == B.EntriesAfter(cfg.network, ResponsesOf(Firsts(ps)))
    ensures Inbound(w, cfg, s, a.src, a.packet, a.ch).balances
         == B.EntriesAfter(cfg.network, ResponsesOf(Firsts(ps + [a.packet])))
  {
    ReceiveBalances(w, cfg, s, a.src, a.packet, a.ch);
    FirstsStep(fs, ps, s, a.packet);
    BalanceStep(cfg, s, a, Firsts(ps));
  }

  lemma BalanceStep(cfg: Config, s: State, a: Arrival, firsts: seq<Packet>)
    requires LetIn(a) && a.packet.msgType == NimiqBalanceResponse
    requires s.balances == B.EntriesAfter(cfg.network, ResponsesOf(firsts))
    ensures ObserveListed(cfg.network, s.balances, OfferedBalances(cfg, s, Receive(a.src, a.packet, a.ch)))
         == B.EntriesAfter(cfg.network, ResponsesOf(if Unseen(s, a.packet) then firsts + [a.packet] else firsts))
  {
    ResponsesAppend(firsts, a.packet);
    EntriesAfterAppend(cfg.network, ResponsesOf(firsts), Listed(B.DecodeResponse(a.packet.payload)));
  }

  /** Any two nodes of the network given exactly these frames know `address` at the same height, or not at all. */
  ghost predicate BalanceHeightsAgree(w: World, net: byte, fs: seq<Packet>, address: B.Address) {
    forall c: Config, d: Config, x: u64, y: u64, ds: seq<Arrival>, es: seq<Arrival> ::
      c.network == net && d.network == net && Delivers(ds, fs) && Delivers(es, fs) ==>
      HeightAt(Given(w, c, x, ds).balances, address) == HeightAt(Given(w, d, y, es).balances, address)
  }

  lemma BalanceHeightOfGiven(w: World, cfg: Config, seed: u64, fs: seq<Packet>, ds: seq<Arrival>, address: B.Address)
    requires Batch(NimiqBalanceResponse, fs) && Delivers(ds, fs)
    ensures HeightAt(Given(w, cfg, seed, ds).balances, address)
         == Best(AnswerHeightOn(cfg.network, address), Firsts(Packets(ds)))
  {
    BalancesOfFirsts(w, cfg, seed, fs, ds);
    EntryHeightIsBest(cfg.network, address, Firsts(Packets(ds)));
  }

  /** Nodes given the same response frames, in any order and with any repetitions, always know an address at
      the same height exactly when no frame answers for it or some relay key is used only for answers for it
      at the greatest height. */
  lemma BalanceHeightsAgreeIff(w: World, net: byte, fs: seq<Packet>, address: B.Address)
    requires Batch(NimiqBalanceResponse, fs)
    ensures BalanceHeightsAgree(w, net, fs, address) <==> Pinned(AnswerHeightOn(net, address), fs)
  {
    var h := AnswerHeightOn(net, address);
    OneOutcomeIff(h, fs);
    if OneOutcome(h, fs) {
      forall c: Config, d: Config, x: u64, y: u64, ds: seq<Arrival>, es: seq<Arrival>
        | c.network == net && d.network == net && Delivers(ds, fs) && Delivers(es, fs)
        ensures HeightAt(Given(w, c, x, ds).balances, address) == HeightAt(Given(w, d, y, es).balances, address)
      {
        BalanceHeightOfGiven(w, c, x, fs, ds, address);
        BalanceHeightOfGiven(w, d, y, fs, es, address);
      }
    }
    if BalanceHeightsAgree(w, net, fs, address) {
      forall qs, rs | SameFrames(fs, qs) && SameFrames(fs, rs) ensures Best(h, Firsts(qs)) == Best(h, Firsts(rs)) {
        ArriveDelivers(fs, qs);
        ArriveDelivers(fs, rs);
        BalanceHeightOfGiven(w, SomeNode(net), 0, fs, ArriveAs(qs), address);
        BalanceHeightOfGiven(w, SomeNode(net), 0, fs, ArriveAs(rs), address);
      }
    }
  }

  /** The failing input: two answers for one address under one relay key. */
  lemma OneKeyTwoAnswers(w: World, net: byte, address: B.Address, low: Packet, high: Packet)
    requires low.msgType == NimiqBalanceResponse && high.msgType == NimiqBalanceResponse && KeyOf(low) == KeyOf(high)
    requires var h := AnswerHeightOn(net, address); h(low).Some? && h(high).Some? && h(low).value < h(high).value
    ensures !BalanceHeightsAgree(w, net, [low, high], address)
  {
    var h, fs := AnswerHeightOn(net, address), [low, high];
    assert KeySet(fs) == {KeyOf(low)};
    assert low in fs && high in fs;
    forall p ensures !KeyAtTop(h, fs, p) {
      assert !AtTop(h, fs, low);
    }
    BalanceHeightsAgreeIff(w, net, fs, address);
  }

  // ----- relay keys that name their payload -----

  /** No relay key is used for two payloads. */
  ghost predicate KeysNamePayloads(fs: seq<Packet>) {
    forall p, q :: p in fs && q in fs && KeyOf(p) == KeyOf(q) ==> p.payload == q.payload
  }

  /** Then nothing is hidden: for any measure of the payload the greatest is handled in every order. */
  lemma NamedIsPinned(h: Measure, fs: seq<Packet>)
    requires KeysNamePayloads(fs) && forall p, q :: p in fs && q in fs && p.payload == q.payload ==> h(p) == h(q)
    ensures Pinned(h, fs)
  {
    BestIsGreatest(h, fs);
    if Best(h, fs).Some? {
      var top :| top in fs && h(top) == Best(h, fs);
      forall q | q in fs && KeyOf(q) == KeyOf(top) ensures AtTop(h, fs, q) {
        assert q.payload == top.payload;
      }
      assert KeyAtTop(h, fs, top);
    }
  }

  /** When no relay key is used for two payloads, nodes given the same frames agree on heights always, for
      heads and for every address. */
  lemma NamedKeysConverge(w: World, net: byte, fs: seq<Packet>, address: B.Address)
    requires KeysNamePayloads(fs)
    ensures Batch(NimiqHeadBeacon, fs) ==> HeightsAgree(w, net, fs)
    ensures Batch(NimiqBalanceResponse, fs) ==> BalanceHeightsAgree(w, net, fs, address)
  {
    NamedIsPinned(HeightOn(net), fs);
    NamedIsPinned(AnswerHeightOn(net, address), fs);
    if Batch(NimiqHeadBeacon, fs) {
      HeightsAgreeIff(w, net, fs);
    }
    if Batch(NimiqBalanceResponse, fs) {
      BalanceHeightsAgreeIff(w, net, fs, address);
    }
  }
}
