/** How far a flood carries. A node relays only the first copy it is given, with the hops that copy has left. */
module Coverage {
  import opened Bytes
  import opened Packet
  import opened Dedup
  import opened Engine
  import opened Duties

  // ----- along a path of first copies -----

  /** A node on the way: who it is, its state when the copy comes, where the copy comes from, what its
      environment decides. */
  datatype Station = Station(cfg: Config, state: State, src: Option<Peer>, ch: Choice)

  /** The frame of a modelled type is let in, is the first of its key here and past the gates, the relay gate is
      open, and the next node of the path is linked and not the one the copy came from. */
  predicate Passes(w: World, h: Station, p: Packet, next: Peer) {
    && Modelled(p.msgType) && p.msgType != RequestSync && !p.flags.isRsr
    && (h.src.Some? ==> h.ch.rateOk) && Carries(w, h.cfg, h.state, p)
    && h.ch.relayOk && next in h.state.peers && Some(next) != h.src && h.state.outbox == []
  }

  /** What station `h` sends on to `next` of the copy `p`, if anything. */
  function SentTo(w: World, h: Station, p: Packet, next: Peer): Option<Packet> {
    if Send(next, Onward(p)) in Inbound(w, h.cfg, h.state, h.src, p, h.ch).outbox then Some(Onward(p)) else None
  }

  type Sender = (Station, Packet, Peer) -> Option<Packet>

  function Sending(w: World): Sender { (h: Station, p: Packet, next: Peer) => SentTo(w, h, p, next) }

  /** The copy that reaches the end of the path, if one does. */
  function CarriedBy(sent: Sender, path: seq<Station>, nexts: seq<Peer>, p: Packet): Option<Packet>
    requires |path| == |nexts|
  {
    if path == [] then Some(p)
    else
      var n := |path| - 1;
      var q := CarriedBy(sent, path[..n], nexts[..n], p);
      if q.None? then None else sent(path[n], q.value, nexts[n])
  }

  function Carried(w: World, path: seq<Station>, nexts: seq<Peer>, p: Packet): Option<Packet>
    requires |path| == |nexts|
  {
    CarriedBy(Sending(w), path, nexts, p)
  }

  lemma SentToIff(w: World, h: Station, p: Packet, next: Peer)
    requires Passes(w, h, p, next) && Encodable(p)
    ensures SentTo(w, h, p, next) == if Hops(p) > 1 then Some(p.(ttl := Hops(p) - 1)) else None
  {
    FrameIsCarried(w, h.cfg, h.state, h.src, p, h.ch);
    var t := Inbound(w, h.cfg, h.state, h.src, p, h.ch);
    assert NewSends(h.state, t) == t.outbox;
    assert Send(next, Onward(p)) in t.outbox <==> GoesTo(h.state, p, h.src, h.ch, next);
  }

  /** The TTL is no part of what a node judges a packet by. */
  lemma SameJudgement(w: World, h: Station, p: Packet, next: Peer, ttl: byte)
    ensures Passes(w, h, p.(ttl := ttl), next) <==> Passes(w, h, p, next)
    ensures Encodable(p.(ttl := ttl)) <==> Encodable(p)
  {
    var q := p.(ttl := ttl);
    assert KeyOf(q) == KeyOf(p);
    assert GatesOpen(w, h.cfg, h.state, q) <==> GatesOpen(w, h.cfg, h.state, p);
  }

  /** The packet with `k` hops spent, while it has one left. */
  function Left(p: Packet, k: nat): Option<Packet> {
    if k < Hops(p) then Some(p.(ttl := Hops(p) - k)) else None
  }

  lemma FirstHop(w: World, h: Station, p: Packet, next: Peer)
    requires Passes(w, h, p, next) && Encodable(p)
    ensures SentTo(w, h, p, next) == Left(p, 1)
  {
    SentToIff(w, h, p, next);
  }

  lemma LeftOfLeft(p: Packet, k: nat)
    requires 0 < k < Hops(p)
    ensures Left(Left(p, k).value, 1) == Left(p, k + 1)
  {
  }

  lemma NextHop(w: World, h: Station, p: Packet, next: Peer, k: nat)
    requires Passes(w, h, p, next) && Encodable(p) && 0 < k < Hops(p)
    ensures SentTo(w, h, Left(p, k).value, next) == Left(p, k + 1)
  {
    SameJudgement(w, h, p, next, Hops(p) - k);
    FirstHop(w, h, Left(p, k).value, next);
    LeftOfLeft(p, k);
  }

  /** Here every copy of `p` loses one hop. */
  ghost predicate SpendsOne(sent: Sender, h: Station, p: Packet, next: Peer) {
    sent(h, p, next) == Left(p, 1)
    && forall k: nat :: 0 < k < Hops(p) ==> sent(h, Left(p, k).value, next) == Left(p, k + 1)
  }

  lemma {:induction false} CarriedByIff(sent: Sender, path: seq<Station>, nexts: seq<Peer>, p: Packet)
    requires |path| == |nexts| && path != []
    requires forall i :: 0 <= i < |path| ==> SpendsOne(sent, path[i], p, nexts[i])
    ensures CarriedBy(sent, path, nexts, p) == Left(p, |path|)
    decreases |path|
  {
    var n := |path| - 1;
    assert SpendsOne(sent, path[n], p, nexts[n]);
    if n > 0 {
      CarriedByIff(sent, path[..n], nexts[..n], p);
    }
  }

  lemma StationSpendsOne(w: World, h: Station, p: Packet, next: Peer)
    requires Passes(w, h, p, next) && Encodable(p)
    ensures SpendsOne(Sending(w), h, p, next)
  {
    FirstHop(w, h, p, next);
    forall k: nat | 0 < k < Hops(p) ensures SentTo(w, h, Left(p, k).value, next) == Left(p, k + 1) {
      NextHop(w, h, p, next, k);
    }
  }

  /** Along a path whose nodes all hear the packet for the first time and let it pass, whatever its type, it gets
      past `k` nodes exactly when its hop budget exceeds `k`: an own flood of TTL 7 is handed to the node seven
      hops away and to none beyond. */
  lemma CarriedIff(w: World, path: seq<Station>, nexts: seq<Peer>, p: Packet)
    requires |path| == |nexts| && Encodable(p) && path != []
    requires forall i :: 0 <= i < |path| ==> Passes(w, path[i], p, nexts[i])
    ensures Carried(w, path, nexts, p) ==
            if |path| < Min(p.ttl, 7) then Some(p.(ttl := Min(p.ttl, 7) - |path|)) else None
  {
    forall i | 0 <= i < |path| ensures SpendsOne(Sending(w), path[i], p, nexts[i]) {
      StationSpendsOne(w, path[i], p, nexts[i]);
    }
    CarriedByIff(Sending(w), path, nexts, p);
  }

  /** The failing input for anything more, of any modelled type: a spent copy that comes first shadows a fresh
      one. The node hands it to nobody, and drops the copy that still has all its hops. */
  lemma SpentCopyShadows(w: World, cfg: Config, s: State, spent: Packet, src: Option<Peer>, ch: Choice,
                         other: Option<Peer>, later: Choice)
    requires spent.ttl <= 1 && Modelled(spent.msgType) && spent.msgType != RequestSync && !spent.flags.isRsr
    requires (src.Some? ==> ch.rateOk) && Carries(w, cfg, s, spent)
    ensures var t := Inbound(w, cfg, s, src, spent, ch);
            var whole := spent.(ttl := DEFAULT_TTL);
            && s.outbox <= t.outbox && (forall q :: Send(q, Onward(spent)) !in NewSends(s, t))
            && Inbound(w, cfg, t, other, whole, later) == t
  {
    var t := Inbound(w, cfg, s, src, spent, ch);
    var whole := spent.(ttl := DEFAULT_TTL);
    FrameIsCarried(w, cfg, s, src, spent, ch);
    assert KeyOf(whole) == KeyOf(spent);
    KnownIsDropped(w, cfg, t, whole, other, later);
  }
}
