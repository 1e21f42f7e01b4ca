/** Gossip as nodes hear it. A node offers to its caches only the frames whose relay key it has not seen, and
    the relay key is blind to the payload, so what converges for caches need not converge for nodes. */
module NodeGossip {
  import opened Bytes
  import opened Packet
  import opened Dedup
  import opened Beacon
  import opened Engine
  import B = Balance

  // ----- every run: the caches hold what was offered to them -----

  /** The frame is let in and its header is new. */
  predicate Admitted(s: State, src: Option<Peer>, p: Packet, ch: Choice) { (src.Some? ==> ch.rateOk) && Unseen(s, p) }

  /** The beacons a job offers to the head cache: of an admitted beacon frame, or of the node's own poll. */
  function OfferedHeads(cfg: Config, s: State, j: Job): seq<HeadBeacon> {
    match j
    case Receive(src, p, ch) =>
      if p.msgType == NimiqHeadBeacon && Admitted(s, src, p, ch) then Listed(DecodeBeacon(p.payload)) else []
    case PollBeacon(poll) => if cfg.isGateway then Listed(Emits(s.uplink, poll)) else []
    case _ => []
  }

  function Listed<T>(o: Option<T>): seq<T> { if o.None? then [] else [o.value] }

  /** The responses a job offers to the balance cache: of an admitted response frame, or the answer a gateway
      gives itself to an admitted query. */
  function OfferedBalances(cfg: Config, s: State, j: Job): seq<B.BalanceResponse> {
    match j
    case Receive(src, p, ch) =>
      if !Admitted(s, src, p, ch) then []
      else if p.msgType == NimiqBalanceResponse then Listed(B.DecodeResponse(p.payload))
      else if p.msgType == NimiqBalanceQuery && cfg.isGateway then OwnAnswer(p.payload, ch)
      else []
    case _ => []
  }

  function OwnAnswer(payload: seq<byte>, ch: Choice): seq<B.BalanceResponse> {
    var query := B.DecodeQuery(payload);
    if query.None? || ch.balance.None? then []
    else
      var a := ch.balance.value;
      [B.BalanceResponse(query.value, a.balance, a.headHeight, a.networkId)]
  }

  function HeardHeads(w: World, cfg: Config, s: State, js: seq<Job>): seq<HeadBeacon> {
    if js == [] then []
    else
      var init := js[..|js| - 1];
      HeardHeads(w, cfg, s, init) + OfferedHeads(cfg, Run(w, cfg, s, init), js[|js| - 1])
  }

  function HeardBalances(w: World, cfg: Config, s: State, js: seq<Job>): seq<B.BalanceResponse> {
    if js == [] then []
    else
      var init := js[..|js| - 1];
      HeardBalances(w, cfg, s, init) + OfferedBalances(cfg, Run(w, cfg, s, init), js[|js| - 1])
  }

  function AcceptAll(net: byte, head: Option<HeadBeacon>, bs: seq<HeadBeacon>): Option<HeadBeacon> {
    if bs == [] then head else AcceptHead(net, head, bs[0])
  }

  lemma BeaconHead(w: World, cfg: Config, s: State, p: Packet, src: Option<Peer>, ch: Choice)
    ensures HandleHeadBeacon(w, cfg, s, p, src, ch).head ==
            if Unseen(s, p) then AcceptAll(cfg.network, s.head, Listed(DecodeBeacon(p.payload))) else s.head
  {
    assert AbsorbBeacon(cfg, MarkSeen(s, p), p.payload).head
        == AcceptAll(cfg.network, s.head, Listed(DecodeBeacon(p.payload)));
  }

  lemma OthersKeepHead(w: World, cfg: Config, s: State, p: Packet, src: Option<Peer>, ch: Choice)
    requires p.msgType != NimiqHeadBeacon
    ensures Dispatch(w, cfg, s, p, src, ch).head == s.head
  {
  }

  lemma DispatchHead(w: World, cfg: Config, s: State, p: Packet, src: Option<Peer>, ch: Choice)
    ensures Dispatch(w, cfg, s, p, src, ch).head ==
            if p.msgType == NimiqHeadBeacon && Unseen(s, p)
            then AcceptAll(cfg.network, s.head, Listed(DecodeBeacon(p.payload))) else s.head
  {
    if p.msgType == NimiqHeadBeacon {
      BeaconHead(w, cfg, s, p, src, ch);
      assert Dispatch(w, cfg, s, p, src, ch) == HandleHeadBeacon(w, cfg, s, p, src, ch);
    } else {
      OthersKeepHead(w, cfg, s, p, src, ch);
    }
  }

  lemma ReceiveHead(w: World, cfg: Config, s: State, src: Option<Peer>, p: Packet, ch: Choice)
    ensures Inbound(w, cfg, s, src, p, ch).head
         == AcceptAll(cfg.network, s.head, OfferedHeads(cfg, s, Receive(src, p, ch)))
  {
    if p.flags.isRsr {
      assert KeyOf(Unwrapped(p)) == KeyOf(p);
      DispatchHead(w, cfg, s, Unwrapped(p), None, ch);
    } else {
      DispatchHead(w, cfg, s, p, src, ch);
    }
  }

  lemma RetryKeepsCaches(s: State, now: u64)
    ensures RetryTick(s, now).head == s.head && RetryTick(s, now).balances == s.balances
  {
    var s1 := s.(ledger := FailDead(s.ledger, s.pending, HeadHeight(s), now),
                 pending := LivePending(s.pending, HeadHeight(s), now));
    RetriedCaches(s1, |s1.pending|, now);
  }

  lemma {:induction false} RetriedCaches(s: State, k: nat, now: u64)
    requires k <= |s.pending|
    ensures Retried(s, k, now).head == s.head && Retried(s, k, now).balances == s.balances
    decreases k
  {
    if k > 0 {
      RetriedCaches(s, k - 1, now);
    }
  }

  lemma PollHead(w: World, cfg: Config, s: State, poll: Poll)
    ensures BeaconPoll(w, cfg, s, poll).head == AcceptAll(cfg.network, s.head, OfferedHeads(cfg, s, PollBeacon(poll)))
  {
  }

  lemma StepHead(w: World, cfg: Config, s: State, j: Job)
    ensures Step(w, cfg, s, j).head == AcceptAll(cfg.network, s.head, OfferedHeads(cfg, s, j))
  {
    if j.Receive? {
      ReceiveHead(w, cfg, s, j.src, j.packet, j.ch);
      assert j == Receive(j.src, j.packet, j.ch);
    } else if j.PollBeacon? {
      PollHead(w, cfg, s, j.poll);
    } else if j.Retry? {
      RetryKeepsCaches(s, j.at);
    }
  }

  lemma HeadAfterAppend(net: byte, bs: seq<HeadBeacon>, more: seq<HeadBeacon>)
    requires |more| <= 1
    ensures HeadAfter(net, bs + more) == AcceptAll(net, HeadAfter(net, bs), more)
  {
    if more == [] {
      assert bs + more == bs;
    } else {
      assert (bs + more)[..|bs|] == bs;
    }
  }

  /** On every run of a node its head is the head of a cache that was offered exactly the beacons of admitted
      frames and own polls, in that order. */
  lemma {:induction false} HeadIsWhatWasHeard(w: World, cfg: Config, seed: u64, js: seq<Job>)
    ensures Run(w, cfg, Init(seed), js).head == HeadAfter(cfg.network, HeardHeads(w, cfg, Init(seed), js))
    decreases |js|
  {
    if js != [] {
      var init, j := js[..|js| - 1], js[|js| - 1];
      HeadIsWhatWasHeard(w, cfg, seed, init);
      var s := Run(w, cfg, Init(seed), init);
      StepHead(w, cfg, s, j);
      HeadAfterAppend(cfg.network, HeardHeads(w, cfg, Init(seed), init), OfferedHeads(cfg, s, j));
    }
  }

  function ObserveListed(net: byte, es: B.Entries, rs: seq<B.BalanceResponse>): B.Entries {
    if rs == [] then es else B.ObserveBalance(net, es, rs[0])
  }

  lemma AnswerBalances(w: World, cfg: Config, s: State, address: B.Address, a: BalanceAnswer, now: u64)
    ensures AnswerBalance(w, cfg, s, address, a, now).balances
         == B.ObserveBalance(cfg.network, s.balances, B.BalanceResponse(address, a.balance, a.headHeight, a.networkId))
  {
  }

  lemma RelayKeepsBalances(s: State, p: Packet, src: Option<Peer>, at: nat, ch: Choice)
    ensures RelayOnward(s, p, src, at, ch).balances == s.balances
  {
  }

  /** The state after a gateway's own answer, if it has one. */
  function Answered(w: World, cfg: Config, s: State, payload: seq<byte>, ch: Choice): State {
    var query := B.DecodeQuery(payload);
    if cfg.isGateway && query.Some? && ch.balance.Some?
    then AnswerBalance(w, cfg, s, query.value, ch.balance.value, ch.now) else s
  }

  lemma AnsweredBalances(w: World, cfg: Config, s: State, payload: seq<byte>, ch: Choice)
    ensures Answered(w, cfg, s, payload, ch).balances ==
            ObserveListed(cfg.network, s.balances, if cfg.isGateway then OwnAnswer(payload, ch) else [])
  {
    var query := B.DecodeQuery(payload);
    if cfg.isGateway && query.Some? && ch.balance.Some? {
      AnswerBalances(w, cfg, s, query.value, ch.balance.value, ch.now);
    }
  }

  lemma QueryIs(w: World, cfg: Config, s: State, p: Packet, src: Option<Peer>, ch: Choice)
    requires Unseen(s, p)
    ensures HandleBalanceQuery(w, cfg, s, p, src, ch).balances
         == Answered(w, cfg, Remember(w, MarkSeen(s, p), p, ch.now), p.payload, ch).balances
  {
    var t := Answered(w, cfg, Remember(w, MarkSeen(s, p), p, ch.now), p.payload, ch);
    assert HandleBalanceQuery(w, cfg, s, p, src, ch) == RelayOnward(t, p, src, |s.relaySeen|, ch);
    RelayKeepsBalances(t, p, src, |s.relaySeen|, ch);
  }

  lemma QueryBalances(w: World, cfg: Config, s: State, p: Packet, src: Option<Peer>, ch: Choice)
    requires Unseen(s, p)
    ensures HandleBalanceQuery(w, cfg, s, p, src, ch).balances ==
            ObserveListed(cfg.network, s.balances, if cfg.isGateway then OwnAnswer(p.payload, ch) else [])
  {
    var s1 := Remember(w, MarkSeen(s, p), p, ch.now);
    assert s1.balances == s.balances;
    QueryIs(w, cfg, s, p, src, ch);
    AnsweredBalances(w, cfg, s1, p.payload, ch);
  }

  lemma ResponseBalances(w: World, cfg: Config, s: State, p: Packet, src: Option<Peer>, ch: Choice)
    requires Unseen(s, p)
    ensures HandleBalanceResponse(w, cfg, s, p, src, ch).balances ==
            ObserveListed(cfg.network, s.balances, Listed(B.DecodeResponse(p.payload)))
  {
    assert AbsorbBalance(cfg, MarkSeen(s, p), p.payload).balances
        == ObserveListed(cfg.network, s.balances, Listed(B.DecodeResponse(p.payload)));
  }

  lemma OthersKeepBalances(w: World, cfg: Config, s: State, p: Packet, src: Option<Peer>, ch: Choice)
    requires p.msgType != NimiqBalanceQuery && p.msgType != NimiqBalanceResponse
    ensures Dispatch(w, cfg, s, p, src, ch).balances == s.balances
  {
  }

  lemma SeenKeepsBalances(w: World, cfg: Config, s: State, p: Packet, src: Option<Peer>, ch: Choice)
    requires !Unseen(s, p) && (p.msgType == NimiqBalanceQuery || p.msgType == NimiqBalanceResponse)
    ensures Dispatch(w, cfg, s, p, src, ch).balances == s.balances
  {
  }

  lemma QueryIsRouted(w: World, cfg: Config, s: State, p: Packet, src: Option<Peer>, ch: Choice)
    requires p.msgType == NimiqBalanceQuery
    ensures Dispatch(w, cfg, s, p, src, ch) == HandleBalanceQuery(w, cfg, s, p, src, ch)
  {
  }

  lemma ResponseIsRouted(w: World, cfg: Config, s: State, p: Packet, src: Option<Peer>, ch: Choice)
    requires p.msgType == NimiqBalanceResponse
    ensures Dispatch(w, cfg, s, p, src, ch) == HandleBalanceResponse(w, cfg, s, p, src, ch)
  {
  }

  lemma OfferedByFrame(cfg: Config, s: State, p: Packet, ch: Choice)
    requires Unseen(s, p)
    ensures p.msgType == NimiqBalanceQuery ==>
              OfferedBalances(cfg, s, Receive(None, p, ch)) == if cfg.isGateway then OwnAnswer(p.payload, ch) else []
    ensures p.msgType == NimiqBalanceResponse ==>
              OfferedBalances(cfg, s, Receive(None, p, ch)) == Listed(B.DecodeResponse(p.payload))
  {
  }

  lemma DispatchBalances(w: World, cfg: Config, s: State, p: Packet, src: Option<Peer>, ch: Choice)
    ensures Dispatch(w, cfg, s, p, src, ch).balances ==
            ObserveListed(cfg.network, s.balances, OfferedBalances(cfg, s, Receive(None, p, ch)))
  {
    if p.msgType != NimiqBalanceQuery && p.msgType != NimiqBalanceResponse {
      OthersKeepBalances(w, cfg, s, p, src, ch);
    } else if !Unseen(s, p) {
      SeenKeepsBalances(w, cfg, s, p, src, ch);
    } else {
      OfferedByFrame(cfg, s, p, ch);
      if p.msgType == NimiqBalanceQuery {
        QueryIsRouted(w, cfg, s, p, src, ch);
        QueryBalances(w, cfg, s, p, src, ch);
      } else {
        ResponseIsRouted(w, cfg, s, p, src, ch);
        ResponseBalances(w, cfg, s, p, src, ch);
      }
    }
  }

  lemma ReceiveBalances(w: World, cfg: Config, s: State, src: Option<Peer>, p: Packet, ch: Choice)
    ensures Inbound(w, cfg, s, src, p, ch).balances
         == ObserveListed(cfg.network, s.balances, OfferedBalances(cfg, s, Receive(src, p, ch)))
  {
    if p.flags.isRsr {
      assert KeyOf(Unwrapped(p)) == KeyOf(p);
      DispatchBalances(w, cfg, s, Unwrapped(p), None, ch);
    } else {
      DispatchBalances(w, cfg, s, p, src, ch);
    }
  }

  lemma StepBalances(w: World, cfg: Config, s: State, j: Job)
    ensures Step(w, cfg, s, j).balances == ObserveListed(cfg.network, s.balances, OfferedBalances(cfg, s, j))
  {
    if j.Receive? {
      ReceiveBalances(w, cfg, s, j.src, j.packet, j.ch);
      assert j == Receive(j.src, j.packet, j.ch);
    } else if j.Retry? {
      RetryKeepsCaches(s, j.at);
    }
  }

  lemma EntriesAfterAppend(net: byte, rs: seq<B.BalanceResponse>, more: seq<B.BalanceResponse>)
    requires |more| <= 1
    ensures B.EntriesAfter(net, rs + more) == ObserveListed(net, B.EntriesAfter(net, rs), more)
  {
    if more == [] {
      assert rs + more == rs;
    } else {
      assert (rs + more)[..|rs|] == rs;
    }
  }

  /** On every run of a node its balances are those of a cache that was offered exactly the responses of
      admitted frames and the node's own answers, in that order. */
  lemma {:induction false} BalancesAreWhatWasHeard(w: World, cfg: Config, seed: u64, js: seq<Job>)
    ensures Run(w, cfg, Init(seed), js).balances ==
            B.EntriesAfter(cfg.network, HeardBalances(w, cfg, Init(seed), js))
    decreases |js|
  {
    if js != [] {
      var init, j := js[..|js| - 1], js[|js| - 1];
      BalancesAreWhatWasHeard(w, cfg, seed, init);
      var s := Run(w, cfg, Init(seed), init);
      StepBalances(w, cfg, s, j);
      EntriesAfterAppend(cfg.network, HeardBalances(w, cfg, Init(seed), init), OfferedBalances(cfg, s, j));
    }
  }
}
