/** What single handlers achieve, said without their bodies: who is sent what, which entries survive, and
    how a receipt finds its way to the node that waits for it. */
module Handlers {
  import opened Bytes
  import opened Packet
  import opened Dedup
  import opened Settlement
  import opened Engine
  import E = Envelope

  // ----- sending -----

  ghost predicate NoRepeats(peers: seq<Peer>) { forall i, j :: 0 <= i < j < |peers| ==> peers[i] != peers[j] }

  /** A flood sends to every peer but the excluded one, and to nobody else. */
  lemma {:induction false} SendsExactly(peers: seq<Peer>, p: Packet, exclude: Option<Peer>, q: Peer)
    ensures Send(q, p) in Sends(peers, p, exclude) <==> q in peers && Some(q) != exclude
    decreases |peers|
  {
    if peers != [] {
      SendsExactly(peers[..|peers| - 1], p, exclude, q);
    }
  }

  ghost predicate OncePerPeer(out: seq<Send>) { forall i, j :: 0 <= i < j < |out| ==> out[i].peer != out[j].peer }

  /** And to nobody twice. */
  lemma {:induction false} SendsOnce(peers: seq<Peer>, p: Packet, exclude: Option<Peer>)
    requires NoRepeats(peers)
    ensures OncePerPeer(Sends(peers, p, exclude))
    decreases |peers|
  {
    if peers != [] {
      var init := peers[..|peers| - 1];
      SendsOnce(init, p, exclude);
      var out, last := Sends(init, p, exclude), peers[|peers| - 1];
      forall i | 0 <= i < |out| ensures out[i].peer != last {
        assert out[i] in out;
        var k :| 0 <= k < |init| && init[k] == out[i].peer;
      }
      var all := Sends(peers, p, exclude);
      assert all == if Some(last) == exclude then out else out + [Send(last, p)];
    }
  }

  /** Links stay a set: adding and removing a peer changes that peer only, and never repeats one. */
  lemma {:induction false} PeersAreASet(peers: seq<Peer>, p: Peer, q: Peer)
    requires NoRepeats(peers)
    ensures NoRepeats(AddPeer(peers, p)) && NoRepeats(RemovePeer(peers, p))
    ensures q in AddPeer(peers, p) <==> q == p || q in peers
    ensures q in RemovePeer(peers, p) <==> q != p && q in peers
    decreases |peers|
  {
    if peers != [] {
      var init, last := peers[..|peers| - 1], peers[|peers| - 1];
      PeersAreASet(init, p, q);
      PeersAreASet(init, p, last);
    }
  }

  // ----- the store-and-forward cache -----

  /** Collection removes a prefix of entries past the retention and stops at the first that is not. */
  lemma {:induction false} GcDropsOldPrefix(r: seq<Stored>, now: u64)
    ensures var kept := Gc(r, now);
            && (kept != [] ==> SatSub(now, kept[0].at) <= RECENT_RETENTION_MS)
            && forall i :: 0 <= i < |r| - |kept| ==> SatSub(now, r[i].at) > RECENT_RETENTION_MS
    decreases |r|
  {
    if r != [] && SatSub(now, r[0].at) > RECENT_RETENTION_MS {
      GcDropsOldPrefix(r[1..], now);
      forall i | 0 < i < |r| ensures r[i] == r[1..][i - 1] {
      }
    }
  }

  /** If entries were stored in the order of their times, exactly the entries within the retention stay. */
  lemma GcKeepsExactlyTheLive(r: seq<Stored>, now: u64, i: nat)
    requires i < |r| && forall j, k :: 0 <= j <= k < |r| ==> r[j].at <= r[k].at
    ensures i >= |r| - |Gc(r, now)| <==> SatSub(now, r[i].at) <= RECENT_RETENTION_MS
  {
    GcDropsOldPrefix(r, now);
    var cut := |r| - |Gc(r, now)|;
    if i >= cut {
      assert Gc(r, now)[0] == r[cut] && r[cut].at <= r[i].at;
    }
  }

  /** Ids are distinct and entries stand in the order of their times, none in the future. */
  ghost predicate Tidy(r: seq<Stored>, now: u64) {
    && (forall i, j :: 0 <= i < j < |r| ==> r[i].id != r[j].id && r[i].at <= r[j].at)
    && (forall i :: 0 <= i < |r| ==> r[i].at <= now)
  }

  lemma SuffixTidy(r: seq<Stored>, k: nat, now: u64)
    requires Tidy(r, now) && k <= |r|
    ensures Tidy(r[k..], now)
  {
  }

  lemma AppendTidy(r: seq<Stored>, x: Stored, now: u64)
    requires Tidy(r, now) && !HasId(r, x.id) && x.at == now
    ensures Tidy(r + [x], now) && HasId(r + [x], x.id)
  {
    assert (r + [x])[|r|] == x;
  }

  /** What is left of the live entries when one more is stored. */
  function MadeRoom(live: seq<Stored>): seq<Stored> { if |live| >= RECENT_CACHE_CAP then live[1..] else live }

  lemma StoreTidy(live: seq<Stored>, x: Stored, now: u64)
    requires Tidy(live, now) && |live| <= RECENT_CACHE_CAP && !HasId(live, x.id) && x.at == now
    ensures var kept := MadeRoom(live) + [x];
            Tidy(kept, now) && |kept| <= RECENT_CACHE_CAP && HasId(kept, x.id)
  {
    var k := if |live| >= RECENT_CACHE_CAP then 1 else 0;
    var room := MadeRoom(live);
    assert room == live[k..];
    SuffixTidy(live, k, now);
    AppendTidy(room, x, now);
  }

  /** Storing keeps the cache tidy and bounded, and the offered id is in it afterwards. */
  lemma KeepTidy(r: seq<Stored>, id: nat, p: Packet, now: u64)
    requires Tidy(r, now) && |r| <= RECENT_CACHE_CAP
    ensures var kept := Keep(r, id, p, now); Tidy(kept, now) && |kept| <= RECENT_CACHE_CAP && HasId(kept, id)
  {
    var live := Gc(r, now);
    SuffixTidy(r, |r| - |live|, now);
    KeepIs(r, id, p, now);
    if !HasId(live, id) {
      StoreTidy(live, Stored(id, p, now), now);
    }
  }

  lemma WithoutFirst(live: seq<Stored>, now: u64, x: Stored)
    requires live != [] && Tidy(live, now)
    ensures x in live[1..] <==> x in live && x != live[0]
  {
    assert live == [live[0]] + live[1..];
    assert forall i :: 0 <= i < |live| - 1 ==> live[1..][i] == live[i + 1];
  }

  lemma RoomExactly(live: seq<Stored>, now: u64, x: Stored)
    requires Tidy(live, now) && |live| <= RECENT_CACHE_CAP
    ensures x in MadeRoom(live) <==> x in live && !(|live| == RECENT_CACHE_CAP && x == live[0])
  {
    if |live| == RECENT_CACHE_CAP {
      WithoutFirst(live, now, x);
    }
  }

  lemma KeepIs(r: seq<Stored>, id: nat, p: Packet, now: u64)
    ensures var live := Gc(r, now);
            Keep(r, id, p, now) == if HasId(live, id) then live else MadeRoom(live) + [Stored(id, p, now)]
  {
  }

  /** Storing forgets an entry only past its retention, or the oldest live one to make room in a full cache;
      it adds the offered packet exactly when its id was not there. */
  lemma KeepExactly(r: seq<Stored>, id: nat, p: Packet, now: u64, x: Stored, live: seq<Stored>)
    requires Tidy(r, now) && |r| <= RECENT_CACHE_CAP && live == Gc(r, now)
    ensures x in Keep(r, id, p, now) <==>
            if HasId(live, id) then x in live
            else x == Stored(id, p, now) || (x in live && !(|live| == RECENT_CACHE_CAP && x == live[0]))
  {
    SuffixTidy(r, |r| - |live|, now);
    KeepIs(r, id, p, now);
    RoomExactly(live, now, x);
  }

  function Flagged(p: Packet): Packet { p.(flags := p.flags.(isRsr := true)) }

  /** The catch-up reply holds exactly the encodable cached packets the filter does not cover. */
  lemma {:induction false} CatchUpExactly(w: World, r: seq<Stored>, filter: seq<byte>, requester: Peer, x: Send)
    ensures x in CatchUp(w, r, filter, requester) <==>
            exists i :: 0 <= i < |r| && !w.filterCovers(filter, r[i].id) && Encodable(r[i].packet)
                        && x == Send(requester, Flagged(r[i].packet))
    decreases |r|
  {
    if r != [] {
      var n := |r| - 1;
      CatchUpExactly(w, r[..n], filter, requester, x);
      var init := CatchUp(w, r[..n], filter, requester);
      if x in init {
        var i :| 0 <= i < n && !w.filterCovers(filter, r[..n][i].id) && Encodable(r[..n][i].packet)
                 && x == Send(requester, Flagged(r[..n][i].packet));
        assert r[..n][i] == r[i];
      }
      if i :| 0 <= i < |r| && !w.filterCovers(filter, r[i].id) && Encodable(r[i].packet)
              && x == Send(requester, Flagged(r[i].packet)) {
        assert i < n ==> r[..n][i] == r[i];
      }
    }
  }

  /** Entry `i` is what `x` hands to the requester. */
  predicate Serves(w: World, r: seq<Stored>, filter: seq<byte>, requester: Peer, x: Send, i: int) {
    0 <= i < |r| && !w.filterCovers(filter, r[i].id) && Encodable(r[i].packet)
    && x == Send(requester, Flagged(r[i].packet))
  }

  lemma CatchUpServes(w: World, r: seq<Stored>, filter: seq<byte>, requester: Peer, x: Send)
    ensures x in CatchUp(w, r, filter, requester) <==> exists i :: Serves(w, r, filter, requester, x, i)
  {
    CatchUpExactly(w, r, filter, requester, x);
    if i :| Serves(w, r, filter, requester, x, i) {
    }
    if i :| 0 <= i < |r| && !w.filterCovers(filter, r[i].id) && Encodable(r[i].packet)
            && x == Send(requester, Flagged(r[i].packet)) {
      assert Serves(w, r, filter, requester, x, i);
    }
  }

  predicate Retained(s: Stored, now: u64) { SatSub(now, s.at) <= RECENT_RETENTION_MS }

  lemma LiveToStored(w: World, r: seq<Stored>, filter: seq<byte>, requester: Peer, now: u64, x: Send, i: nat)
    requires Tidy(r, now) && Serves(w, Gc(r, now), filter, requester, x, i)
    ensures var k := |r| - |Gc(r, now)| + i; Serves(w, r, filter, requester, x, k) && Retained(r[k], now)
  {
    var cut := |r| - |Gc(r, now)|;
    TailServes(w, r, cut, filter, requester, x, i);
    GcKeepsExactlyTheLive(r, now, cut + i);
  }

  lemma StoredToLive(w: World, r: seq<Stored>, filter: seq<byte>, requester: Peer, now: u64, x: Send, i: nat)
    requires Tidy(r, now) && Serves(w, r, filter, requester, x, i) && Retained(r[i], now)
    ensures var cut := |r| - |Gc(r, now)|; i >= cut && Serves(w, Gc(r, now), filter, requester, x, i - cut)
  {
    GcKeepsExactlyTheLive(r, now, i);
    TailServes(w, r, |r| - |Gc(r, now)|, filter, requester, x, i - (|r| - |Gc(r, now)|));
  }

  lemma LiveServes(w: World, r: seq<Stored>, filter: seq<byte>, requester: Peer, now: u64, x: Send)
    requires Tidy(r, now)
    ensures (exists i :: Serves(w, Gc(r, now), filter, requester, x, i)) <==>
            exists i :: Serves(w, r, filter, requester, x, i) && Retained(r[i], now)
  {
    if i :| Serves(w, Gc(r, now), filter, requester, x, i) {
      LiveToStored(w, r, filter, requester, now, x, i);
    }
    if i :| Serves(w, r, filter, requester, x, i) && Retained(r[i], now) {
      StoredToLive(w, r, filter, requester, now, x, i);
    }
  }

  lemma TailServes(w: World, r: seq<Stored>, k: nat, filter: seq<byte>, requester: Peer, x: Send, i: nat)
    requires k <= |r|
    ensures Serves(w, r[k..], filter, requester, x, i) <==> Serves(w, r, filter, requester, x, k + i)
  {
    assert k + i < |r| ==> r[k..][i] == r[k + i];
  }

  /** What a sync request is answered with, exactly: the cached packets within the 15-minute retention that the
      filter does not cover. The head is not asked, so a transaction whose window closed after it was stored is
      served until its retention ends. */
  lemma ServedIff(w: World, s: State, request: Packet, requester: Peer, now: u64, x: Send)
    requires Tidy(s.recent, now) && w.filterParses(request.payload)
    ensures var t := HandleRequestSync(w, s, request, Some(requester), now);
            && s.outbox <= t.outbox
            && (x in t.outbox[|s.outbox|..] <==>
                  exists i :: Serves(w, s.recent, request.payload, requester, x, i) && Retained(s.recent[i], now))
  {
    var live := Gc(s.recent, now);
    var t := HandleRequestSync(w, s, request, Some(requester), now);
    assert t.outbox[|s.outbox|..] == CatchUp(w, live, request.payload, requester);
    CatchUpServes(w, live, request.payload, requester, x);
    LiveServes(w, s.recent, request.payload, requester, now, x);
  }

  /** A sync request makes a node forget exactly what is past its retention; else it changes only the outbox. */
  lemma RequestForgetsTheOld(w: World, s: State, request: Packet, requester: Peer, now: u64, i: nat)
    requires Tidy(s.recent, now) && w.filterParses(request.payload) && i < |s.recent|
    ensures var t := HandleRequestSync(w, s, request, Some(requester), now);
            && t == s.(recent := t.recent, outbox := t.outbox) && |t.recent| <= |s.recent|
            && t.recent == s.recent[|s.recent| - |t.recent|..]
            && (i >= |s.recent| - |t.recent| <==> now <= s.recent[i].at + 900_000)
  {
    GcKeepsExactlyTheLive(s.recent, now, i);
  }

  /** The failing input: a transaction the node itself would now refuse as expired is still handed out. */
  lemma DeadIsStillServed(w: World, cfg: Config, s: State, i: nat, request: Packet, requester: Peer, now: u64)
    requires Tidy(s.recent, now) && w.filterParses(request.payload) && i < |s.recent|
    requires SatSub(now, s.recent[i].at) <= RECENT_RETENTION_MS && !w.filterCovers(request.payload, s.recent[i].id)
    requires Encodable(s.recent[i].packet) && TxRefused(w, cfg, s, s.recent[i].packet)
    ensures Send(requester, Flagged(s.recent[i].packet))
            in HandleRequestSync(w, s, request, Some(requester), now).outbox
  {
    var x := Send(requester, Flagged(s.recent[i].packet));
    ServedIff(w, s, request, requester, now, x);
    assert Serves(w, s.recent, request.payload, requester, x, i) && Retained(s.recent[i], now);
  }

  // ----- receipts -----

  lemma {:induction false} ClearPendingExactly(ps: seq<PendingTx>, id: E.TxId, e: PendingTx)
    ensures e in ClearPending(ps, id) <==> e in ps && e.txId != id
    decreases |ps|
  {
    if ps != [] {
      ClearPendingExactly(ps[..|ps| - 1], id, e);
    }
  }

  /** A new receipt closes its payment if it was pending, and ends its retries; no other payment and no
      other retry changes. */
  lemma ReceiptCloses(w: World, s: State, p: Packet, src: Option<Peer>, ch: Choice, r: Receipt, x: E.TxId, e: PendingTx)
    requires Unseen(s, p) && DecodeReceipt(p.payload) == Some(r)
    ensures var t := HandleReceipt(w, s, p, src, ch);
            && t.ledger.Keys == s.ledger.Keys
            && (x in s.ledger ==>
                  t.ledger[x] == if x == r.txId && s.ledger[x].status == Pending
                                 then s.ledger[x].(status := PaymentOf(r.status)) else s.ledger[x])
            && (e in t.pending <==> e in s.pending && e.txId != r.txId)
  {
    HandleReceiptIs(w, s, p, src, ch, r);
    SettleExactly(s.ledger, r.txId, PaymentOf(r.status), x);
    ClearPendingExactly(s.pending, r.txId, e);
  }

  lemma SettleExactly(l: Ledger, id: E.TxId, status: PaymentStatus, x: E.TxId)
    ensures var t := Settle(l, id, status);
            && t.Keys == l.Keys
            && (x in l ==> t[x] == if x == id && l[x].status == Pending then l[x].(status := status) else l[x])
  {
  }

  lemma HandleReceiptIs(w: World, s: State, p: Packet, src: Option<Peer>, ch: Choice, r: Receipt)
    requires Unseen(s, p) && DecodeReceipt(p.payload) == Some(r)
    ensures var t := HandleReceipt(w, s, p, src, ch);
            t.ledger == Settle(s.ledger, r.txId, PaymentOf(r.status)) && t.pending == ClearPending(s.pending, r.txId)
  {
    ApplyReceiptIs(Remember(w, MarkSeen(s, p), p, ch.now), p.payload, r);
  }

  lemma ApplyReceiptIs(s: State, payload: seq<byte>, r: Receipt)
    requires DecodeReceipt(payload) == Some(r)
    ensures var t := ApplyReceipt(s, payload);
            t.ledger == Settle(s.ledger, r.txId, PaymentOf(r.status)) && t.pending == ClearPending(s.pending, r.txId)
  {
  }

  /** A gateway that takes a fresh transaction and gets a verdict tells every peer, with its own id. */
  lemma GatewayReports(w: World, cfg: Config, s: State, p: Packet, src: Option<Peer>, ch: Choice,
                       e: E.NimiqEnvelope, q: Peer) returns (x: Send)
    requires cfg.isGateway && Unseen(s, p) && !TxRefused(w, cfg, MarkSeen(s, p), p) && E.Decoded(p.payload) == Ok(e)
    requires IsNew(s.gatewaySeen, GATEWAY_CACHE_CAP, TxIdIn(w, e)) && ch.submit.Some? && q in s.peers
    ensures x in HandleTx(w, cfg, s, p, src, ch).outbox && x.peer == q && x.packet.msgType == NimiqTxReceipt
    ensures x.packet.ttl == 7 && x.packet.senderId == cfg.senderId && x.packet.timestampMs == s.nextSeq
    ensures DecodeReceipt(x.packet.payload) == Some(Receipt(TxIdIn(w, e), ch.submit.value))
  {
    var s1 := Remember(w, MarkSeen(s, p), p, ch.now);
    var s2 := Submit(w, cfg, s1, e, ch);
    x := SubmitReports(w, cfg, s1, e, ch, q);
    assert x in RelayOnward(s2, p, src, |s.relaySeen|, ch).outbox;
  }

  lemma SubmitReports(w: World, cfg: Config, s: State, e: E.NimiqEnvelope, ch: Choice, q: Peer) returns (x: Send)
    requires IsNew(s.gatewaySeen, GATEWAY_CACHE_CAP, TxIdIn(w, e)) && ch.submit.Some? && q in s.peers
    ensures x in Submit(w, cfg, s, e, ch).outbox && x.peer == q && x.packet.msgType == NimiqTxReceipt
    ensures x.packet.ttl == 7 && x.packet.senderId == cfg.senderId && x.packet.timestampMs == s.nextSeq
    ensures DecodeReceipt(x.packet.payload) == Some(Receipt(TxIdIn(w, e), ch.submit.value))
  {
    var r := Receipt(TxIdIn(w, e), ch.submit.value);
    var reply := Built(cfg, s, NimiqTxReceipt, EncodeReceipt(r));
    ReceiptRoundTrip(r);
    SendsExactly(s.peers, reply, None, q);
    x := Send(q, reply);
    assert Submit(w, cfg, s, e, ch).outbox == s.outbox + Sends(s.peers, reply, None);
  }

  /** Catch-up closes payments: a node that slept through a receipt and asks a peer still holding it is
      sent that receipt, and on handling the reply its pending payment takes the receipt's verdict. */
  lemma CatchUpSettles(w: World, holder: State, i: nat, request: Packet, requester: Peer, now: u64,
                       cfg: Config, sleeper: State, src: Option<Peer>, ch: Choice, r: Receipt)
    requires i < |Gc(holder.recent, now)|
    requires var y := Gc(holder.recent, now)[i];
             && y.packet.msgType == NimiqTxReceipt && DecodeReceipt(y.packet.payload) == Some(r) && Encodable(y.packet)
             && w.filterParses(request.payload) && !w.filterCovers(request.payload, y.id)
             && Unseen(sleeper, y.packet)
    requires ch.rateOk && r.txId in sleeper.ledger && sleeper.ledger[r.txId].status == Pending
    ensures var reply := Flagged(Gc(holder.recent, now)[i].packet);
            var after := Inbound(w, cfg, sleeper, src, reply, ch);
            && Send(requester, reply) in HandleRequestSync(w, holder, request, Some(requester), now).outbox
            && r.txId in after.ledger && after.ledger[r.txId].status == PaymentOf(r.status)
  {
    var live := Gc(holder.recent, now);
    var reply := Flagged(live[i].packet);
    CatchUpExactly(w, live, request.payload, requester, Send(requester, reply));
    ReplyCloses(w, cfg, sleeper, src, reply, ch, r);
  }

  lemma ReplyCloses(w: World, cfg: Config, s: State, src: Option<Peer>, reply: Packet, ch: Choice, r: Receipt)
    requires reply.flags.isRsr && reply.msgType == NimiqTxReceipt && DecodeReceipt(reply.payload) == Some(r)
    requires Unseen(s, reply) && ch.rateOk && r.txId in s.ledger && s.ledger[r.txId].status == Pending
    ensures var after := Inbound(w, cfg, s, src, reply, ch);
            r.txId in after.ledger && after.ledger[r.txId].status == PaymentOf(r.status)
  {
    var p := Unwrapped(reply);
    assert KeyOf(p) == KeyOf(reply);
    var e: PendingTx := PendingTx(r.txId, p, None, 0, None);
    ReceiptCloses(w, s, p, None, ch, r, r.txId, e);
    assert Inbound(w, cfg, s, src, reply, ch) == HandleReceipt(w, s, p, None, ch);
  }

  // ----- the retry tick -----

  ghost predicate DeadFor(ps: seq<PendingTx>, head: Option<u32>, now: u64, id: E.TxId) {
    exists i :: 0 <= i < |ps| && ps[i].txId == id && PendingDead(ps[i], head, now)
  }

  /** The tick fails exactly the still pending payments that have a dead entry. */
  lemma {:induction false} FailsExactlyTheDead(l: Ledger, ps: seq<PendingTx>, head: Option<u32>, now: u64, id: E.TxId)
    ensures var t := FailDead(l, ps, head, now);
            && (id in t <==> id in l)
            && (id in l ==> t[id] == if l[id].status == Pending && DeadFor(ps, head, now, id)
                                     then l[id].(status := PaymentStatus.Failed) else l[id])
    decreases |ps|
  {
    if ps != [] {
      var init, last := ps[..|ps| - 1], ps[|ps| - 1];
      FailsExactlyTheDead(l, init, head, now, id);
      DeadForStep(ps, head, now, id);
    }
  }

  lemma DeadForStep(ps: seq<PendingTx>, head: Option<u32>, now: u64, id: E.TxId)
    requires ps != []
    ensures var last := ps[|ps| - 1];
            DeadFor(ps, head, now, id) <==>
            DeadFor(ps[..|ps| - 1], head, now, id) || (last.txId == id && PendingDead(last, head, now))
  {
    var init := ps[..|ps| - 1];
    if i :| 0 <= i < |init| && init[i].txId == id && PendingDead(init[i], head, now) {
      assert ps[i] == init[i];
    }
    if i :| 0 <= i < |ps| && ps[i].txId == id && PendingDead(ps[i], head, now) {
      assert i < |init| ==> init[i] == ps[i];
    }
  }

  lemma {:induction false} KeepsExactlyTheLiving(ps: seq<PendingTx>, head: Option<u32>, now: u64, e: PendingTx)
    ensures e in LivePending(ps, head, now) <==> e in ps && !PendingDead(e, head, now)
    decreases |ps|
  {
    if ps != [] {
      KeepsExactlyTheLiving(ps[..|ps| - 1], head, now, e);
    }
  }

  /** Re-flooding stamps exactly the due entries, leaves the rest alone, and sends each due and encodable
      packet to every peer. */
  lemma {:induction false} RetriesExactlyTheDue(s: State, k: nat, now: u64, i: nat, q: Peer)
    requires k <= |s.pending| && i < k
    ensures var t := Retried(s, k, now);
            && t.peers == s.peers && s.outbox <= t.outbox
            && t.pending[i] == (if RetryDue(s.pending[i], now) then s.pending[i].(lastFloodMs := Some(now))
                                else s.pending[i])
            && (RetryDue(s.pending[i], now) && Encodable(s.pending[i].packet) && q in s.peers ==>
                  Send(q, s.pending[i].packet) in t.outbox)
    decreases k
  {
    var s1 := Retried(s, k - 1, now);
    RetriedFrame(s, k - 1, now);
    if i < k - 1 {
      RetriesExactlyTheDue(s, k - 1, now, i, q);
    } else {
      assert s1.pending[i] == s1.pending[k - 1..][0] == s.pending[i];
      SendsExactly(s.peers, s.pending[i].packet, None, q);
    }
  }

  /** And nothing else is sent: whatever the tick adds is a due entry's packet on the way to a peer. */
  lemma {:induction false} RetriesNothingElse(s: State, k: nat, now: u64, x: Send)
    requires k <= |s.pending|
    requires |s.outbox| <= |Retried(s, k, now).outbox| && x in Retried(s, k, now).outbox[|s.outbox|..]
    ensures exists i :: 0 <= i < k && RetryDue(s.pending[i], now) && Encodable(s.pending[i].packet)
                        && x.packet == s.pending[i].packet && x.peer in s.peers
    decreases k
  {
    if k == 0 {
      assert false;
    } else {
      RetriedFrame(s, k - 1, now);
      var s1 := Retried(s, k - 1, now);
      var e := s1.pending[k - 1];
      assert e == s1.pending[k - 1..][0] == s.pending[k - 1];
      if x in s1.outbox[|s.outbox|..] {
        RetriesNothingElse(s, k - 1, now, x);
      } else {
        NewSend(s1, k - 1, now, |s.outbox|, x);
      }
    }
  }

  lemma NewSend(s: State, i: nat, now: u64, start: nat, x: Send)
    requires i < |s.pending| && start <= |s.outbox|
    requires start <= |RetryEntry(s, i, now).outbox| && x in RetryEntry(s, i, now).outbox[start..]
    requires x !in s.outbox[start..]
    ensures RetryDue(s.pending[i], now) && Encodable(s.pending[i].packet)
    ensures x.packet == s.pending[i].packet && x.peer in s.peers
  {
    var t, e := RetryEntry(s, i, now), s.pending[i];
    var out := if RetryDue(e, now) && Encodable(e.packet) then Sends(s.peers, e.packet, None) else [];
    assert t.outbox == s.outbox + out;
    assert t.outbox[start..] == s.outbox[start..] + out;
    assert x in out;
  }

  lemma {:induction false} RetriedFrame(s: State, k: nat, now: u64)
    requires k <= |s.pending|
    ensures Retried(s, k, now).peers == s.peers && s.outbox <= Retried(s, k, now).outbox
    decreases k
  {
    if k > 0 {
      RetriedFrame(s, k - 1, now);
    }
  }

  // ----- links over whole runs -----

  lemma DispatchKeepsPeers(w: World, cfg: Config, s: State, p: Packet, src: Option<Peer>, ch: Choice)
    ensures Dispatch(w, cfg, s, p, src, ch).peers == s.peers
  {
  }

  lemma StepKeepsPeers(w: World, cfg: Config, s: State, j: Job)
    requires !j.PeerUp? && !j.PeerDown?
    ensures Step(w, cfg, s, j).peers == s.peers
  {
    if j.Receive? {
      DispatchKeepsPeers(w, cfg, s, Unwrapped(j.packet), None, j.ch);
      DispatchKeepsPeers(w, cfg, s, j.packet, j.src, j.ch);
    } else if j.Retry? {
      var s1 := s.(ledger := FailDead(s.ledger, s.pending, HeadHeight(s), j.at),
                   pending := LivePending(s.pending, HeadHeight(s), j.at));
      RetriedFrame(s1, |s1.pending|, j.at);
    }
  }

  /** On every run a node's links are a set, so every flood reaches each peer at most once. */
  lemma {:induction false} PeersNeverRepeat(w: World, cfg: Config, seed: u64, js: seq<Job>)
    ensures NoRepeats(Run(w, cfg, Init(seed), js).peers)
    decreases |js|
  {
    if js != [] {
      var init, j := js[..|js| - 1], js[|js| - 1];
      PeersNeverRepeat(w, cfg, seed, init);
      var s := Run(w, cfg, Init(seed), init);
      if j.PeerUp? || j.PeerDown? {
        PeersAreASet(s.peers, j.peer, j.peer);
      } else {
        StepKeepsPeers(w, cfg, s, j);
      }
    }
  }
}
