/** Head beacons: codec, the monotonic head cache, the validity-window guard and the gateway's
    rate-limited, back-off-protected emission (`beacon.rs`). */
module Beacon {
  import opened Bytes
  import Gossip

  const BLOCK_HASH_LEN: nat := 32
  const BEACON_PAYLOAD_LEN: nat := 4 + BLOCK_HASH_LEN + 1
  const BEACON_TICK_MS: nat := 10_000
  const BEACON_RPC_BACKOFF_TICKS: nat := 5
  const VALIDITY_WINDOW: nat := 7200

  type Hash32 = s: seq<byte> | |s| == BLOCK_HASH_LEN witness seq(BLOCK_HASH_LEN, i => 0)

  datatype HeadBeacon = HeadBeacon(height: u32, blockHash: Hash32, networkId: byte)

  function EncodeBeacon(b: HeadBeacon): (s: seq<byte>)
    ensures |s| == BEACON_PAYLOAD_LEN
  {
    ToBE(b.height, 4) + b.blockHash + [b.networkId]
  }

  function DecodeBeacon(s: seq<byte>): (r: Option<HeadBeacon>)
    ensures r.Some? <==> |s| == BEACON_PAYLOAD_LEN
  {
    if |s| != BEACON_PAYLOAD_LEN then None
    else
      Pow256Values();
      Some(HeadBeacon(FromBE(s[..4]), s[4..4 + BLOCK_HASH_LEN], s[BEACON_PAYLOAD_LEN - 1]))
  }

  /** The beacon codec is a bijection between beacons and payloads of the exact length. */
  lemma BeaconCodec(b: HeadBeacon, s: seq<byte>)
    ensures DecodeBeacon(EncodeBeacon(b)) == Some(b)
    ensures |s| == BEACON_PAYLOAD_LEN ==> EncodeBeacon(DecodeBeacon(s).value) == s
  {
    Pow256Values();
    FromToBE(b.height, 4);
    var e := EncodeBeacon(b);
    assert e[..4] == ToBE(b.height, 4) && e[4..36] == b.blockHash;
    if |s| == BEACON_PAYLOAD_LEN {
      ToFromBE(s[..4]);
      assert s == s[..4] + s[4..36] + [s[36]];
    }
  }

  /** Height first, then the block hash, then the network. */
  lemma BeaconLayout(b: HeadBeacon)
    ensures var s := EncodeBeacon(b); s[..4] == ToBE(b.height, 4) && s[4..36] == b.blockHash && s[36] == b.networkId
  {
  }

  /** The validity-window guard: known head at or past a known window. */
  predicate IsExpired(head: Option<u32>, validUntil: Option<u32>) {
    head.Some? && validUntil.Some? && head.value >= validUntil.value
  }

  function ValidUntilOf(height: u32): u32 {
    Min(height + VALIDITY_WINDOW, U32_MAX)
  }

  /** Head `b` is known whenever head `a` is, and is at least as high. */
  ghost predicate NotBehind(a: Option<HeadBeacon>, b: Option<HeadBeacon>) {
    a.Some? ==> b.Some? && a.value.height <= b.value.height
  }

  /** The head a node on `net` holds after hearing `b`. */
  function AcceptHead(net: byte, latest: Option<HeadBeacon>, b: HeadBeacon): (head: Option<HeadBeacon>)
    ensures NotBehind(latest, head)
  {
    if b.networkId != net then latest
    else if latest.Some? && b.height <= latest.value.height then latest
    else Some(b)
  }

  /** The single key of the head cache. */
  datatype HeadKey = HEAD

  function AsObs(b: HeadBeacon): Gossip.Obs<HeadKey, Hash32> {
    Gossip.Obs(HEAD, b.height, b.blockHash, b.networkId)
  }

  function AsCache(latest: Option<HeadBeacon>): map<HeadKey, Gossip.Obs<HeadKey, Hash32>> {
    if latest.None? then map[] else map[HEAD := AsObs(latest.value)]
  }

  /** The head cache is the one-key case of a keep-the-freshest cache. */
  lemma HeadIsGossip(net: byte, latest: Option<HeadBeacon>, b: HeadBeacon)
    ensures AsCache(AcceptHead(net, latest, b)) == Gossip.Observe(net, AsCache(latest), AsObs(b))
  {
    var cache := AsCache(latest);
    assert HEAD in cache <==> latest.Some?;
  }

  function HeadAfter(net: byte, bs: seq<HeadBeacon>): Option<HeadBeacon> {
    if bs == [] then None else AcceptHead(net, HeadAfter(net, bs[..|bs| - 1]), bs[|bs| - 1])
  }

  function AllObs(bs: seq<HeadBeacon>): (os: seq<Gossip.Obs<HeadKey, Hash32>>)
    ensures |os| == |bs| && forall i :: 0 <= i < |bs| ==> os[i] == AsObs(bs[i])
  {
    seq(|bs|, i requires 0 <= i < |bs| => AsObs(bs[i]))
  }

  lemma {:induction false} HeadAfterIsGossip(net: byte, bs: seq<HeadBeacon>)
    ensures AsCache(HeadAfter(net, bs)) == Gossip.ObserveAll(net, AllObs(bs))
    decreases |bs|
  {
    if bs != [] {
      var init := bs[..|bs| - 1];
      HeadAfterIsGossip(net, init);
      assert AllObs(bs)[..|bs| - 1] == AllObs(init);
      HeadIsGossip(net, HeadAfter(net, init), bs[|bs| - 1]);
    }
  }

  lemma AsCacheInjective(x: Option<HeadBeacon>, y: Option<HeadBeacon>)
    ensures AsCache(x) == AsCache(y) <==> x == y
  {
    assert x.Some? <==> HEAD in AsCache(x).Keys;
    assert y.Some? <==> HEAD in AsCache(y).Keys;
    assert x.Some? && y.Some? ==> AsCache(x)[HEAD] == AsObs(x.value) && AsCache(y)[HEAD] == AsObs(y.value);
  }

  /** Caches offered the same beacons in any order hold a head of the same height, and the same
      head when the beacons at the greatest height heard on this network agree. */
  lemma HeadsConverge(net: byte, bs: seq<HeadBeacon>, cs: seq<HeadBeacon>)
    requires Gossip.SameHeard(AllObs(bs), AllObs(cs))
    ensures var x, y := HeadAfter(net, bs), HeadAfter(net, cs);
            && x.Some? == y.Some?
            && (x.Some? ==> x.value.height == y.value.height)
            && (Gossip.TopAgree(net, AllObs(bs)) ==> x == y)
  {
    HeadAfterIsGossip(net, bs);
    HeadAfterIsGossip(net, cs);
    Gossip.Converge(net, AllObs(bs), AllObs(cs));
    var x, y := HeadAfter(net, bs), HeadAfter(net, cs);
    AsCacheInjective(x, y);
    assert x.Some? <==> HEAD in AsCache(x).Keys;
    assert y.Some? <==> HEAD in AsCache(y).Keys;
    assert x.Some? && y.Some? ==> AsCache(x)[HEAD] == AsObs(x.value) && AsCache(y)[HEAD] == AsObs(y.value);
  }

  /** No order or repetition of these beacons leaves another head. */
  ghost predicate OneHead(net: byte, bs: seq<HeadBeacon>) {
    forall cs :: Gossip.SameHeard(AllObs(bs), AllObs(cs)) ==> HeadAfter(net, cs) == HeadAfter(net, bs)
  }

  /** A top beacon heard first is the head kept. */
  lemma FirstHeadIsKept(net: byte, bs: seq<HeadBeacon>, o: Gossip.Obs<HeadKey, Hash32>) returns (cs: seq<HeadBeacon>)
    requires Gossip.AtTop(net, AllObs(bs), o)
    ensures Gossip.SameHeard(AllObs(bs), AllObs(cs))
    ensures HeadAfter(net, cs).Some? && AsObs(HeadAfter(net, cs).value) == o
  {
    var i :| 0 <= i < |bs| && AllObs(bs)[i] == o;
    cs := [bs[i]] + bs;
    assert AllObs(cs) == [o] + AllObs(bs);
    Gossip.HeardFirstIsKept(net, AllObs(bs), o);
    HeadAfterIsGossip(net, cs);
    assert HEAD in AsCache(HeadAfter(net, cs));
  }

  /** The condition is exact: whatever the order, the head is the same exactly when the beacons at the
      greatest height heard agree. */
  lemma HeadsConvergeIff(net: byte, bs: seq<HeadBeacon>)
    ensures OneHead(net, bs) <==> Gossip.TopAgree(net, AllObs(bs))
  {
    if Gossip.TopAgree(net, AllObs(bs)) {
      forall cs | Gossip.SameHeard(AllObs(bs), AllObs(cs)) ensures HeadAfter(net, cs) == HeadAfter(net, bs) {
        HeadsConverge(net, bs, cs);
      }
    }
    if OneHead(net, bs) {
      forall a, b | Gossip.AtTop(net, AllObs(bs), a) && Gossip.AtTop(net, AllObs(bs), b) && a.key == b.key
        ensures a == b
      {
        var cs := FirstHeadIsKept(net, bs, a);
        var ds := FirstHeadIsKept(net, bs, b);
      }
    }
  }

  class HeadCache {
    const networkId: byte
    var latest: Option<HeadBeacon>

    constructor (net: byte)
      ensures networkId == net && latest == None
    {
      networkId := net;
      latest := None;
    }

    method Accept(b: HeadBeacon) returns (advanced: bool)
      modifies this
      ensures latest == AcceptHead(networkId, old(latest), b)
      ensures advanced <==> latest != old(latest)
      ensures old(latest).Some? ==> latest.Some? && latest.value.height >= old(latest).value.height
    {
      if b.networkId != networkId {
        return false;
      }
      match latest {
        case Some(held) =>
          if b.height <= held.height {
            return false;
          }
        case None =>
      }
      latest := Some(b);
      return true;
    }
  }

  // ----- emission: rate limit, live probe, back-off -----

  /** A gateway's emission state: when it last fired, the last live head, ticks before re-probing. */
  datatype Uplink = Uplink(lastMs: Option<u64>, last: Option<HeadBeacon>, backoff: nat)

  const IDLE: Uplink := Uplink(None, None, 0)

  /** One poll: the clock, and what the live head probe would return if it were made. */
  datatype Poll = Poll(now: u64, live: Option<HeadBeacon>)

  predicate Due(u: Uplink, now: u64) {
    u.lastMs.Some? ==> SatSub(now, u.lastMs.value) >= BEACON_TICK_MS
  }

  predicate Probes(u: Uplink, now: u64) {
    Due(u, now) && u.backoff == 0
  }

  function AfterPoll(u: Uplink, p: Poll): Uplink {
    if !Due(u, p.now) then u
    else if u.backoff > 0 then Uplink(Some(p.now), u.last, u.backoff - 1)
    else if p.live.Some? then Uplink(Some(p.now), p.live, 0)
    else Uplink(Some(p.now), u.last, BEACON_RPC_BACKOFF_TICKS)
  }

  /** The beacon a poll floods. */
  function Emits(u: Uplink, p: Poll): Option<HeadBeacon> {
    if Due(u, p.now) then AfterPoll(u, p).last else None
  }

  class BeaconEmitter {
    var lastMs: Option<u64>
    var last: Option<HeadBeacon>
    var backoff: nat

    ghost function View(): Uplink
      reads this
    {
      Uplink(lastMs, last, backoff)
    }

    constructor ()
      ensures View() == IDLE
    {
      lastMs, last, backoff := None, None, 0;
    }

    /** `BeaconScheduler::due` */
    method PollDue(now: u64) returns (due: bool)
      modifies this
      ensures due == Due(old(View()), now)
      ensures View() == if due then old(View()).(lastMs := Some(now)) else old(View())
    {
      match lastMs {
        case Some(t) =>
          if SatSub(now, t) < BEACON_TICK_MS {
            return false;
          }
        case None =>
      }
      lastMs := Some(now);
      return true;
    }

    /** `select_beacon`: probe at most once, otherwise count down and reuse the stash. */
    method SelectBeacon(live: Option<HeadBeacon>) returns (beacon: Option<HeadBeacon>, probed: bool)
      modifies this
      ensures probed <==> old(backoff) == 0
      ensures lastMs == old(lastMs) && beacon == last
      ensures last == if probed && live.Some? then live else old(last)
      ensures backoff == if !probed then old(backoff) - 1
                         else if live.Some? then 0 else BEACON_RPC_BACKOFF_TICKS
    {
      probed := backoff == 0;
      if backoff == 0 {
        if live.Some? {
          last := live;
          return live, true;
        }
        backoff := BEACON_RPC_BACKOFF_TICKS;
      } else {
        backoff := backoff - 1;
      }
      beacon := last;
    }

    method Emit(p: Poll) returns (beacon: Option<HeadBeacon>)
      modifies this
      ensures View() == AfterPoll(old(View()), p)
      ensures beacon == Emits(old(View()), p)
    {
      var due := PollDue(p.now);
      if !due {
        return None;
      }
      var probed;
      beacon, probed := SelectBeacon(p.live);
    }
  }

  /** The emission state after the first `k` polls. */
  ghost function UplinkAfter(ps: seq<Poll>, k: nat): Uplink
    requires k <= |ps|
  {
    if k == 0 then IDLE else AfterPoll(UplinkAfter(ps, k - 1), ps[k - 1])
  }

  ghost predicate DueAt(ps: seq<Poll>, k: nat)
    requires k < |ps|
  {
    Due(UplinkAfter(ps, k), ps[k].now)
  }

  ghost predicate ProbesAt(ps: seq<Poll>, k: nat)
    requires k < |ps|
  {
    Probes(UplinkAfter(ps, k), ps[k].now)
  }

  ghost function EmitsAt(ps: seq<Poll>, k: nat): Option<HeadBeacon>
    requires k < |ps|
  {
    Emits(UplinkAfter(ps, k), ps[k])
  }

  lemma {:induction false} LastFiringIsRecent(ps: seq<Poll>, i: nat, k: nat)
    requires i < k <= |ps| && DueAt(ps, i)
    ensures var u := UplinkAfter(ps, k); u.lastMs.Some? && ps[i].now <= u.lastMs.value
    decreases k
  {
    if i < k - 1 {
      LastFiringIsRecent(ps, i, k - 1);
    }
  }

  /** Floods are at least one tick apart on every run, even if the clock jumps back in between. */
  lemma FloodsAreSpaced(ps: seq<Poll>, i: nat, j: nat)
    requires i < j < |ps|
    requires EmitsAt(ps, i).Some? && EmitsAt(ps, j).Some?
    ensures ps[j].now - ps[i].now >= BEACON_TICK_MS
  {
    LastFiringIsRecent(ps, i, j);
  }

  lemma {:induction false} LastFiringIsAFiring(ps: seq<Poll>, k: nat)
    requires k <= |ps|
    ensures var u := UplinkAfter(ps, k);
            u.lastMs.Some? ==> exists i :: 0 <= i < k && DueAt(ps, i) && ps[i].now == u.lastMs.value
    decreases k
  {
    if k > 0 {
      LastFiringIsAFiring(ps, k - 1);
      var u := UplinkAfter(ps, k - 1);
      if !DueAt(ps, k - 1) && u.lastMs.Some? {
        var i :| 0 <= i < k - 1 && DueAt(ps, i) && ps[i].now == u.lastMs.value;
      }
    }
  }

  /** A poll is due exactly when every earlier due poll lies a full tick back: the first always is. */
  lemma DueIff(ps: seq<Poll>, k: nat)
    requires k < |ps|
    ensures DueAt(ps, k) <==> forall i :: 0 <= i < k && DueAt(ps, i) ==> ps[k].now >= ps[i].now + 10_000
  {
    LastFiringIsAFiring(ps, k);
    forall i | 0 <= i < k && DueAt(ps, i)
      ensures UplinkAfter(ps, k).lastMs.Some? && ps[i].now <= UplinkAfter(ps, k).lastMs.value
    {
      LastFiringIsRecent(ps, i, k);
    }
  }

  /** How many polls in `[start, end)` are due. */
  ghost function DueCount(ps: seq<Poll>, start: nat, end: nat): nat
    requires start <= end <= |ps|
    decreases end
  {
    if start == end then 0
    else DueCount(ps, start, end - 1) + (if DueAt(ps, end - 1) then 1 else 0)
  }

  lemma {:induction false} BackoffCountsDown(ps: seq<Poll>, i: nat, k: nat)
    requires i < k <= |ps| && ProbesAt(ps, i) && ps[i].live.None?
    ensures DueCount(ps, i + 1, k) <= BEACON_RPC_BACKOFF_TICKS ==>
              UplinkAfter(ps, k).backoff == BEACON_RPC_BACKOFF_TICKS - DueCount(ps, i + 1, k)
    decreases k
  {
    if i + 1 < k {
      BackoffCountsDown(ps, i, k - 1);
    }
  }

  /** After a failed probe no probe is made until five due ticks have passed. */
  lemma FailedProbeBacksOff(ps: seq<Poll>, i: nat, j: nat)
    requires i < j < |ps| && ProbesAt(ps, i) && ps[i].live.None? && ProbesAt(ps, j)
    ensures DueCount(ps, i + 1, j) >= BEACON_RPC_BACKOFF_TICKS
  {
    BackoffCountsDown(ps, i, j);
  }

  /** Poll `i` probed in vain. */
  ghost predicate FailsAt(ps: seq<Poll>, i: nat) { i < |ps| && ProbesAt(ps, i) && ps[i].live.None? }

  lemma {:induction false} BackoffHasCause(ps: seq<Poll>, k: nat)
    requires k <= |ps| && UplinkAfter(ps, k).backoff > 0
    ensures exists i :: 0 <= i < k && FailsAt(ps, i)
                        && DueCount(ps, i + 1, k) == BEACON_RPC_BACKOFF_TICKS - UplinkAfter(ps, k).backoff
    decreases k
  {
    if FailsAt(ps, k - 1) {
      assert DueCount(ps, k, k) == 0;
    } else {
      BackoffHasCause(ps, k - 1);
      var u := UplinkAfter(ps, k - 1);
      var i :| 0 <= i < k - 1 && FailsAt(ps, i) && DueCount(ps, i + 1, k - 1) == BEACON_RPC_BACKOFF_TICKS - u.backoff;
      assert DueCount(ps, i + 1, k) == BEACON_RPC_BACKOFF_TICKS - UplinkAfter(ps, k).backoff;
    }
  }

  /** A poll probes the chain exactly when it is due and every probe made in vain lies at least five due polls
      back. */
  lemma ProbesIff(ps: seq<Poll>, k: nat)
    requires k < |ps|
    ensures ProbesAt(ps, k) <==>
            DueAt(ps, k) && forall i :: 0 <= i < k && FailsAt(ps, i) ==> DueCount(ps, i + 1, k) >= 5
  {
    forall i | 0 <= i < k && FailsAt(ps, i)
      ensures DueCount(ps, i + 1, k) <= 5 ==> UplinkAfter(ps, k).backoff == 5 - DueCount(ps, i + 1, k)
    {
      BackoffCountsDown(ps, i, k);
    }
    if UplinkAfter(ps, k).backoff > 0 {
      BackoffHasCause(ps, k);
    }
  }

  lemma {:induction false} StashIffNews(ps: seq<Poll>, k: nat)
    requires k <= |ps|
    ensures UplinkAfter(ps, k).last.Some? <==> exists i :: 0 <= i < k && ProbesAt(ps, i) && ps[i].live.Some?
    decreases k
  {
    if k > 0 {
      StashIffNews(ps, k - 1);
      if i :| 0 <= i < k && ProbesAt(ps, i) && ps[i].live.Some? {
        assert i == k - 1 || (0 <= i < k - 1 && ProbesAt(ps, i) && ps[i].live.Some?);
      }
    }
  }

  /** A poll floods a beacon exactly when it is due and some probe, this one included, has been answered. */
  lemma EmitsIff(ps: seq<Poll>, k: nat)
    requires k < |ps|
    ensures EmitsAt(ps, k).Some? <==>
            DueAt(ps, k) && exists i :: 0 <= i <= k && ProbesAt(ps, i) && ps[i].live.Some?
  {
    StashIffNews(ps, k + 1);
  }

  /** Poll `m` did not bring a new head. */
  ghost predicate NoNews(ps: seq<Poll>, m: nat) {
    m < |ps| && (ProbesAt(ps, m) ==> ps[m].live.None?)
  }

  /** Poll `i` is the latest successful probe among the first `k`, and it returned `b`. */
  ghost predicate LatestLiveAt(ps: seq<Poll>, k: nat, b: HeadBeacon, i: nat)
    requires k <= |ps|
  {
    i < k && ProbesAt(ps, i) && ps[i].live == Some(b) && forall m :: i < m < k ==> NoNews(ps, m)
  }

  ghost predicate LatestLive(ps: seq<Poll>, k: nat, b: HeadBeacon)
    requires k <= |ps|
  {
    exists i :: LatestLiveAt(ps, k, b, i)
  }

  lemma {:induction false} StashIsLatestLive(ps: seq<Poll>, k: nat)
    requires k <= |ps|
    ensures var u := UplinkAfter(ps, k); u.last.Some? ==> LatestLive(ps, k, u.last.value)
    decreases k
  {
    if k > 0 {
      StashIsLatestLive(ps, k - 1);
      var u, u' := UplinkAfter(ps, k - 1), UplinkAfter(ps, k);
      if u'.last.Some? {
        var b := u'.last.value;
        if NoNews(ps, k - 1) {
          assert u'.last == u.last;
          var i :| LatestLiveAt(ps, k - 1, b, i);
          assert LatestLiveAt(ps, k, b, i);
        } else {
          assert LatestLiveAt(ps, k, b, k - 1);
        }
      }
    }
  }

  /** Every flooded beacon is the latest head a live probe returned. */
  lemma FloodedBeaconIsLatestLive(ps: seq<Poll>, k: nat)
    requires k < |ps| && EmitsAt(ps, k).Some?
    ensures LatestLive(ps, k + 1, EmitsAt(ps, k).value)
  {
    StashIsLatestLive(ps, k + 1);
  }
}
