/** Account balances over the mesh: exact-length payload codecs and the per-address freshness cache
    (`balance.rs`). */
module Balance {
  import opened Bytes
  import Gossip

  const ADDRESS_LEN: nat := 20
  const BALANCE_RESPONSE_LEN: nat := ADDRESS_LEN + 8 + 4 + 1

  type Address = s: seq<byte> | |s| == ADDRESS_LEN witness seq(ADDRESS_LEN, i => 0)

  datatype BalanceResponse = BalanceResponse(address: Address, balance: u64, headHeight: u32, networkId: byte)

  datatype CachedBalance = CachedBalance(balance: u64, headHeight: u32, networkId: byte)

  function DecodeQuery(s: seq<byte>): Option<Address> {
    if |s| != ADDRESS_LEN then None else Some(s)
  }

  function EncodeResponse(r: BalanceResponse): (s: seq<byte>)
    ensures |s| == BALANCE_RESPONSE_LEN
  {
    r.address + ToBE(r.balance, 8) + ToBE(r.headHeight, 4) + [r.networkId]
  }

  function DecodeResponse(s: seq<byte>): (r: Option<BalanceResponse>)
    ensures r.Some? <==> |s| == BALANCE_RESPONSE_LEN
  {
    if |s| != BALANCE_RESPONSE_LEN then None
    else
      Pow256Values();
      Some(BalanceResponse(s[..20], FromBE(s[20..28]), FromBE(s[28..32]), s[32]))
  }

  /** The response codec is a bijection between responses and payloads of the exact length. */
  lemma ResponseCodec(r: BalanceResponse, s: seq<byte>)
    ensures DecodeResponse(EncodeResponse(r)) == Some(r)
    ensures |s| == BALANCE_RESPONSE_LEN ==> EncodeResponse(DecodeResponse(s).value) == s
  {
    ResponseSlices(r.address, ToBE(r.balance, 8), ToBE(r.headHeight, 4), [r.networkId]);
    Pow256Values();
    FromToBE(r.balance, 8);
    FromToBE(r.headHeight, 4);
    if |s| == BALANCE_RESPONSE_LEN {
      ToFromBE(s[20..28]);
      ToFromBE(s[28..32]);
      assert s == s[..20] + s[20..28] + s[28..32] + [s[32]];
    }
  }

  /** Address first, then balance, height and network. */
  lemma ResponseLayout(r: BalanceResponse)
    ensures var s := EncodeResponse(r);
            s[..20] == r.address && s[20..28] == ToBE(r.balance, 8) && s[28..32] == ToBE(r.headHeight, 4)
            && s[32] == r.networkId
  {
    ResponseSlices(r.address, ToBE(r.balance, 8), ToBE(r.headHeight, 4), [r.networkId]);
  }

  lemma ResponseSlices(a: seq<byte>, b: seq<byte>, c: seq<byte>, d: seq<byte>)
    requires |a| == 20 && |b| == 8 && |c| == 4 && |d| == 1
    ensures var e := a + b + c + d;
            |e| == 33 && e[..20] == a && e[20..28] == b && e[28..32] == c && e[32] == d[0]
  {
  }

  type Entries = map<Address, CachedBalance>

  function Cached(r: BalanceResponse): CachedBalance {
    CachedBalance(r.balance, r.headHeight, r.networkId)
  }

  /** The entries of a cache pinned to `net` after hearing `r`. */
  function ObserveBalance(net: byte, entries: Entries, r: BalanceResponse): Entries {
    if r.networkId != net then entries
    else if r.address in entries && r.headHeight <= entries[r.address].headHeight then entries
    else entries[r.address := Cached(r)]
  }

  function AsObs(r: BalanceResponse): Gossip.Obs<Address, u64> {
    Gossip.Obs(r.address, r.headHeight, r.balance, r.networkId)
  }

  function AsCache(entries: Entries): map<Address, Gossip.Obs<Address, u64>> {
    map a | a in entries :: Gossip.Obs(a, entries[a].headHeight, entries[a].balance, entries[a].networkId)
  }

  /** The balance cache is a keep-the-freshest cache keyed by address, so `Gossip.Converge` and
      `Gossip.HoldsFirstHighest` are statements about it. */
  lemma BalanceIsGossip(net: byte, entries: Entries, r: BalanceResponse)
    ensures AsCache(ObserveBalance(net, entries, r)) == Gossip.Observe(net, AsCache(entries), AsObs(r))
  {
  }

  function EntriesAfter(net: byte, rs: seq<BalanceResponse>): Entries {
    if rs == [] then map[] else ObserveBalance(net, EntriesAfter(net, rs[..|rs| - 1]), rs[|rs| - 1])
  }

  function AllObs(rs: seq<BalanceResponse>): (os: seq<Gossip.Obs<Address, u64>>)
    ensures |os| == |rs| && forall i :: 0 <= i < |rs| ==> os[i] == AsObs(rs[i])
  {
    seq(|rs|, i requires 0 <= i < |rs| => AsObs(rs[i]))
  }

  lemma {:induction false} EntriesAfterIsGossip(net: byte, rs: seq<BalanceResponse>)
    ensures AsCache(EntriesAfter(net, rs)) == Gossip.ObserveAll(net, AllObs(rs))
    decreases |rs|
  {
    if rs != [] {
      var init := rs[..|rs| - 1];
      EntriesAfterIsGossip(net, init);
      assert AllObs(rs)[..|rs| - 1] == AllObs(init);
      BalanceIsGossip(net, EntriesAfter(net, init), rs[|rs| - 1]);
    }
  }

  /** Caches offered the same responses in any order hold the same addresses at the same heights,
      and the same balances when the answers at the greatest height of each address agree. */
  lemma BalancesConverge(net: byte, rs: seq<BalanceResponse>, qs: seq<BalanceResponse>)
    requires Gossip.SameHeard(AllObs(rs), AllObs(qs))
    ensures var x, y := EntriesAfter(net, rs), EntriesAfter(net, qs);
            && x.Keys == y.Keys
            && (forall a :: a in x && a in y ==> x[a].headHeight == y[a].headHeight)
            && (Gossip.TopAgree(net, AllObs(rs)) ==> x == y)
  {
    EntriesAfterIsGossip(net, rs);
    EntriesAfterIsGossip(net, qs);
    Gossip.Converge(net, AllObs(rs), AllObs(qs));
    var x, y := EntriesAfter(net, rs), EntriesAfter(net, qs);
    assert AsCache(x).Keys == x.Keys && AsCache(y).Keys == y.Keys;
    forall a | a in x && a in y ensures x[a].headHeight == y[a].headHeight {
      assert AsCache(x)[a].height == x[a].headHeight && AsCache(y)[a].height == y[a].headHeight;
    }
    if AsCache(x) == AsCache(y) {
      AsCacheInjective(x, y);
    }
  }

  /** No order or repetition of these responses leaves other entries. */
  ghost predicate OneOutcome(net: byte, rs: seq<BalanceResponse>) {
    forall qs :: Gossip.SameHeard(AllObs(rs), AllObs(qs)) ==> EntriesAfter(net, qs) == EntriesAfter(net, rs)
  }

  lemma FirstAnswerIsKept(net: byte, rs: seq<BalanceResponse>, o: Gossip.Obs<Address, u64>)
    returns (qs: seq<BalanceResponse>)
    requires Gossip.AtTop(net, AllObs(rs), o)
    ensures Gossip.SameHeard(AllObs(rs), AllObs(qs))
    ensures o.key in AsCache(EntriesAfter(net, qs)) && AsCache(EntriesAfter(net, qs))[o.key] == o
  {
    var i :| 0 <= i < |rs| && AllObs(rs)[i] == o;
    qs := [rs[i]] + rs;
    assert AllObs(qs) == [o] + AllObs(rs);
    Gossip.HeardFirstIsKept(net, AllObs(rs), o);
    EntriesAfterIsGossip(net, qs);
  }

  /** The condition is exact: whatever the order, the entries are the same exactly when the answers at the
      greatest height of each address agree. */
  lemma BalancesConvergeIff(net: byte, rs: seq<BalanceResponse>)
    ensures OneOutcome(net, rs) <==> Gossip.TopAgree(net, AllObs(rs))
  {
    if Gossip.TopAgree(net, AllObs(rs)) {
      forall qs | Gossip.SameHeard(AllObs(rs), AllObs(qs)) ensures EntriesAfter(net, qs) == EntriesAfter(net, rs) {
        BalancesConverge(net, rs, qs);
      }
    }
    if OneOutcome(net, rs) {
      forall a, b | Gossip.AtTop(net, AllObs(rs), a) && Gossip.AtTop(net, AllObs(rs), b) && a.key == b.key
        ensures a == b
      {
        var qs := FirstAnswerIsKept(net, rs, a);
        var ps := FirstAnswerIsKept(net, rs, b);
      }
    }
  }

  lemma AsCacheInjective(x: Entries, y: Entries)
    requires AsCache(x) == AsCache(y)
    ensures x == y
  {
    assert x.Keys == AsCache(x).Keys && y.Keys == AsCache(y).Keys;
    forall a | a in x ensures x[a] == y[a] {
      assert AsCache(x)[a] == AsCache(y)[a];
    }
  }

  class BalanceCache {
    var networkId: Option<byte>
    var entries: Entries

    /** An unpinned cache: the first response heard pins it. */
    constructor ()
      ensures networkId == None && entries == map[]
    {
      networkId, entries := None, map[];
    }

    constructor ForNetwork(net: byte)
      ensures networkId == Some(net) && entries == map[]
    {
      networkId, entries := Some(net), map[];
    }

    method Observe(r: BalanceResponse) returns (updated: bool)
      modifies this
      ensures networkId == if old(networkId).Some? then old(networkId) else Some(r.networkId)
      ensures entries == ObserveBalance(networkId.value, old(entries), r)
      ensures updated <==> r.networkId == networkId.value
                           && (r.address in old(entries) ==> old(entries)[r.address].headHeight < r.headHeight)
    {
      match networkId {
        case Some(n) =>
          if n != r.networkId {
            return false;
          }
        case None =>
          networkId := Some(r.networkId);
      }
      if r.address in entries {
        if r.headHeight <= entries[r.address].headHeight {
          return false;
        }
      }
      entries := entries[r.address := Cached(r)];
      return true;
    }
  }
}
