/** Keep-the-freshest caches fed by gossip: what `HeadCache` and `BalanceCache` have in common.

    An observation carries the height it was made at and the network it was made on. A cache pinned
    to a network keeps, per key, the first observation of the greatest height. */
module Gossip {
  import opened Bytes

  datatype Obs<K, V> = Obs(key: K, height: nat, body: V, network: byte)

  function Observe<K(==), V>(net: byte, cache: map<K, Obs<K, V>>, o: Obs<K, V>): map<K, Obs<K, V>> {
    if o.network != net then cache
    else if o.key in cache && o.height <= cache[o.key].height then cache
    else cache[o.key := o]
  }

  /** The cache after being offered `os` in this order. */
  function ObserveAll<K(==), V>(net: byte, os: seq<Obs<K, V>>): map<K, Obs<K, V>> {
    if os == [] then map[]
    else Observe(net, ObserveAll(net, os[..|os| - 1]), os[|os| - 1])
  }

  /** `os[i]` is the first observation for its key at the greatest height heard on `net`. */
  ghost predicate FirstHighest<K, V>(net: byte, os: seq<Obs<K, V>>, i: nat)
    requires i < |os|
  {
    && os[i].network == net
    && forall j :: 0 <= j < |os| && os[j].network == net && os[j].key == os[i].key ==>
         os[j].height <= os[i].height && (j < i ==> os[j].height < os[i].height)
  }

  /** A key is cached exactly when it was observed on this network, and what is cached is the first
      observation at the greatest height. */
  lemma {:induction false} HoldsFirstHighest<K, V>(net: byte, os: seq<Obs<K, V>>, key: K)
    ensures var cache := ObserveAll(net, os);
            && (key in cache <==> exists j :: 0 <= j < |os| && os[j].network == net && os[j].key == key)
            && (key in cache ==> exists i :: 0 <= i < |os| && os[i] == cache[key] && os[i].key == key
                                             && FirstHighest(net, os, i))
    decreases |os|
  {
    if os != [] {
      var n := |os| - 1;
      var init, o := os[..n], os[n];
      HoldsFirstHighest(net, init, key);
      var before, after := ObserveAll(net, init), ObserveAll(net, os);
      assert forall j :: 0 <= j < n ==> init[j] == os[j];
      if o.network == net && o.key == key && (key in before ==> o.height > before[key].height) {
        assert after[key] == os[n];
        assert FirstHighest(net, os, n);
      } else if key in before {
        var i :| 0 <= i < n && init[i] == before[key] && init[i].key == key && FirstHighest(net, init, i);
        assert after[key] == os[i];
        assert FirstHighest(net, os, i);
      }
    }
  }

  /** Hearing the same observations in another order, or more often. */
  ghost predicate SameHeard<K, V>(os: seq<Obs<K, V>>, ps: seq<Obs<K, V>>) {
    (forall o :: o in os ==> o in ps) && (forall o :: o in ps ==> o in os)
  }

  /** `o` is an observation on `net` at the greatest height heard for its key. */
  ghost predicate AtTop<K, V>(net: byte, os: seq<Obs<K, V>>, o: Obs<K, V>) {
    o in os && o.network == net
    && forall x :: x in os && x.network == net && x.key == o.key ==> x.height <= o.height
  }

  /** Observations at the greatest height of their key say the same thing. */
  ghost predicate TopAgree<K(!new), V(!new)>(net: byte, os: seq<Obs<K, V>>) {
    forall a, b | AtTop(net, os, a) && AtTop(net, os, b) && a.key == b.key :: a == b
  }

  lemma NotBehind<K, V>(net: byte, os: seq<Obs<K, V>>, ps: seq<Obs<K, V>>, key: K)
    requires forall o :: o in os ==> o in ps
    ensures key in ObserveAll(net, os) ==>
              key in ObserveAll(net, ps)
              && ObserveAll(net, os)[key].height <= ObserveAll(net, ps)[key].height
              && ObserveAll(net, os)[key] in os && ObserveAll(net, os)[key].network == net
              && ObserveAll(net, os)[key].key == key
  {
    HoldsFirstHighest(net, os, key);
    HoldsFirstHighest(net, ps, key);
    if key in ObserveAll(net, os) {
      var i :| 0 <= i < |os| && os[i] == ObserveAll(net, os)[key] && os[i].key == key && FirstHighest(net, os, i);
      assert os[i] in ps;
      var j :| 0 <= j < |ps| && ps[j] == os[i];
      assert ps[j].network == net && ps[j].key == key;
    }
  }

  /** What is cached under a key was heard at the top for it. */
  lemma CachedIsAtTop<K(!new), V(!new)>(net: byte, os: seq<Obs<K, V>>, key: K)
    requires key in ObserveAll(net, os)
    ensures AtTop(net, os, ObserveAll(net, os)[key]) && ObserveAll(net, os)[key].key == key
  {
    HoldsFirstHighest(net, os, key);
    var i :| 0 <= i < |os| && os[i] == ObserveAll(net, os)[key] && os[i].key == key && FirstHighest(net, os, i);
    forall x | x in os && x.network == net && x.key == key ensures x.height <= os[i].height {
      var j :| 0 <= j < |os| && os[j] == x;
    }
  }

  lemma ConvergeAt<K(!new), V(!new)>(net: byte, os: seq<Obs<K, V>>, ps: seq<Obs<K, V>>, key: K)
    requires SameHeard(os, ps)
    ensures key in ObserveAll(net, os) <==> key in ObserveAll(net, ps)
    ensures key in ObserveAll(net, os) ==>
              var x, y := ObserveAll(net, os)[key], ObserveAll(net, ps)[key];
              x.height == y.height && (TopAgree(net, os) ==> x == y)
  {
    NotBehind(net, os, ps, key);
    NotBehind(net, ps, os, key);
    if key in ObserveAll(net, os) {
      CachedIsAtTop(net, os, key);
      CachedIsAtTop(net, ps, key);
      assert AtTop(net, os, ObserveAll(net, ps)[key]);
    }
  }

  lemma SameMap<K(!new), V(!new)>(a: map<K, V>, b: map<K, V>)
    requires forall k :: k in a <==> k in b
    ensures a.Keys == b.Keys
    ensures (forall k :: k in a ==> a[k] == b[k]) ==> a == b
  {
  }

  /** Strong convergence: caches offered the same set of observations, in any order and with any
      duplicates, hold the same keys at the same heights, and the same contents when the observations at
      the greatest height of each key agree. */
  lemma Converge<K(!new), V(!new)>(net: byte, os: seq<Obs<K, V>>, ps: seq<Obs<K, V>>)
    requires SameHeard(os, ps)
    ensures var a, b := ObserveAll(net, os), ObserveAll(net, ps);
            && a.Keys == b.Keys
            && (forall k :: k in a && k in b ==> a[k].height == b[k].height)
            && (TopAgree(net, os) ==> a == b)
  {
    var a, b := ObserveAll(net, os), ObserveAll(net, ps);
    forall k
      ensures k in a <==> k in b
      ensures k in a ==> a[k].height == b[k].height && (TopAgree(net, os) ==> a[k] == b[k])
    {
      ConvergeAt(net, os, ps, k);
    }
    SameMap(a, b);
  }

  /** Whoever hears a top observation of a key first keeps it. */
  lemma HeardFirstIsKept<K(!new), V(!new)>(net: byte, os: seq<Obs<K, V>>, a: Obs<K, V>)
    requires AtTop(net, os, a)
    ensures SameHeard(os, [a] + os) && a.key in ObserveAll(net, [a] + os) && ObserveAll(net, [a] + os)[a.key] == a
  {
    var ps := [a] + os;
    assert ps[0] == a;
    HoldsFirstHighest(net, ps, a.key);
    assert ps[0].network == net && ps[0].key == a.key;
    var i :| 0 <= i < |ps| && ps[i] == ObserveAll(net, ps)[a.key] && ps[i].key == a.key && FirstHighest(net, ps, i);
    assert ps[i] in os;
  }

  /** The order of hearing never matters for these observations. */
  ghost predicate OrderIrrelevant<K(!new), V(!new)>(net: byte, os: seq<Obs<K, V>>) {
    forall ps :: SameHeard(os, ps) ==> ObserveAll(net, ps) == ObserveAll(net, os)
  }

  /** The agreement condition is exact: all orders and repetitions of the same observations leave the same
      cache exactly when observations at the greatest height of their key agree. Disagreement below the top
      is harmless. */
  lemma ConvergeIff<K(!new), V(!new)>(net: byte, os: seq<Obs<K, V>>)
    ensures OrderIrrelevant(net, os) <==> TopAgree(net, os)
  {
    if TopAgree(net, os) {
      forall ps | SameHeard(os, ps) ensures ObserveAll(net, ps) == ObserveAll(net, os) {
        Converge(net, os, ps);
      }
    }
    if OrderIrrelevant(net, os) {
      forall a, b | AtTop(net, os, a) && AtTop(net, os, b) && a.key == b.key ensures a == b {
        HeardFirstIsKept(net, os, a);
        HeardFirstIsKept(net, os, b);
      }
    }
  }

  /** Two different observations of one key at one height, both at the top, leave different contents behind,
      depending on which came first. */
  lemma EquivocationDiverges<K(!new), V(!new)>(net: byte, os: seq<Obs<K, V>>, a: Obs<K, V>, b: Obs<K, V>)
    requires AtTop(net, os, a) && AtTop(net, os, b) && a.key == b.key && a != b
    ensures SameHeard([a] + os, [b] + os) && ObserveAll(net, [a] + os) != ObserveAll(net, [b] + os)
  {
    HeardFirstIsKept(net, os, a);
    HeardFirstIsKept(net, os, b);
  }
}
