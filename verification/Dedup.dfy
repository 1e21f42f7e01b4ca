/** The bounded "have I seen this?" cache of `dedup.rs`.

    The abstract value of a cache is the log of every key it ever accepted, oldest first. What the
    cache remembers is a window on the end of that log, so eviction needs no state of its own. */
module Dedup {

  /** The last `n` elements of `s`, or all of them. */
  function LastN<K>(s: seq<K>, n: nat): (r: seq<K>)
    ensures |r| <= n && |r| <= |s| && r == s[|s| - |r|..]
    ensures |r| == n || r == s
  {
    if |s| <= n then s else s[|s| - n..]
  }

  /** The log after offering `key` to a cache of capacity `cap`. */
  function Offer<K(==)>(log: seq<K>, cap: nat, key: K): (after: seq<K>)
    ensures log <= after
    ensures cap > 0 ==> key in LastN(after, cap)
  {
    if key in LastN(log, cap) then log
    else
      var after := log + [key];
      assert cap > 0 ==> LastN(after, cap)[|LastN(after, cap)| - 1] == key;
      after
  }

  predicate IsNew<K(==)>(log: seq<K>, cap: nat, key: K) {
    key !in LastN(log, cap)
  }

  /** Any `cap + 1` consecutively accepted keys are pairwise distinct. */
  ghost predicate Spaced<K>(log: seq<K>, cap: nat) {
    forall i, j :: 0 <= i < j < |log| && j - i <= cap ==> log[i] != log[j]
  }

  lemma OfferKeepsSpaced<K>(log: seq<K>, cap: nat, key: K)
    requires Spaced(log, cap)
    ensures Spaced(Offer(log, cap, key), cap)
  {
    var after := Offer(log, cap, key);
    forall i, j | 0 <= i < j < |after| && j - i <= cap
      ensures after[i] != after[j]
    {
      if j == |log| {
        var w := LastN(log, cap);
        assert after[i] == w[i - (|log| - |w|)];
      }
    }
  }

  ghost function Elems<K>(s: seq<K>): set<K> { set x | x in s }

  lemma {:induction false} DistinctCount<K>(s: seq<K>)
    requires forall i, j :: 0 <= i < j < |s| ==> s[i] != s[j]
    ensures |Elems(s)| == |s|
  {
    if s != [] {
      var init := s[..|s| - 1];
      DistinctCount(init);
      assert Elems(s) == Elems(init) + {s[|s| - 1]};
    }
  }

  lemma SubsetCount<K>(a: set<K>, b: set<K>)
    requires a <= b
    ensures |a| <= |b|
  {
    assert b == a + (b - a);
  }

  /** At least `cap` distinct keys other than the one accepted at `i` were accepted between `i` and `j`. */
  ghost predicate Apart<K>(log: seq<K>, cap: nat, i: nat, j: nat) {
    i < j < |log| && |Elems(log[i + 1..j]) - {log[i]}| >= cap
  }

  /** Two acceptances of one key have at least `cap` distinct other keys accepted between them. */
  lemma AcceptedAgainOnlyAfterEviction<K>(log: seq<K>, cap: nat, i: nat, j: nat)
    requires Spaced(log, cap)
    requires i < j < |log| && log[i] == log[j]
    ensures Apart(log, cap, i, j)
  {
    assert j - i > cap;
    var window := log[i + 1..i + 1 + cap];
    forall a, b | 0 <= a < b < |window| ensures window[a] != window[b] {
      assert window[a] == log[i + 1 + a] && window[b] == log[i + 1 + b];
    }
    DistinctCount(window);
    forall x | x in window ensures x in log[i + 1..j] && x != log[i] {
      var a :| 0 <= a < |window| && window[a] == x;
      assert log[i + 1..j][a] == x && log[i + 1 + a] == x;
    }
    SubsetCount(Elems(window), Elems(log[i + 1..j]) - {log[i]});
  }

  /** A key accepted at position `at` is still remembered as long as fewer than `cap` further keys
      have been accepted. */
  lemma RememberedUntilEvicted<K>(log: seq<K>, cap: nat, at: nat)
    requires at < |log| && |log| - at <= cap
    ensures log[at] in LastN(log, cap)
  {
    var w := LastN(log, cap);
    assert w[at - (|log| - |w|)] == log[at];
  }

  /** Eviction is by age of acceptance, not by last use: offering the oldest remembered key again
      does not save it from the next fresh key. */
  lemma ReofferingDoesNotRefresh<K>(log: seq<K>, cap: nat, newKey: K)
    requires cap > 0 && |log| >= cap && Spaced(log, cap)
    requires IsNew(log, cap, newKey)
    ensures var oldest := LastN(log, cap)[0];
            !IsNew(log, cap, oldest) && Offer(log, cap, oldest) == log
            && IsNew(Offer(Offer(log, cap, oldest), cap, newKey), cap, oldest)
  {
    var w := LastN(log, cap);
    var after := log + [newKey];
    var w' := LastN(after, cap);
    forall x | 0 <= x < |w'| ensures w'[x] != w[0] {
      assert w'[x] == after[|after| - cap + x];
      assert w[0] == log[|log| - cap];
      if x == cap - 1 {
        assert w'[x] == newKey && w[0] in w;
      }
    }
  }

  /** Accepting a key drops the oldest remembered one exactly when the cache is full. */
  lemma WindowSlides<K>(log: seq<K>, cap: nat, key: K)
    requires cap > 0
    ensures var w := LastN(log, cap);
            LastN(log + [key], cap) == (if |w| >= cap then w[1..] else w) + [key]
  {
  }

  lemma DropFirstElem<K>(s: seq<K>)
    requires s != [] && forall i, j :: 0 <= i < j < |s| ==> s[i] != s[j]
    ensures Elems(s[1..]) == Elems(s) - {s[0]}
  {
    assert s == [s[0]] + s[1..];
  }

  lemma AppendElem<K>(s: seq<K>, x: K)
    ensures Elems(s + [x]) == Elems(s) + {x}
  {
  }

  /** `DedupCache`: a set for membership and a queue for eviction order. */
  class DedupCache<K(==)> {
    const capacity: nat
    var keys: set<K>
    var order: seq<K>
    ghost var log: seq<K>

    ghost predicate Valid()
      reads this
    {
      && capacity > 0
      && order == LastN(log, capacity)
      && keys == Elems(order)
      && Spaced(log, capacity)
    }

    constructor (requested: nat)
      ensures Valid() && log == []
      ensures capacity == if requested == 0 then 1 else requested
    {
      capacity := if requested < 1 then 1 else requested;
      keys, order, log := {}, [], [];
    }

    method Insert(key: K) returns (isNew: bool)
      requires Valid()
      modifies this
      ensures Valid()
      ensures log == Offer(old(log), capacity, key)
      ensures isNew == IsNew(old(log), capacity, key)
    {
      if key in keys {
        return false;
      }
      OrderIsDistinct();
      OfferKeepsSpaced(log, capacity, key);
      WindowSlides(log, capacity, key);
      if |order| >= capacity {
        var oldest := order[0];
        DropFirstElem(order);
        order := order[1..];
        keys := keys - {oldest};
      }
      AppendElem(order, key);
      order := order + [key];
      keys := keys + {key};
      log := log + [key];
      return true;
    }

    lemma OrderIsDistinct()
      requires Valid()
      ensures forall i, j :: 0 <= i < j < |order| ==> order[i] != order[j]
    {
      forall i, j | 0 <= i < j < |order| ensures order[i] != order[j] {
        var start := |log| - |order|;
        assert order[i] == log[start + i] && order[j] == log[start + j];
      }
    }

    method Contains(key: K) returns (present: bool)
      requires Valid()
      ensures present == !IsNew(log, capacity, key)
    {
      present := key in keys;
    }

    method Len() returns (n: nat)
      requires Valid()
      ensures n == if |log| < capacity then |log| else capacity
    {
      OrderIsDistinct();
      DistinctCount(order);
      n := |keys|;
    }
  }
}
