/** The BLE link reference counter (`BleMeshRadio.swift`): two directed links per peer, one peer set per
    installed node. The reference model knows only the two role sets and their union; the class counts. */
module BleLinks {
  import opened Bytes

  /** A peer's UUID, as an opaque number. */
  type Id = nat
  type NodeId = nat

  /** A callback made by `linkUp` or `linkDown`; with no node installed nobody hears it. */
  datatype Call = Call(heardBy: Option<NodeId>, id: Id, up: bool)

  /** `pending` holds the nodes whose replay block is queued; `log` the callbacks other than replays. */
  datatype State = State(
    node: Option<NodeId>, central: set<Id>, periph: set<Id>,
    peers: map<NodeId, set<Id>>, pending: seq<NodeId>, log: seq<Call>)

  datatype Event =
    | CentralUp(id: Id) | CentralDown(id: Id)
    | PeriphUp(id: Id) | PeriphDown(id: Id)
    | Install(node: Option<NodeId>)
    | Replay

  const START: State := State(None, {}, {}, map[], [], [])

  function Linked(s: State): set<Id> { s.central + s.periph }

  function PeersOf(s: State, n: NodeId): set<Id> { if n in s.peers then s.peers[n] else {} }

  // ----- the reference model -----

  /** What the installed node hears when the union gains or loses `id`. */
  function Announce(s: State, id: Id, up: bool): State {
    var heard := s.(log := s.log + [Call(s.node, id, up)]);
    if s.node.None? then heard
    else
      var n := s.node.value;
      heard.(peers := s.peers[n := if up then PeersOf(s, n) + {id} else PeersOf(s, n) - {id}])
  }

  /** A change of the role sets is announced exactly when it changes the union. */
  function Relinked(s: State, central: set<Id>, periph: set<Id>, id: Id): State {
    var t := s.(central := central, periph := periph);
    if (id in Linked(s)) == (id in Linked(t)) then t else Announce(t, id, id in Linked(t))
  }

  function Step(s: State, ev: Event): State {
    match ev
    case CentralUp(id) => Relinked(s, s.central + {id}, s.periph, id)
    case CentralDown(id) => Relinked(s, s.central - {id}, s.periph, id)
    case PeriphUp(id) => Relinked(s, s.central, s.periph + {id}, id)
    case PeriphDown(id) => Relinked(s, s.central, s.periph - {id}, id)
    case Install(n) => s.(node := n, pending := if n.None? then s.pending else s.pending + [n.value])
    case Replay =>
      if s.pending == [] then s
      else
        var n := s.pending[0];
        s.(peers := s.peers[n := PeersOf(s, n) + Linked(s)], pending := s.pending[1..])
  }

  function Run(s: State, evs: seq<Event>): State {
    if evs == [] then s else Step(Run(s, evs[..|evs| - 1]), evs[|evs| - 1])
  }

  // ----- the counting implementation -----

  function Roles(central: set<Id>, periph: set<Id>, id: Id): nat {
    (if id in central then 1 else 0) + (if id in periph then 1 else 0)
  }

  lemma KeysAreLinked(count: map<Id, nat>, central: set<Id>, periph: set<Id>)
    requires forall id :: id in count <==> Roles(central, periph, id) > 0
    ensures count.Keys == central + periph
  {
  }

  class Radio {
    var node: Option<NodeId>
    var linkCount: map<Id, nat>
    var centralLinked: set<Id>
    var periphLinked: set<Id>
    var peers: map<NodeId, set<Id>>
    var pending: seq<NodeId>
    ghost var log: seq<Call>

    /** The count of every id is its number of linked roles, absent when zero. */
    ghost predicate Valid()
      reads this
    {
      Counts(centralLinked, periphLinked)
    }

    ghost predicate Counts(central: set<Id>, periph: set<Id>)
      reads this
    {
      && (forall id :: id in linkCount <==> Roles(central, periph, id) > 0)
      && (forall id :: id in linkCount ==> linkCount[id] == Roles(central, periph, id))
    }

    ghost function View(): State
      reads this
    {
      State(node, centralLinked, periphLinked, peers, pending, log)
    }

    constructor ()
      ensures Valid() && View() == START
    {
      node, linkCount, centralLinked, periphLinked := None, map[], {}, {};
      peers, pending, log := map[], [], [];
    }

    method OnPeerConnected(n: NodeId, id: Id)
      modifies this`peers
      ensures peers == old(peers)[n := PeersOf(old(View()), n) + {id}]
    {
      peers := peers[n := (if n in peers then peers[n] else {}) + {id}];
    }

    method OnPeerDisconnected(n: NodeId, id: Id)
      modifies this`peers
      ensures peers == old(peers)[n := PeersOf(old(View()), n) - {id}]
    {
      peers := peers[n := (if n in peers then peers[n] else {}) - {id}];
    }

    /** One more role of `id` is linked: the sets already say so, the count does not yet. */
    method LinkUp(id: Id, ghost central: set<Id>, ghost periph: set<Id>)
      requires Counts(central, periph)
      requires Roles(centralLinked, periphLinked, id) == Roles(central, periph, id) + 1
      requires forall o :: o != id ==> Roles(centralLinked, periphLinked, o) == Roles(central, periph, o)
      modifies this`linkCount, this`peers, this`log
      ensures Valid()
      ensures View() == if id in central + periph then old(View()) else Announce(old(View()), id, true)
    {
      linkCount := linkCount[id := (if id in linkCount then linkCount[id] else 0) + 1];
      if linkCount[id] == 1 {
        log := log + [Call(node, id, true)];
        if node.Some? {
          OnPeerConnected(node.value, id);
        }
      }
    }

    /** One role of `id` fewer is linked. */
    method LinkDown(id: Id, ghost central: set<Id>, ghost periph: set<Id>)
      requires Counts(central, periph)
      requires Roles(centralLinked, periphLinked, id) + 1 == Roles(central, periph, id)
      requires forall o :: o != id ==> Roles(centralLinked, periphLinked, o) == Roles(central, periph, o)
      modifies this`linkCount, this`peers, this`log
      ensures Valid()
      ensures View() == if id in centralLinked + periphLinked then old(View()) else Announce(old(View()), id, false)
    {
      if id !in linkCount {
        return;
      }
      var c := linkCount[id];
      if c <= 1 {
        linkCount := linkCount - {id};
        log := log + [Call(node, id, false)];
        if node.Some? {
          OnPeerDisconnected(node.value, id);
        }
      } else {
        linkCount := linkCount[id := c - 1];
      }
    }

    method DidDiscoverCharacteristics(id: Id)
      requires Valid()
      modifies this
      ensures Valid() && View() == Step(old(View()), CentralUp(id))
    {
      ghost var was := centralLinked;
      assert id in was ==> was + {id} == was;
      if id !in centralLinked {
        centralLinked := centralLinked + {id};
        LinkUp(id, was, periphLinked);
      }
    }

    method DidDisconnectPeripheral(id: Id)
      requires Valid()
      modifies this
      ensures Valid() && View() == Step(old(View()), CentralDown(id))
    {
      ghost var was := centralLinked;
      assert id !in was ==> was - {id} == was;
      if id in centralLinked {
        centralLinked := centralLinked - {id};
        LinkDown(id, was, periphLinked);
      }
    }

    method DidSubscribe(id: Id)
      requires Valid()
      modifies this
      ensures Valid() && View() == Step(old(View()), PeriphUp(id))
    {
      ghost var was := periphLinked;
      assert id in was ==> was + {id} == was;
      if id !in periphLinked {
        periphLinked := periphLinked + {id};
        LinkUp(id, centralLinked, was);
      }
    }

    method DidUnsubscribe(id: Id)
      requires Valid()
      modifies this
      ensures Valid() && View() == Step(old(View()), PeriphDown(id))
    {
      ghost var was := periphLinked;
      assert id !in was ==> was - {id} == was;
      if id in periphLinked {
        periphLinked := periphLinked - {id};
        LinkDown(id, centralLinked, was);
      }
    }

    /** Setting `node` queues a replay onto the node it now is. */
    method SetNode(n: Option<NodeId>)
      requires Valid()
      modifies this
      ensures Valid() && View() == Step(old(View()), Install(n))
    {
      node := n;
      if n.Some? {
        pending := pending + [n.value];
      }
    }

    /** Tells node `n` of every id in `ids`. */
    method ConnectEach(n: NodeId, ids: set<Id>)
      modifies this`peers
      ensures peers == old(peers)[n := PeersOf(old(View()), n) + ids]
    {
      ghost var was, known := peers, PeersOf(View(), n);
      peers := peers[n := if n in peers then peers[n] else {}];
      var todo := ids;
      while todo != {}
        invariant n in peers && peers == was[n := peers[n]]
        invariant known <= peers[n] && ids - peers[n] <= todo <= ids && peers[n] <= known + ids
        decreases |todo|
      {
        var id :| id in todo;
        OnPeerConnected(n, id);
        todo := todo - {id};
      }
      assert peers[n] == known + ids;
    }

    /** The first queued replay block runs, on the node it captured. */
    method RunReplay()
      requires Valid()
      modifies this
      ensures Valid() && View() == Step(old(View()), Replay)
    {
      if pending != [] {
        KeysAreLinked(linkCount, centralLinked, periphLinked);
        ConnectEach(pending[0], linkCount.Keys);
        pending := pending[1..];
      }
    }
  }

  // ----- every reachable state -----

  /** The installed node, once its replay has run, knows every linked peer. */
  ghost predicate MissesNobody(s: State) {
    s.node.Some? && s.node.value !in s.pending ==> Linked(s) <= PeersOf(s, s.node.value)
  }

  lemma StepMissesNobody(s: State, ev: Event)
    requires MissesNobody(s)
    ensures MissesNobody(Step(s, ev))
  {
  }

  lemma {:induction false} NobodyIsMissed(evs: seq<Event>)
    ensures MissesNobody(Run(START, evs))
    decreases |evs|
  {
    if evs != [] {
      NobodyIsMissed(evs[..|evs| - 1]);
      StepMissesNobody(Run(START, evs[..|evs| - 1]), evs[|evs| - 1]);
    }
  }

  /** Peers the installed node still holds although no role links them. */
  function Stale(s: State): set<Id> {
    if s.node.None? then {} else PeersOf(s, s.node.value) - Linked(s)
  }

  lemma StaleStep(s: State, ev: Event)
    requires !ev.Install?
    ensures Stale(Step(s, ev)) == Stale(s) - Linked(Step(s, ev))
  {
  }

  /** Some state of the run, its first and last included, links `id`. */
  predicate LinkedSince(s: State, evs: seq<Event>, id: Id) {
    id in Linked(Run(s, evs)) || (evs != [] && LinkedSince(s, evs[..|evs| - 1], id))
  }

  /** A stale peer goes only by being linked again: it is stale after a run without installs exactly when
      it was stale before and no state of the run links it. */
  lemma {:induction false} StaleUntilRelinked(s: State, evs: seq<Event>, id: Id)
    requires forall i :: 0 <= i < |evs| ==> !evs[i].Install?
    ensures id in Stale(Run(s, evs)) <==> id in Stale(s) && !LinkedSince(s, evs, id)
    decreases |evs|
  {
    if evs != [] {
      StaleUntilRelinked(s, evs[..|evs| - 1], id);
      StaleStep(Run(s, evs[..|evs| - 1]), evs[|evs| - 1]);
    }
  }

  /** Install `n` in any reachable state and let anything but another install happen. Once the queued
      replay has run, the node's peer set equals the union exactly when every peer it brought along
      stale has been linked in some state since. */
  lemma AgreesExactlyWhenNoStalePeerIsLeft(evs: seq<Event>, n: NodeId, more: seq<Event>)
    requires forall i :: 0 <= i < |more| ==> !more[i].Install?
    requires n !in Run(Run(START, evs + [Install(Some(n))]), more).pending
    ensures var s := Run(START, evs + [Install(Some(n))]);
            var t := Run(s, more);
            && t.node == Some(n)
            && (PeersOf(t, n) == Linked(t) <==>
                  forall id :: id in PeersOf(Run(START, evs), n) - Linked(Run(START, evs)) ==> LinkedSince(s, more, id))
  {
    var install := evs + [Install(Some(n))];
    assert install[..|install| - 1] == evs;
    var s := Run(START, install);
    var t := Run(s, more);
    RunConcat(START, install, more);
    NobodyIsMissed(install + more);
    NodeStays(s, more);
    UnionIffNoneStale(t, n);
    assert Stale(s) == PeersOf(Run(START, evs), n) - Linked(Run(START, evs));
    forall id ensures id in Stale(t) <==> id in Stale(s) && !LinkedSince(s, more, id) {
      StaleUntilRelinked(s, more, id);
    }
  }

  lemma UnionIffNoneStale(t: State, n: NodeId)
    requires t.node == Some(n) && n !in t.pending && MissesNobody(t)
    ensures PeersOf(t, n) == Linked(t) <==> forall id :: id !in Stale(t)
  {
    if forall id :: id !in Stale(t) {
      forall id | id in PeersOf(t, n) ensures id in Linked(t) {
        assert id !in Stale(t);
      }
    }
  }

  lemma {:induction false} RunConcat(s: State, a: seq<Event>, b: seq<Event>)
    ensures Run(s, a + b) == Run(Run(s, a), b)
    decreases |b|
  {
    if b == [] {
      assert a + b == a;
    } else {
      assert (a + b)[..|a + b| - 1] == a + b[..|b| - 1];
      RunConcat(s, a, b[..|b| - 1]);
    }
  }

  lemma {:induction false} NodeStays(s: State, evs: seq<Event>)
    requires forall i :: 0 <= i < |evs| ==> !evs[i].Install?
    ensures Run(s, evs).node == s.node
    decreases |evs|
  {
    if evs != [] {
      NodeStays(s, evs[..|evs| - 1]);
      StepKeepsNode(Run(s, evs[..|evs| - 1]), evs[|evs| - 1]);
    }
  }

  lemma StepKeepsNode(s: State, ev: Event)
    requires !ev.Install?
    ensures Step(s, ev).node == s.node
  {
  }

  /** Every install so far brought a node that knew no unlinked peer. */
  ghost predicate CleanInstalls(evs: seq<Event>) {
    forall i, n :: 0 <= i < |evs| && evs[i] == Install(Some(n)) ==>
      PeersOf(Run(START, evs[..i]), n) <= Linked(Run(START, evs[..i]))
  }

  /** Under clean installs the peer set of the current node is the union in every reachable state in
      which no replay for it is queued. */
  lemma {:induction false} UnionInEveryState(evs: seq<Event>)
    requires CleanInstalls(evs)
    ensures var s := Run(START, evs);
            && Stale(s) == {}
            && (s.node.Some? && s.node.value !in s.pending ==> PeersOf(s, s.node.value) == Linked(s))
    decreases |evs|
  {
    NobodyIsMissed(evs);
    if evs != [] {
      var init, last := evs[..|evs| - 1], evs[|evs| - 1];
      assert forall i :: 0 <= i < |init| ==> init[..i] == evs[..i] && init[i] == evs[i];
      assert CleanInstalls(init);
      UnionInEveryState(init);
      if !last.Install? {
        StaleStep(Run(START, init), last);
      } else if last.node.Some? {
        assert evs[|evs| - 1] == Install(Some(last.node.value));
      }
    }
  }

  /** Without that condition it fails: a node swapped out and restored keeps a peer that left meanwhile,
      because the replay only ever adds. */
  lemma RestoredNodeKeepsGonePeer(p: Id)
    ensures var evs := [Install(Some(0)), Replay, CentralUp(p)] + [Install(Some(1)), Replay, CentralDown(p)]
                       + [Install(Some(0)), Replay];
            var s := Run(START, evs);
            s.node == Some(0) && s.pending == [] && Linked(s) == {} && PeersOf(s, 0) == {p}
  {
    var meet := [Install(Some(0)), Replay, CentralUp(p)];
    var leave := [Install(Some(1)), Replay, CentralDown(p)];
    var s1, s2 := MeetAndLeave(p);
    RunThree(START, Install(Some(0)), Replay, CentralUp(p));
    RunThree(s1, Install(Some(1)), Replay, CentralDown(p));
    RunConcat(START, meet, leave);
    RunConcat(START, meet + leave, [Install(Some(0)), Replay]);
    RunTwo(s2, Install(Some(0)), Replay);
    RestoreKeeps(s2, p);
  }

  lemma RestoreKeeps(s: State, p: Id)
    requires PeersOf(s, 0) == {p} && s.central == {} && s.periph == {} && s.pending == []
    ensures var t := Step(Step(s, Install(Some(0))), Replay);
            t.node == Some(0) && t.pending == [] && Linked(t) == {} && PeersOf(t, 0) == {p}
  {
    var t := Step(s, Install(Some(0)));
    assert t.pending == [0] && Linked(t) == {} && PeersOf(t, 0) == {p};
  }

  /** Node 0 meets `p` and is swapped out for node 1; then `p` leaves. */
  lemma MeetAndLeave(p: Id) returns (s1: State, s2: State)
    ensures s1 == Step(Step(Step(START, Install(Some(0))), Replay), CentralUp(p))
    ensures s2 == Step(Step(Step(s1, Install(Some(1))), Replay), CentralDown(p))
    ensures PeersOf(s2, 0) == {p} && s2.central == {} && s2.periph == {} && s2.pending == []
  {
    var installed := Step(Step(START, Install(Some(0))), Replay);
    assert installed.node == Some(0) && installed.pending == [] && PeersOf(installed, 0) == {};
    s1 := Step(installed, CentralUp(p));
    assert s1.node == Some(0) && s1.central == {p} && s1.periph == {} && s1.pending == [] && PeersOf(s1, 0) == {p};
    var swapped := Step(Step(s1, Install(Some(1))), Replay);
    assert swapped.node == Some(1) && swapped.central == {p} && swapped.pending == [] && PeersOf(swapped, 0) == {p};
    s2 := Step(swapped, CentralDown(p));
  }

  lemma RunTwo(s: State, a: Event, b: Event)
    ensures Run(s, [a, b]) == Step(Step(s, a), b)
  {
    assert [a, b][..1] == [a] && [a][..0] == [];
    assert Run(s, [a]) == Step(Run(s, []), a);
  }

  lemma RunThree(s: State, a: Event, b: Event, c: Event)
    ensures Run(s, [a, b, c]) == Step(Step(Step(s, a), b), c)
  {
    assert [a, b, c][..2] == [a, b];
    RunTwo(s, a, b);
  }

  // ----- callbacks -----

  /** Whether the last callback about `id` was a connect; `None` before the first. */
  function LastCall(log: seq<Call>, id: Id): Option<bool> {
    if log == [] then None
    else if log[|log| - 1].id == id then Some(log[|log| - 1].up)
    else LastCall(log[..|log| - 1], id)
  }

  /** Callbacks about every id alternate, beginning with a connect. */
  ghost predicate Alternates(log: seq<Call>) {
    forall i :: 0 <= i < |log| ==> log[i].up == (LastCall(log[..i], log[i].id) != Some(true))
  }

  lemma LogGrows(log: seq<Call>, c: Call)
    requires Alternates(log) && c.up == (LastCall(log, c.id) != Some(true))
    ensures Alternates(log + [c])
    ensures forall id :: LastCall(log + [c], id) == if id == c.id then Some(c.up) else LastCall(log, id)
  {
    var grown := log + [c];
    assert grown[..|log|] == log;
    forall i | 0 <= i < |grown| ensures grown[i].up == (LastCall(grown[..i], grown[i].id) != Some(true)) {
      if i < |log| {
        assert grown[..i] == log[..i];
      }
    }
  }

  ghost predicate LogTellsLinks(s: State) {
    Alternates(s.log) && forall id :: id in Linked(s) <==> LastCall(s.log, id) == Some(true)
  }

  lemma RelinkedTells(s: State, central: set<Id>, periph: set<Id>, id: Id)
    requires LogTellsLinks(s)
    requires forall o :: o != id ==> (o in central + periph <==> o in Linked(s))
    ensures LogTellsLinks(Relinked(s, central, periph, id))
  {
    var t := s.(central := central, periph := periph);
    if (id in Linked(s)) != (id in Linked(t)) {
      var c := Call(s.node, id, id in Linked(t));
      LogGrows(s.log, c);
      assert Announce(t, id, id in Linked(t)).log == s.log + [c];
    }
  }

  lemma StepTells(s: State, ev: Event)
    requires LogTellsLinks(s)
    ensures LogTellsLinks(Step(s, ev))
  {
    match ev
    case CentralUp(id) => RelinkedTells(s, s.central + {id}, s.periph, id);
    case CentralDown(id) => RelinkedTells(s, s.central - {id}, s.periph, id);
    case PeriphUp(id) => RelinkedTells(s, s.central, s.periph + {id}, id);
    case PeriphDown(id) => RelinkedTells(s, s.central, s.periph - {id}, id);
    case Install(n) =>
    case Replay =>
  }

  /** In every run each id's callbacks alternate, and the last one says whether it is linked. */
  lemma {:induction false} CallbacksAlternate(evs: seq<Event>)
    ensures LogTellsLinks(Run(START, evs))
    decreases |evs|
  {
    if evs != [] {
      CallbacksAlternate(evs[..|evs| - 1]);
      StepTells(Run(START, evs[..|evs| - 1]), evs[|evs| - 1]);
    }
  }
}
