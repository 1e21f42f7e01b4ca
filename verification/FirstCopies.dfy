/** Which of the frames a node is given it actually handles: of all frames with one relay key only the first.
    Stated for any way of measuring a frame, so that it serves heads and balances alike. */
module FirstCopies {
  import opened Bytes
  import opened Packet
  import opened Engine

  predicate HasKey(ps: seq<Packet>, k: RelayKey) { exists i :: 0 <= i < |ps| && KeyOf(ps[i]) == k }

  /** The frames whose relay key no earlier frame has, in order. */
  function Firsts(ps: seq<Packet>): seq<Packet> {
    if ps == [] then []
    else
      var init, last := ps[..|ps| - 1], ps[|ps| - 1];
      if HasKey(init, KeyOf(last)) then Firsts(init) else Firsts(init) + [last]
  }

  lemma {:induction false} FirstsAreFrames(ps: seq<Packet>, p: Packet)
    requires p in Firsts(ps)
    ensures p in ps
    decreases |ps|
  {
    var init := ps[..|ps| - 1];
    if p in Firsts(init) {
      FirstsAreFrames(init, p);
    }
  }

  /** Every key is handled once. */
  lemma {:induction false} KeyIsHandled(ps: seq<Packet>, k: RelayKey)
    ensures HasKey(Firsts(ps), k) <==> HasKey(ps, k)
    decreases |ps|
  {
    if ps != [] {
      var n := |ps| - 1;
      var init, last := ps[..n], ps[n];
      KeyIsHandled(init, k);
      HasKeyAppend(init, last, k);
      assert ps == init + [last];
      HasKeyAppend(Firsts(init), last, k);
    }
  }

  lemma HasKeyAppend(ps: seq<Packet>, p: Packet, k: RelayKey)
    ensures HasKey(ps + [p], k) <==> HasKey(ps, k) || KeyOf(p) == k
  {
    var grown := ps + [p];
    assert grown[|ps|] == p;
    if HasKey(ps, k) {
      var i :| 0 <= i < |ps| && KeyOf(ps[i]) == k;
      assert grown[i] == ps[i];
    }
    if HasKey(grown, k) {
      var i :| 0 <= i < |grown| && KeyOf(grown[i]) == k;
      assert i < |ps| ==> grown[i] == ps[i];
    }
  }

  lemma HasKeyMore(a: seq<Packet>, b: seq<Packet>, k: RelayKey)
    ensures HasKey(a, k) ==> HasKey(a + b, k)
  {
    if HasKey(a, k) {
      var i :| 0 <= i < |a| && KeyOf(a[i]) == k;
      assert (a + b)[i] == a[i];
    }
  }

  /** Of `a + b`, what is handled from `b` has a key that `a` does not have. */
  lemma {:induction false} FirstsOfBoth(a: seq<Packet>, b: seq<Packet>, p: Packet)
    requires p in Firsts(a + b)
    ensures p in a || !HasKey(a, KeyOf(p))
    decreases |b|
  {
    if b == [] {
      assert a + b == a;
      FirstsAreFrames(a, p);
    } else {
      var init, last := b[..|b| - 1], b[|b| - 1];
      assert (a + b)[..|a + b| - 1] == a + init;
      if p in Firsts(a + init) {
        FirstsOfBoth(a, init, p);
      } else {
        HasKeyMore(a, init, KeyOf(p));
      }
    }
  }

  /** The very first frame is handled first. */
  lemma {:induction false} FirstOfAll(ps: seq<Packet>)
    requires ps != []
    ensures Firsts(ps) != [] && Firsts(ps)[0] == ps[0]
    decreases |ps|
  {
    if |ps| > 1 {
      FirstOfAll(ps[..|ps| - 1]);
    } else {
      assert !HasKey(ps[..0], KeyOf(ps[0]));
    }
  }

  // ----- the greatest measure -----

  type Measure = Packet -> Option<nat>

  function Greater(a: Option<nat>, b: Option<nat>): Option<nat> {
    if b.Some? && (a.None? || b.value > a.value) then b else a
  }

  function Best(h: Measure, ps: seq<Packet>): Option<nat> {
    if ps == [] then None else Greater(Best(h, ps[..|ps| - 1]), h(ps[|ps| - 1]))
  }

  /** `m` is a bound on what is measured. */
  ghost predicate AtMost(h: Measure, ps: seq<Packet>, m: nat) { forall p :: p in ps && h(p).Some? ==> h(p).value <= m }

  lemma {:induction false} BestIsGreatest(h: Measure, ps: seq<Packet>)
    ensures match Best(h, ps)
            case None => forall p :: p in ps ==> h(p).None?
            case Some(m) => AtMost(h, ps, m) && exists p :: p in ps && h(p) == Some(m)
    decreases |ps|
  {
    if ps != [] {
      var init, last := ps[..|ps| - 1], ps[|ps| - 1];
      BestIsGreatest(h, init);
      assert ps == init + [last];
      assert last in ps;
      if Best(h, init).Some? {
        var p :| p in init && h(p) == Best(h, init);
        assert p in ps;
      }
    }
  }

  // ----- all orders and repetitions -----

  ghost predicate SameFrames(ps: seq<Packet>, qs: seq<Packet>) {
    (forall p :: p in ps ==> p in qs) && (forall p :: p in qs ==> p in ps)
  }

  /** `p` measures the greatest of `fs`. */
  ghost predicate AtTop(h: Measure, fs: seq<Packet>, p: Packet) { h(p).Some? && AtMost(h, fs, h(p).value) }

  /** All frames of `fs` with the key of `p` measure the greatest of `fs`. */
  ghost predicate KeyAtTop(h: Measure, fs: seq<Packet>, p: Packet) {
    p in fs && forall q :: q in fs && KeyOf(q) == KeyOf(p) ==> AtTop(h, fs, q)
  }

  /** Nothing is measured, or some relay key is used only for frames at the top. */
  ghost predicate Pinned(h: Measure, fs: seq<Packet>) {
    (forall p :: p in fs ==> h(p).None?) || exists p :: KeyAtTop(h, fs, p)
  }

  ghost predicate OneOutcome(h: Measure, fs: seq<Packet>) {
    forall qs, rs :: SameFrames(fs, qs) && SameFrames(fs, rs) ==> Best(h, Firsts(qs)) == Best(h, Firsts(rs))
  }

  lemma HandledAreFrames(fs: seq<Packet>, qs: seq<Packet>)
    requires SameFrames(fs, qs)
    ensures forall r :: r in Firsts(qs) ==> r in fs
  {
    forall r | r in Firsts(qs) ensures r in fs {
      FirstsAreFrames(qs, r);
    }
  }

  lemma BestIsTop(h: Measure, ps: seq<Packet>, p: Packet)
    requires p in ps && AtTop(h, ps, p)
    ensures Best(h, ps) == h(p)
  {
    BestIsGreatest(h, ps);
  }

  /** With a relay key used only at the top, the top is handled in every order. */
  lemma PinnedIsTop(h: Measure, fs: seq<Packet>, qs: seq<Packet>, p: Packet)
    requires SameFrames(fs, qs) && KeyAtTop(h, fs, p)
    ensures Best(h, Firsts(qs)) == h(p)
  {
    var q := HandledFor(qs, p);
    HandledAreFrames(fs, qs);
    assert AtTop(h, fs, q) && AtTop(h, fs, p);
    BestIsTop(h, Firsts(qs), q);
  }

  lemma HandledFor(qs: seq<Packet>, p: Packet) returns (q: Packet)
    requires p in qs
    ensures q in Firsts(qs) && KeyOf(q) == KeyOf(p)
  {
    var i :| 0 <= i < |qs| && qs[i] == p;
    KeyIsHandled(qs, KeyOf(p));
    var j :| 0 <= j < |Firsts(qs)| && KeyOf(Firsts(qs)[j]) == KeyOf(p);
    q := Firsts(qs)[j];
  }

  /** Without any measured frame nothing is measured in any order. */
  lemma NothingMeasured(h: Measure, fs: seq<Packet>, qs: seq<Packet>)
    requires SameFrames(fs, qs) && forall p :: p in fs ==> h(p).None?
    ensures Best(h, Firsts(qs)) == None
  {
    BestIsGreatest(h, Firsts(qs));
    HandledAreFrames(fs, qs);
  }

  /** For every key of `fs` a frame of it that is not at the top, all of them first. */
  lemma LowFirst(h: Measure, fs: seq<Packet>) returns (lows: seq<Packet>)
    requires forall p :: p in fs ==> !KeyAtTop(h, fs, p)
    ensures forall p :: p in lows ==> p in fs && !AtTop(h, fs, p)
    ensures forall p :: p in fs ==> HasKey(lows, KeyOf(p))
  {
    lows := LowFirstOf(h, fs, fs);
  }

  lemma {:induction false} LowFirstOf(h: Measure, fs: seq<Packet>, part: seq<Packet>) returns (lows: seq<Packet>)
    requires forall p :: p in part ==> p in fs && !KeyAtTop(h, fs, p)
    ensures forall p :: p in lows ==> p in fs && !AtTop(h, fs, p)
    ensures forall p :: p in part ==> HasKey(lows, KeyOf(p))
    decreases |part|
  {
    lows := [];
    if part != [] {
      var init, last := part[..|part| - 1], part[|part| - 1];
      assert part == init + [last] && last in part;
      var before := LowFirstOf(h, fs, init);
      var q :| q in fs && KeyOf(q) == KeyOf(last) && !AtTop(h, fs, q);
      lows := before + [q];
      forall p | p in part ensures HasKey(lows, KeyOf(p)) {
        HasKeyAppend(before, q, KeyOf(p));
      }
    }
  }

  /** If every key also has a frame below the top, some order hides the top and some order shows it. */
  lemma TwoOutcomes(h: Measure, fs: seq<Packet>, top: Packet) returns (qs: seq<Packet>, rs: seq<Packet>)
    requires top in fs && AtTop(h, fs, top) && forall p :: p in fs ==> !KeyAtTop(h, fs, p)
    ensures SameFrames(fs, qs) && SameFrames(fs, rs)
    ensures Best(h, Firsts(qs)) == h(top) && Best(h, Firsts(rs)) != h(top)
  {
    qs := [top] + fs;
    TopFirst(h, fs, top);
    var lows := LowFirst(h, fs);
    rs := lows + fs;
    BestIsGreatest(h, Firsts(rs));
    forall r | r in Firsts(rs) ensures h(r) != h(top) {
      FirstsOfBoth(lows, fs, r);
      FirstsAreFrames(rs, r);
      assert r in fs;
      assert HasKey(lows, KeyOf(r));
    }
  }

  lemma TopFirst(h: Measure, fs: seq<Packet>, top: Packet)
    requires top in fs && AtTop(h, fs, top)
    ensures SameFrames(fs, [top] + fs) && Best(h, Firsts([top] + fs)) == h(top)
  {
    var qs := [top] + fs;
    FirstOfAll(qs);
    HandledAreFrames(fs, qs);
    assert top in Firsts(qs);
    BestIsTop(h, Firsts(qs), top);
  }

  /** What is handled measures the same in every order and repetition exactly when nothing is measured or
      some relay key is used only for frames at the top. */
  lemma OneOutcomeIff(h: Measure, fs: seq<Packet>)
    ensures OneOutcome(h, fs) <==> Pinned(h, fs)
  {
    if Pinned(h, fs) {
      forall qs, rs | SameFrames(fs, qs) && SameFrames(fs, rs) ensures Best(h, Firsts(qs)) == Best(h, Firsts(rs)) {
        if forall p :: p in fs ==> h(p).None? {
          NothingMeasured(h, fs, qs);
          NothingMeasured(h, fs, rs);
        } else {
          var p :| KeyAtTop(h, fs, p);
          PinnedIsTop(h, fs, qs, p);
          PinnedIsTop(h, fs, rs, p);
        }
      }
    } else {
      BestIsGreatest(h, fs);
      var top :| top in fs && h(top) == Best(h, fs);
      var qs, rs := TwoOutcomes(h, fs, top);
    }
  }
}
