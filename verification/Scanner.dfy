/** The field scanner of `MeshtasticFrame.swift`: a walk over the fields of a message that shows each to a
    visitor until the visitor stops it. The walk is stated for any way of reading one field, and used with
    the protobuf one. */
module Scanner {
  import opened Bytes
  import opened Protobuf

  type Reader = seq<byte> -> Turn

  /** Every field read takes at least one byte and no more than there are. */
  ghost predicate Progresses(at: Reader) { forall b :: at(b).Got? ==> 0 < at(b).used <= |b| }

  datatype End = Finished | Stopped | Failed(reason: Reason) | Trapped

  datatype Scanned = Scanned(visited: seq<Field>, end: End)

  /** The fields shown to a visitor that says when to stop, in order, and how the walk ended. */
  function Walk(at: Reader, b: seq<byte>, stop: Field -> bool): Scanned
    requires Progresses(at)
    decreases |b|
  {
    if b == [] then Scanned([], Finished)
    else
      match at(b)
      case Bad(reason) => Scanned([], Failed(reason))
      case Trap => Scanned([], Trapped)
      case Got(f, used) =>
        if stop(f) then Scanned([f], Stopped) else Prepended([f], Walk(at, b[used..], stop))
  }

  function Prepended(before: seq<Field>, s: Scanned): Scanned { Scanned(before + s.visited, s.end) }

  lemma FieldsProgress()
    ensures Progresses(FieldAt)
  {
  }

  function Scan(b: seq<byte>, stop: Field -> bool): Scanned {
    FieldsProgress();
    Walk(FieldAt, b, stop)
  }

  // ----- scanning what was serialised -----

  /** The fields up to and including the first at which the visitor stops. */
  function UpToStop(fs: seq<Field>, stop: Field -> bool): Scanned {
    if fs == [] then Scanned([], Finished)
    else if stop(fs[0]) then Scanned([fs[0]], Stopped)
    else Prepended([fs[0]], UpToStop(fs[1..], stop))
  }

  /** Scanning the serialisation of any list of fields visits exactly those fields in order, up to where
      the visitor stops. */
  lemma {:induction false} ScanInvertsSerialise(fs: seq<Field>, stop: Field -> bool)
    requires forall i :: 0 <= i < |fs| ==> WellFormed(fs[i])
    ensures Scan(SerialiseAll(fs), stop) == UpToStop(fs, stop)
    decreases |fs|
  {
    FieldsProgress();
    if fs != [] {
      var one, rest := Serialise(fs[0]), SerialiseAll(fs[1..]);
      TurnInverts(fs[0], rest);
      ScanInvertsSerialise(fs[1..], stop);
      WalkFirst(FieldAt, one + rest, stop, fs[0], |one|);
      assert (one + rest)[|one|..] == rest;
    }
  }

  lemma WalkFirst(at: Reader, b: seq<byte>, stop: Field -> bool, f: Field, used: nat)
    requires Progresses(at) && b != [] && at(b) == Got(f, used)
    ensures 0 < used <= |b|
    ensures Walk(at, b, stop) == if stop(f) then Scanned([f], Stopped) else Prepended([f], Walk(at, b[used..], stop))
  {
  }

  // ----- the loop -----

  /** The outcome of the walk from `b` on, with `before` already visited, once the field at its front has
      been read as `t`. */
  function AfterTurn(at: Reader, before: seq<Field>, b: seq<byte>, stop: Field -> bool, t: Turn): Scanned
    requires Progresses(at) && (t.Got? ==> t.used <= |b|)
  {
    match t
    case Bad(reason) => Scanned(before, Failed(reason))
    case Trap => Scanned(before, Trapped)
    case Got(f, used) =>
      if stop(f) then Scanned(before + [f], Stopped) else Prepended(before + [f], Walk(at, b[used..], stop))
  }

  lemma TakeTurn(at: Reader, before: seq<Field>, b: seq<byte>, stop: Field -> bool)
    requires Progresses(at) && b != []
    ensures Prepended(before, Walk(at, b, stop)) == AfterTurn(at, before, b, stop, at(b))
  {
    var t := at(b);
    if t.Got? && !stop(t.field) {
      var s := Walk(at, b[t.used..], stop);
      assert before + ([t.field] + s.visited) == before + [t.field] + s.visited;
    } else if !t.Got? {
      assert before + [] == before;
    }
  }

  /** One turn of the loop: show the field at `i` to the visitor and move past it, or end the scan. */
  method Visit(ghost at: Reader, bytes: seq<byte>, stop: Field -> bool, before: seq<Field>, i: nat, turn: Turn)
    returns (visited: seq<Field>, ended: Option<End>, next: nat)
    requires Progresses(at) && i < |bytes| && turn == at(bytes[i..])
    ensures ended.None? ==>
              i < next <= |bytes|
              && Prepended(before, Walk(at, bytes[i..], stop)) == Prepended(visited, Walk(at, bytes[next..], stop))
    ensures ended.Some? ==> Prepended(before, Walk(at, bytes[i..], stop)) == Scanned(visited, ended.value)
  {
    TakeTurn(at, before, bytes[i..], stop);
    visited, ended, next := before, None, i;
    match turn {
      case Bad(reason) => ended := Some(Failed(reason));
      case Trap => ended := Some(Trapped);
      case Got(f, used) =>
        visited := before + [f];
        if stop(f) {
          ended := Some(Stopped);
        } else {
          next := i + used;
          assert bytes[i..][used..] == bytes[next..];
        }
    }
  }

  /** The scan as a loop over an index. */
  method ScanLoop(bytes: seq<byte>, stop: Field -> bool) returns (visited: seq<Field>, end: End)
    ensures Scanned(visited, end) == Scan(bytes, stop)
  {
    FieldsProgress();
    visited := [];
    var i := 0;
    assert bytes[0..] == bytes;
    while i < |bytes|
      invariant 0 <= i <= |bytes|
      invariant Scan(bytes, stop) == Prepended(visited, Walk(FieldAt, bytes[i..], stop))
    {
      var turn := TurnAt(bytes, i);
      var ended: Option<End>;
      visited, ended, i := Visit(FieldAt, bytes, stop, visited, i, turn);
      if ended.Some? {
        return visited, ended.value;
      }
    }
    assert bytes[i..] == [] && visited + [] == visited;
    end := Finished;
  }

  // ----- when the scan traps -----

  /** The walk gets to offset `i`: every field before it is readable and does not stop the visitor. */
  predicate Reaches(at: Reader, b: seq<byte>, stop: Field -> bool, i: nat)
    requires Progresses(at)
    decreases |b|
  {
    i == 0 || (b != [] && at(b).Got? && !stop(at(b).field) && at(b).used <= i
               && Reaches(at, b[at(b).used..], stop, i - at(b).used))
  }

  ghost predicate TrapAhead(at: Reader, b: seq<byte>, stop: Field -> bool)
    requires Progresses(at)
  {
    exists i :: 0 <= i < |b| && Reaches(at, b, stop, i) && at(b[i..]).Trap?
  }

  lemma TrapBeyond(at: Reader, b: seq<byte>, stop: Field -> bool)
    requires Progresses(at) && b != [] && at(b).Got? && !stop(at(b).field)
    ensures TrapAhead(at, b, stop) <==> TrapAhead(at, b[at(b).used..], stop)
  {
    var used := at(b).used;
    var rest := b[used..];
    if i :| 0 <= i < |b| && Reaches(at, b, stop, i) && at(b[i..]).Trap? {
      assert b[0..] == b;
      assert rest[i - used..] == b[i..];
    }
    if j :| 0 <= j < |rest| && Reaches(at, rest, stop, j) && at(rest[j..]).Trap? {
      assert rest[j..] == b[used + j..];
      assert Reaches(at, b, stop, used + j);
    }
  }

  lemma TrapHere(at: Reader, b: seq<byte>, stop: Field -> bool)
    requires Progresses(at) && b != [] && !(at(b).Got? && !stop(at(b).field))
    ensures TrapAhead(at, b, stop) <==> at(b).Trap?
  {
    assert b[0..] == b;
    assert Reaches(at, b, stop, 0);
  }

  lemma {:induction false} WalkTrapsIff(at: Reader, b: seq<byte>, stop: Field -> bool)
    requires Progresses(at)
    ensures Walk(at, b, stop).end == Trapped <==> TrapAhead(at, b, stop)
    decreases |b|
  {
    if b != [] {
      if at(b).Got? && !stop(at(b).field) {
        TrapBeyond(at, b, stop);
        WalkTrapsIff(at, b[at(b).used..], stop);
      } else {
        TrapHere(at, b, stop);
      }
    }
  }

  /** The walk over the fields reaches, without stopping, an offset whose key has wire type 2 and whose
      length exceeds the largest signed 64-bit integer. */
  ghost predicate TrapsAhead(b: seq<byte>, stop: Field -> bool) {
    FieldsProgress();
    exists i :: 0 <= i < |b| && Reaches(FieldAt, b, stop, i) && TrapsAt(b[i..])
  }

  /** The scan traps exactly when such a length lies ahead. */
  lemma ScanTrapsIff(b: seq<byte>, stop: Field -> bool)
    ensures Scan(b, stop).end == Trapped <==> TrapsAhead(b, stop)
  {
    FieldsProgress();
    WalkTrapsIff(FieldAt, b, stop);
    forall i | 0 <= i < |b| ensures FieldAt(b[i..]).Trap? <==> TrapsAt(b[i..]) {
      TurnTrapsIff(b[i..]);
    }
  }

  ghost predicate AllWithin(fs: seq<Field>, n: nat) { forall i :: 0 <= i < |fs| ==> |fs[i].body| <= n }

  lemma {:induction false} WalkedAreShort(at: Reader, b: seq<byte>, stop: Field -> bool)
    requires Progresses(at) && forall x :: at(x).Got? ==> |at(x).field.body| <= |x|
    ensures AllWithin(Walk(at, b, stop).visited, |b|)
    decreases |b|
  {
    if b != [] && at(b).Got? && !stop(at(b).field) {
      WalkedAreShort(at, b[at(b).used..], stop);
    }
  }

  /** A body shown to a visitor is part of the message. */
  lemma BodiesAreShort(b: seq<byte>, stop: Field -> bool)
    ensures AllWithin(Scan(b, stop).visited, |b|)
  {
    FieldsProgress();
    forall x | FieldAt(x).Got? ensures |FieldAt(x).field.body| <= |x| {
      BodyFits(x);
    }
    WalkedAreShort(FieldAt, b, stop);
  }
}
