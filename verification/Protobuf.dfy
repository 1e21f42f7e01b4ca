/** The minimal protobuf primitives of `MeshtasticFrame.swift`: varints and the field scanner. */
module Protobuf {
  import opened Bytes

  // ----- varints -----

  /** Groups of seven bits, least significant first, the top bit set on all but the last. */
  function Varint(v: nat): (b: seq<byte>)
    ensures |b| >= 1
  {
    if v < 128 then [v] else [v % 128 + 128] + Varint(v / 128)
  }

  datatype Read = Read(value: nat, used: nat)

  /** How many values the groups from the `g`-th on can hold within 64 bits. */
  function Room(g: nat): nat
    requires g <= 9
    decreases 9 - g
  {
    if g == 9 then 2 else 128 * Room(g + 1)
  }

  lemma RoomForU64()
    ensures Room(0) == U64_MAX + 1
  {
    assert Room(8) == 256 && Room(7) == 128 * Room(8) && Room(6) == 128 * Room(7) && Room(5) == 128 * Room(6);
    assert Room(4) == 128 * Room(5) && Room(3) == 128 * Room(4) && Room(2) == 128 * Room(3) && Room(1) == 128 * Room(2);
  }

  /** What group `g` contributes: of the tenth only the lowest bit fits. */
  function Low(b: byte, g: nat): nat { if g == 9 then b % 128 % 2 else b % 128 }

  /** The varint at the front of `b`, whose first byte is group `g`. */
  function ReadGroups(b: seq<byte>, g: nat): (r: Option<Read>)
    requires g <= 10
    ensures r.Some? ==> 1 <= r.value.used <= |b| && g < 10 && r.value.value < Room(g)
    decreases |b|
  {
    if b == [] || g == 10 then None
    else if b[0] < 128 then
      assert g < 9 ==> Room(g) >= 128 by { RoomIsLarge(g); }
      Some(Read(Low(b[0], g), 1))
    else
      var rest := ReadGroups(b[1..], g + 1);
      if rest.None? then None
      else Some(Read(Low(b[0], g) + 128 * rest.value.value, 1 + rest.value.used))
  }

  lemma {:induction false} RoomIsLarge(g: nat)
    requires g <= 9
    ensures Room(g) >= 2 && (g < 9 ==> Room(g) >= 128)
    decreases 9 - g
  {
    if g < 9 {
      RoomIsLarge(g + 1);
    }
  }

  function ReadVarint(b: seq<byte>): Option<Read> { ReadGroups(b, 0) }

  lemma {:induction false} GroupsOfVarint(v: nat, g: nat, rest: seq<byte>)
    requires g <= 9 && v < Room(g)
    ensures ReadGroups(Varint(v) + rest, g) == Some(Read(v, |Varint(v)|))
    decreases v
  {
    var b := Varint(v) + rest;
    if v >= 128 {
      assert g < 9;
      GroupsOfVarint(v / 128, g + 1, rest);
      assert b[1..] == Varint(v / 128) + rest;
    }
  }

  /** Reading inverts writing for every 64-bit value, whatever follows. */
  lemma ReadInvertsWrite(v: u64, rest: seq<byte>)
    ensures ReadVarint(Varint(v) + rest) == Some(Read(v, |Varint(v)|))
  {
    RoomForU64();
    GroupsOfVarint(v, 0, rest);
  }

  /** What is read depends only on the bytes used. */
  lemma {:induction false} ReadIsLocal(b: seq<byte>, g: nat, rest: seq<byte>)
    requires g <= 10 && ReadGroups(b, g).Some?
    ensures ReadGroups(b + rest, g) == ReadGroups(b, g)
    decreases |b|
  {
    if b[0] >= 128 {
      ReadIsLocal(b[1..], g + 1, rest);
      assert (b + rest)[1..] == b[1..] + rest;
    }
  }

  /** The number the groups denote when nothing is cut off. */
  function Unbounded(b: seq<byte>): nat {
    if b == [] then 0 else b[0] % 128 + 128 * Unbounded(b[1..])
  }

  lemma {:induction false} ExactFrom(b: seq<byte>, g: nat)
    requires g <= 10 && ReadGroups(b, g).Some?
    ensures var r := ReadGroups(b, g).value;
            && g + r.used <= 10
            && (r.value == Unbounded(b[..r.used]) <==> g + r.used < 10 || b[9 - g] % 128 <= 1)
    decreases |b|
  {
    var r := ReadGroups(b, g).value;
    if b[0] < 128 {
      assert b[..1][1..] == [];
      assert Unbounded(b[..1]) == b[0] % 128;
    } else {
      ExactFrom(b[1..], g + 1);
      assert b[..r.used][1..] == b[1..][..r.used - 1];
    }
  }

  /** A varint is read at its full value exactly when it has fewer than ten groups or its tenth group is
      0 or 1: an eleventh group is refused, but excess bits of the tenth are dropped. */
  lemma ReadIsExactIff(b: seq<byte>)
    requires ReadVarint(b).Some?
    ensures var r := ReadVarint(b).value;
            r.used <= 10 && (r.value == Unbounded(b[..r.used]) <==> r.used < 10 || b[9] % 128 <= 1)
  {
    ExactFrom(b, 0);
  }

  function Pow128(g: nat): (p: nat)
    ensures p >= 1
  {
    if g == 0 then 1 else 128 * Pow128(g - 1)
  }

  lemma Pow128Values()
    ensures Pow128(0) == 1 && Pow128(1) == 0x80 && Pow128(2) == 0x4000 && Pow128(3) == 0x20_0000
    ensures Pow128(4) == 0x1000_0000 && Pow128(5) == 0x8_0000_0000 && Pow128(6) == 0x400_0000_0000
    ensures Pow128(7) == 0x2_0000_0000_0000 && Pow128(8) == 0x100_0000_0000_0000 && Pow128(9) == 0x8000_0000_0000_0000
  {
    assert Pow128(3) == 128 * Pow128(2);
    assert Pow128(5) == 128 * Pow128(4);
    assert Pow128(6) == 128 * Pow128(5);
    assert Pow128(7) == 128 * Pow128(6);
    assert Pow128(8) == 128 * Pow128(7);
    assert Pow128(9) == 128 * Pow128(8);
  }

  lemma {:induction false} Pow128Grows(g: nat, h: nat)
    requires g <= h
    ensures Pow128(g) <= Pow128(h)
    decreases h
  {
    if g < h {
      Pow128Grows(g, h - 1);
    }
  }

  lemma {:induction false} TenthGroup(low: nat)
    ensures (low * 0x8000_0000_0000_0000) % (U64_MAX + 1) == (low % 2) * 0x8000_0000_0000_0000
  {
    if low >= 2 {
      TenthGroup(low - 2);
      assert low * 0x8000_0000_0000_0000 == (low - 2) * 0x8000_0000_0000_0000 + (U64_MAX + 1);
    }
  }

  lemma SmallProduct(low: nat, p: nat, q: nat)
    requires low < 128 && p <= q
    ensures low * p <= 127 * q
  {
    assert low * p <= low * q <= 127 * q;
  }

  /** `UInt64(byte & 0x7F) << shift` for shift 7g: nothing is lost but the upper bits of the tenth group. */
  lemma ShiftedGroup(b: byte, g: nat)
    requires g <= 9
    ensures ((b % 128) * Pow128(g)) % (U64_MAX + 1) == Low(b, g) * Pow128(g)
  {
    Pow128Values();
    if g == 9 {
      TenthGroup(b % 128);
    } else {
      Pow128Grows(g, 8);
      SmallProduct(b % 128, Pow128(g), Pow128(8));
    }
  }

  method WriteVarint(value: u64) returns (out: seq<byte>)
    ensures out == Varint(value)
  {
    var v: nat := value;
    out := [];
    while v >= 128
      invariant out + Varint(v) == Varint(value)
    {
      out := out + [v % 128 + 128];
      v := v / 128;
    }
    out := out + [v];
  }

  /** The reading loop; the groups occupy disjoint bits, so or-ing one in is adding it. */
  method ReadVarintAt(bytes: seq<byte>, start: nat) returns (r: Option<Read>)
    requires start <= |bytes|
    ensures r == Shifted(ReadVarint(bytes[start..]), start)
  {
    var value: nat, g: nat, i: nat := 0, 0, start;
    while i < |bytes|
      invariant i == start + g <= |bytes| && g <= 10
      invariant ReadVarint(bytes[start..]) == Extended(value, g, ReadGroups(bytes[i..], g))
    {
      var byte := bytes[i];
      if g == 10 {
        return None;
      }
      ExtendedStep(value, g, bytes[i..]);
      assert bytes[i..][1..] == bytes[i + 1..];
      value := value + ((byte % 128) * Pow128(g)) % (U64_MAX + 1);
      i := i + 1;
      if byte < 128 {
        return Some(Read(value, i));
      }
      g := g + 1;
    }
    return None;
  }

  function Shifted(r: Option<Read>, start: nat): Option<Read> {
    if r.None? then None else Some(Read(r.value.value, start + r.value.used))
  }

  /** The whole reading, when the first `g` groups gave `value` and the rest reads as `r`. */
  function Extended(value: nat, g: nat, r: Option<Read>): Option<Read> {
    if r.None? then None else Some(Read(value + Pow128(g) * r.value.value, g + r.value.used))
  }

  lemma ExtendedStep(value: nat, g: nat, b: seq<byte>)
    requires g <= 9 && b != []
    ensures var v := value + ((b[0] % 128) * Pow128(g)) % (U64_MAX + 1);
            Extended(value, g, ReadGroups(b, g)) ==
            if b[0] < 128 then Some(Read(v, g + 1)) else Extended(v, g + 1, ReadGroups(b[1..], g + 1))
  {
    ShiftedGroup(b[0], g);
    var low, tail := Low(b[0], g), ReadGroups(b[1..], g + 1);
    if b[0] < 128 {
      assert Pow128(g) * low == low * Pow128(g);
    } else if tail.Some? {
      Distribute(Pow128(g), low, tail.value.value);
    }
  }

  lemma Distribute(p: nat, low: nat, x: nat)
    ensures p * (low + 128 * x) == low * p + (128 * p) * x
  {
  }

  // ----- fields -----

  datatype Wire = VarintWire | Fixed64 | LengthDelimited | Fixed32

  function Code(w: Wire): nat {
    match w
    case VarintWire => 0
    case Fixed64 => 1
    case LengthDelimited => 2
    case Fixed32 => 5
  }

  function WireOf(code: nat): (w: Option<Wire>)
    ensures w.Some? ==> Code(w.value) == code
  {
    if code == 0 then Some(VarintWire)
    else if code == 1 then Some(Fixed64)
    else if code == 2 then Some(LengthDelimited)
    else if code == 5 then Some(Fixed32)
    else None
  }

  /** A field as the scanner shows it to its visitor: number, wire type and raw body. */
  datatype Field = Field(number: nat, wire: Wire, body: seq<byte>)

  /** What protobuf allows as a field of 64-bit key and addressable length. */
  predicate WellFormed(f: Field) {
    && f.number * 8 + 7 <= U64_MAX
    && match f.wire
       case VarintWire => ReadVarint(f.body).Some? && ReadVarint(f.body).value.used == |f.body|
       case Fixed64 => |f.body| == 8
       case LengthDelimited => |f.body| <= I64_MAX
       case Fixed32 => |f.body| == 4
  }

  function Tag(number: nat, wire: Wire): seq<byte> { Varint(number * 8 + Code(wire)) }

  function Serialise(f: Field): seq<byte> {
    Tag(f.number, f.wire) + (if f.wire.LengthDelimited? then Varint(|f.body|) else []) + f.body
  }

  function SerialiseAll(fs: seq<Field>): seq<byte> {
    if fs == [] then [] else Serialise(fs[0]) + SerialiseAll(fs[1..])
  }

  datatype Reason =
    | TruncatedKey | UnsupportedWire | TruncatedVarint | TruncatedFixed | TruncatedLength | Overrun
    | NoPayload | BadVarint

  /** One turn of the scanner: a field and how many bytes it took, an error, or the arithmetic trap of a
      length that does not fit a signed 64-bit integer. */
  datatype Turn = Got(field: Field, used: nat) | Bad(reason: Reason) | Trap

  function FieldAt(b: seq<byte>): (t: Turn)
    ensures t.Got? ==> 0 < t.used <= |b|
  {
    var key := ReadVarint(b);
    if key.None? then Bad(TruncatedKey)
    else
      var wire := WireOf(key.value.value % 8);
      if wire.None? then Bad(UnsupportedWire)
      else BodyAt(b, key.value.used, key.value.value / 8, wire.value)
  }

  function BodyAt(b: seq<byte>, i: nat, number: nat, wire: Wire): (t: Turn)
    requires i <= |b|
    ensures t.Got? ==> i <= t.used <= |b|
  {
    match wire
    case VarintWire =>
      var r := ReadVarint(b[i..]);
      if r.None? then Bad(TruncatedVarint)
      else Got(Field(number, wire, b[i..i + r.value.used]), i + r.value.used)
    case Fixed32 =>
      if |b| - i < 4 then Bad(TruncatedFixed) else Got(Field(number, wire, b[i..i + 4]), i + 4)
    case Fixed64 =>
      if |b| - i < 8 then Bad(TruncatedFixed) else Got(Field(number, wire, b[i..i + 8]), i + 8)
    case LengthDelimited =>
      var len := ReadVarint(b[i..]);
      if len.None? then Bad(TruncatedLength)
      else if len.value.value > I64_MAX then Trap
      else
        var start := i + len.value.used;
        if |b| - start < len.value.value then Bad(Overrun)
        else Got(Field(number, wire, b[start..start + len.value.value]), start + len.value.value)
  }

  lemma SliceOf(pre: seq<byte>, mid: seq<byte>, rest: seq<byte>)
    ensures (pre + mid + rest)[|pre|..] == mid + rest
    ensures (pre + mid + rest)[|pre|..|pre| + |mid|] == mid
  {
  }

  /** A body that is no length-delimited one. */
  lemma PlainBodyInverts(f: Field, pre: seq<byte>, rest: seq<byte>)
    requires WellFormed(f) && !f.wire.LengthDelimited?
    ensures BodyAt(pre + f.body + rest, |pre|, f.number, f.wire) == Got(f, |pre| + |f.body|)
  {
    SliceOf(pre, f.body, rest);
    if f.wire.VarintWire? {
      ReadIsLocal(f.body, 0, rest);
    }
  }

  lemma DelimitedBodyInverts(f: Field, pre: seq<byte>, rest: seq<byte>)
    requires WellFormed(f) && f.wire.LengthDelimited?
    ensures BodyAt(pre + Varint(|f.body|) + (f.body + rest), |pre|, f.number, f.wire)
         == Got(f, |pre| + |Varint(|f.body|)| + |f.body|)
  {
    var len := Varint(|f.body|);
    SliceOf(pre, len, f.body + rest);
    SliceOf(pre + len, f.body, rest);
    assert pre + len + (f.body + rest) == pre + len + f.body + rest;
    ReadInvertsWrite(|f.body|, f.body + rest);
  }

  lemma KeyParts(number: nat, wire: Wire)
    ensures var key := number * 8 + Code(wire); key / 8 == number && WireOf(key % 8) == Some(wire)
  {
  }

  lemma KeyInverts(number: nat, wire: Wire, tail: seq<byte>)
    requires number * 8 + 7 <= U64_MAX
    ensures FieldAt(Tag(number, wire) + tail) == BodyAt(Tag(number, wire) + tail, |Tag(number, wire)|, number, wire)
  {
    KeyParts(number, wire);
    ReadInvertsWrite(number * 8 + Code(wire), tail);
  }

  lemma Assoc(a: seq<byte>, b: seq<byte>, c: seq<byte>)
    ensures a + (b + c) == a + b + c
  {
  }

  /** The scanner's turn on a serialised field shows that field and moves to what follows. */
  lemma TurnInverts(f: Field, rest: seq<byte>)
    requires WellFormed(f)
    ensures FieldAt(Serialise(f) + rest) == Got(f, |Serialise(f)|)
  {
    var tag := Tag(f.number, f.wire);
    if f.wire.LengthDelimited? {
      DelimitedTurnInverts(f, tag, Varint(|f.body|), rest);
    } else {
      assert Serialise(f) == tag + f.body;
      Assoc(tag, f.body, rest);
      KeyInverts(f.number, f.wire, f.body + rest);
      PlainBodyInverts(f, tag, rest);
    }
  }

  lemma DelimitedTurnInverts(f: Field, tag: seq<byte>, len: seq<byte>, rest: seq<byte>)
    requires WellFormed(f) && f.wire.LengthDelimited? && tag == Tag(f.number, f.wire) && len == Varint(|f.body|)
    ensures FieldAt(Serialise(f) + rest) == Got(f, |Serialise(f)|)
  {
    Assoc(tag + len, f.body, rest);
    Assoc(tag, len, f.body + rest);
    KeyInverts(f.number, f.wire, len + (f.body + rest));
    DelimitedBodyInverts(f, tag, rest);
  }

  lemma BodyFits(b: seq<byte>)
    requires FieldAt(b).Got?
    ensures |FieldAt(b).field.body| <= |b|
  {
  }

  // ----- when a turn traps -----

  /** The key at the front has wire type 2 and its length does not fit a signed 64-bit integer. */
  predicate TrapsAt(b: seq<byte>) {
    var key := ReadVarint(b);
    && key.Some? && key.value.value % 8 == 2
    && var len := ReadVarint(b[key.value.used..]);
    len.Some? && len.value.value > I64_MAX
  }

  lemma TurnTrapsIff(b: seq<byte>)
    ensures FieldAt(b).Trap? <==> TrapsAt(b)
  {
  }

  lemma {:induction false} FewGroupsAreSmall(b: seq<byte>, g: nat)
    requires g <= 10 && ReadGroups(b, g).Some? && g + ReadGroups(b, g).value.used <= 9
    ensures ReadGroups(b, g).value.value < Pow128(ReadGroups(b, g).value.used)
    decreases |b|
  {
    if b[0] >= 128 {
      FewGroupsAreSmall(b[1..], g + 1);
    }
  }

  /** An unaddressable length takes ten bytes, after a key of at least one. */
  lemma TrapTakesEleven(b: seq<byte>)
    requires TrapsAt(b)
    ensures |b| >= 11
  {
    var tail := b[ReadVarint(b).value.used..];
    if ReadVarint(tail).value.used <= 9 {
      FewGroupsAreSmall(tail, 0);
      Pow128Grows(ReadVarint(tail).value.used, 9);
      Pow128Values();
    }
  }

  // ----- dropped bits -----

  /** Nine empty groups and a tenth of two: the number is 2^64, the reading zero. */
  lemma TenthGroupIsCut()
    ensures var b: seq<byte> := [0x80, 0x80, 0x80, 0x80, 0x80, 0x80, 0x80, 0x80, 0x80, 0x02];
            ReadVarint(b) == Some(Read(0, 10)) && Unbounded(b) == U64_MAX + 1
  {
    EmptyGroups(9);
    var b: seq<byte> := [0x80, 0x80, 0x80, 0x80, 0x80, 0x80, 0x80, 0x80, 0x80, 0x02];
    assert b == seq(9, _ => 0x80 as byte) + [0x02];
    Pow128Values();
  }

  lemma {:induction false} EmptyGroups(k: nat)
    requires k <= 9
    ensures var b: seq<byte> := seq(k, _ => 0x80 as byte) + [0x02];
            ReadGroups(b, 9 - k) == Some(Read(0, k + 1)) && Unbounded(b) == 2 * Pow128(k)
  {
    var b: seq<byte> := seq(k, _ => 0x80 as byte) + [0x02];
    if k > 0 {
      EmptyGroups(k - 1);
      assert b[1..] == seq(k - 1, _ => 0x80 as byte) + [0x02];
    } else {
      assert b == [0x02] && b[1..] == [];
    }
  }

  // ----- one turn of the scanner -----

  /** The field at offset `i`, read in place. */
  method TurnAt(bytes: seq<byte>, i: nat) returns (t: Turn)
    requires i <= |bytes|
    ensures t == FieldAt(bytes[i..])
  {
    var key := ReadVarintAt(bytes, i);
    if key.None? {
      return Bad(TruncatedKey);
    }
    var wire := WireOf(key.value.value % 8);
    if wire.None? {
      return Bad(UnsupportedWire);
    }
    t := BodyLoop(bytes, i, key.value.used, key.value.value / 8, wire.value);
  }

  lemma SliceFrom(bytes: seq<byte>, start: nat, x: nat, y: nat)
    requires start <= x <= y <= |bytes|
    ensures bytes[start..][x - start..y - start] == bytes[x..y] && bytes[start..][x - start..] == bytes[x..]
  {
  }

  method BodyLoop(bytes: seq<byte>, start: nat, i: nat, number: nat, wire: Wire) returns (t: Turn)
    requires start <= i <= |bytes|
    ensures t == BodyAt(bytes[start..], i - start, number, wire)
  {
    SliceFrom(bytes, start, i, i);
    match wire {
      case VarintWire =>
        var r := ReadVarintAt(bytes, i);
        if r.None? {
          return Bad(TruncatedVarint);
        }
        SliceFrom(bytes, start, i, r.value.used);
        return Got(Field(number, wire, bytes[i..r.value.used]), r.value.used - start);
      case LengthDelimited =>
        t := DelimitedLoop(bytes, start, i, number);
      case _ =>
        var width := if wire == Fixed32 then 4 else 8;
        if |bytes| - i < width {
          return Bad(TruncatedFixed);
        }
        SliceFrom(bytes, start, i, i + width);
        return Got(Field(number, wire, bytes[i..i + width]), i + width - start);
    }
  }

  method DelimitedLoop(bytes: seq<byte>, start: nat, i: nat, number: nat) returns (t: Turn)
    requires start <= i <= |bytes|
    ensures t == BodyAt(bytes[start..], i - start, number, LengthDelimited)
  {
    SliceFrom(bytes, start, i, i);
    var len := ReadVarintAt(bytes, i);
    if len.None? {
      return Bad(TruncatedLength);
    }
    if len.value.value > I64_MAX {
      return Trap;
    }
    var first := len.value.used;
    if |bytes| - first < len.value.value {
      return Bad(Overrun);
    }
    SliceFrom(bytes, start, first, first + len.value.value);
    return Got(Field(number, LengthDelimited, bytes[first..first + len.value.value]), first + len.value.value - start);
  }
}
