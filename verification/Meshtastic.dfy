/** Private-application frames over a Meshtastic radio (`MeshtasticFrame.swift`). */
module Meshtastic {
  import opened Bytes
  import opened Protobuf
  import opened Scanner

  const PRIVATE_APP_PORTNUM: u64 := 256
  const MAX_PAYLOAD_BYTES: nat := 221

  datatype FrameError = PayloadTooLarge(bytes: nat, limit: nat) | Malformed(reason: Reason)

  datatype Inbound = Inbound(portnum: u64, payload: seq<byte>, sender: u32)

  /** The outcome of a lookup or a decoding; `Crash` is the arithmetic trap of the scanner. */
  datatype Outcome<T> = Value(value: T) | Error(error: FrameError) | Crash

  function LowBytes(v: nat, k: nat): (b: seq<byte>)
    ensures |b| == k
  {
    if k == 0 then [] else [v % 256] + LowBytes(v / 256, k - 1)
  }

  /** Four bytes, least significant first. */
  function Fixed32Bytes(v: u32): (b: seq<byte>)
    ensures |b| == 4
  {
    LowBytes(v, 4)
  }

  function Fixed32Value(b: seq<byte>): u32
    requires |b| == 4
  {
    var b0: nat, b1: nat, b2: nat, b3: nat := b[0], b[1], b[2], b[3];
    b0 + 0x100 * b1 + 0x1_0000 * b2 + 0x100_0000 * b3
  }

  lemma Fixed32RoundTrip(v: u32)
    ensures Fixed32Value(Fixed32Bytes(v)) == v
  {
    var v1 := v / 256;
    var v2 := v1 / 256;
    var v3 := v2 / 256;
    assert LowBytes(v, 4) == [v % 256] + LowBytes(v1, 3);
    assert LowBytes(v1, 3) == [v1 % 256] + LowBytes(v2, 2);
    assert LowBytes(v2, 2) == [v2 % 256] + LowBytes(v3, 1);
    assert LowBytes(v3, 1) == [v3 % 256] + LowBytes(v3 / 256, 0);
    assert v3 < 256;
  }

  // ----- encoding -----

  function DataFields(payload: seq<byte>): seq<Field> {
    [Field(1, VarintWire, Varint(PRIVATE_APP_PORTNUM)), Field(2, LengthDelimited, payload)]
  }

  function PacketFields(payload: seq<byte>, packetId: u32, dest: u32, hopLimit: u64): seq<Field> {
    [Field(2, Fixed32, Fixed32Bytes(dest)),
     Field(4, LengthDelimited, SerialiseAll(DataFields(payload))),
     Field(6, Fixed32, Fixed32Bytes(packetId)),
     Field(9, VarintWire, Varint(hopLimit))]
  }

  function ToRadio(payload: seq<byte>, packetId: u32, dest: u32, hopLimit: u64): seq<byte> {
    SerialiseAll([Field(1, LengthDelimited, SerialiseAll(PacketFields(payload, packetId, dest, hopLimit)))])
  }

  lemma {:induction false} SerialiseAppend(fs: seq<Field>, f: Field)
    ensures SerialiseAll(fs + [f]) == SerialiseAll(fs) + Serialise(f)
    decreases |fs|
  {
    if fs == [] {
      assert ([] + [f])[1..] == [];
      assert SerialiseAll([f][1..]) == [];
    } else {
      SerialiseAppend(fs[1..], f);
      assert (fs + [f])[1..] == fs[1..] + [f] && (fs + [f])[0] == fs[0];
      Assoc(Serialise(fs[0]), SerialiseAll(fs[1..]), Serialise(f));
    }
  }

  /** Appends one field to a message buffer. */
  method AppendField(buffer: seq<byte>, ghost fs: seq<Field>, f: Field) returns (out: seq<byte>)
    requires buffer == SerialiseAll(fs) && f.number * 8 + 7 <= U64_MAX && |f.body| <= U64_MAX
    ensures out == SerialiseAll(fs + [f])
  {
    SerialiseAppend(fs, f);
    var tag := WriteVarint(f.number * 8 + Code(f.wire));
    out := buffer + tag;
    if f.wire.LengthDelimited? {
      var len := WriteVarint(|f.body|);
      out := out + len;
    }
    out := out + f.body;
  }

  method EncodeToRadio(payload: seq<byte>, packetId: u32, dest: u32, hopLimit: u64) returns (r: Outcome<seq<byte>>)
    ensures r == if |payload| <= MAX_PAYLOAD_BYTES then Value(ToRadio(payload, packetId, dest, hopLimit))
                 else Error(PayloadTooLarge(|payload|, MAX_PAYLOAD_BYTES))
  {
    if |payload| > MAX_PAYLOAD_BYTES {
      return Error(PayloadTooLarge(|payload|, MAX_PAYLOAD_BYTES));
    }
    SmallMessages(payload, packetId, dest, hopLimit);
    var data := EncodeData(payload);
    var packet := EncodePacket(payload, data, packetId, dest, hopLimit);
    var frame := AppendField([], [], Field(1, LengthDelimited, packet));
    assert [] + [Field(1, LengthDelimited, packet)] == [Field(1, LengthDelimited, packet)];
    return Value(frame);
  }

  method EncodeData(payload: seq<byte>) returns (data: seq<byte>)
    requires |payload| <= MAX_PAYLOAD_BYTES
    ensures data == SerialiseAll(DataFields(payload))
  {
    ghost var fs := DataFields(payload);
    ShortVarint(PRIVATE_APP_PORTNUM);
    var port := WriteVarint(PRIVATE_APP_PORTNUM);
    data := AppendField([], [], Field(1, VarintWire, port));
    assert [] + [fs[0]] == [fs[0]] && [fs[0]] + [fs[1]] == fs;
    data := AppendField(data, [fs[0]], Field(2, LengthDelimited, payload));
  }

  method EncodePacket(payload: seq<byte>, data: seq<byte>, packetId: u32, dest: u32, hopLimit: u64)
    returns (packet: seq<byte>)
    requires data == SerialiseAll(DataFields(payload)) && |data| <= 300
    ensures packet == SerialiseAll(PacketFields(payload, packetId, dest, hopLimit))
  {
    ghost var fs := PacketFields(payload, packetId, dest, hopLimit);
    ShortVarint(hopLimit);
    var hop := WriteVarint(hopLimit);
    assert [] + [fs[0]] == [fs[0]] && [fs[0]] + [fs[1]] == [fs[0], fs[1]];
    assert [fs[0], fs[1]] + [fs[2]] == [fs[0], fs[1], fs[2]] && [fs[0], fs[1], fs[2]] + [fs[3]] == fs;
    packet := AppendField([], [], Field(2, Fixed32, Fixed32Bytes(dest)));
    packet := AppendField(packet, [fs[0]], Field(4, LengthDelimited, data));
    packet := AppendField(packet, [fs[0], fs[1]], Field(6, Fixed32, Fixed32Bytes(packetId)));
    packet := AppendField(packet, [fs[0], fs[1], fs[2]], Field(9, VarintWire, hop));
  }

  // ----- sizes -----

  lemma {:induction false} VarintIsShort(v: nat, g: nat)
    requires g <= 9 && v < Room(g)
    ensures |Varint(v)| <= 10 - g
    decreases v
  {
    if v >= 128 {
      VarintIsShort(v / 128, g + 1);
    }
  }

  lemma ShortVarint(v: u64)
    ensures |Varint(v)| <= 10
  {
    RoomForU64();
    VarintIsShort(v, 0);
  }

  lemma FieldIsSmall(f: Field)
    requires f.number * 8 + 7 <= U64_MAX && |f.body| <= U64_MAX
    ensures |Serialise(f)| <= 20 + |f.body|
  {
    ShortVarint(f.number * 8 + Code(f.wire));
    ShortVarint(|f.body|);
  }

  lemma TwoFields(f: Field, g: Field)
    ensures SerialiseAll([f, g]) == Serialise(f) + Serialise(g)
  {
    SerialiseAppend([f], g);
    SerialiseAppend([], f);
    assert [] + [f] == [f] && [f] + [g] == [f, g];
  }

  lemma SmallMessages(payload: seq<byte>, packetId: u32, dest: u32, hopLimit: u64)
    requires |payload| <= MAX_PAYLOAD_BYTES
    ensures |SerialiseAll(DataFields(payload))| <= 300
    ensures |SerialiseAll(PacketFields(payload, packetId, dest, hopLimit))| <= 500
  {
    var data, fs := DataFields(payload), PacketFields(payload, packetId, dest, hopLimit);
    ShortVarint(PRIVATE_APP_PORTNUM);
    ShortVarint(hopLimit);
    FieldIsSmall(data[0]);
    FieldIsSmall(data[1]);
    TwoFields(data[0], data[1]);
    FieldIsSmall(fs[0]);
    FieldIsSmall(fs[1]);
    FieldIsSmall(fs[2]);
    FieldIsSmall(fs[3]);
    TwoFields(fs[0], fs[1]);
    SerialiseAppend([fs[0], fs[1]], fs[2]);
    SerialiseAppend([fs[0], fs[1], fs[2]], fs[3]);
    assert [fs[0], fs[1]] + [fs[2]] == [fs[0], fs[1], fs[2]] && [fs[0], fs[1], fs[2]] + [fs[3]] == fs;
  }

  // ----- decoding -----

  function Wanted(number: nat, wire: Wire): Field -> bool {
    (f: Field) => f.number == number && f.wire == wire
  }

  /** What a visitor that keeps the body it stops at has found. */
  function Kept(s: Scanned): Outcome<Option<seq<byte>>> {
    match s.end
    case Finished => Value(None)
    case Stopped => if s.visited == [] then Value(None) else Value(Some(s.visited[|s.visited| - 1].body))
    case Failed(reason) => Error(Malformed(reason))
    case Trapped => Crash
  }

  /** The body of the first field of this number and wire type; errors before it count, after it not. */
  function FirstField(number: nat, wire: Wire, b: seq<byte>): Outcome<Option<seq<byte>>> {
    Kept(Scan(b, Wanted(number, wire)))
  }

  function FirstVarint(number: nat, b: seq<byte>): Outcome<Option<u64>> {
    match FirstField(number, VarintWire, b)
    case Error(e) => Error(e)
    case Crash => Crash
    case Value(raw) =>
      if raw.None? then Value(None)
      else
        var r := ReadVarint(raw.value);
        RoomForU64();
        if r.None? then Error(Malformed(BadVarint)) else Value(Some(r.value.value))
  }

  function FirstFixed32(number: nat, b: seq<byte>): Outcome<Option<u32>> {
    match FirstField(number, Fixed32, b)
    case Error(e) => Error(e)
    case Crash => Crash
    case Value(raw) => if raw.None? || |raw.value| != 4 then Value(None) else Value(Some(Fixed32Value(raw.value)))
  }

  function DecodeData(data: seq<byte>, sender: u32): Outcome<Option<Inbound>> {
    match FirstVarint(1, data)
    case Error(e) => Error(e)
    case Crash => Crash
    case Value(portnum) =>
      if portnum != Some(PRIVATE_APP_PORTNUM) then Value(None)
      else
        match FirstField(2, LengthDelimited, data)
        case Error(e) => Error(e)
        case Crash => Crash
        case Value(payload) =>
          if payload.None? then Error(Malformed(NoPayload))
          else Value(Some(Inbound(PRIVATE_APP_PORTNUM, payload.value, sender)))
  }

  function DecodePacket(packet: seq<byte>): Outcome<Option<Inbound>> {
    match FirstField(4, LengthDelimited, packet)
    case Error(e) => Error(e)
    case Crash => Crash
    case Value(data) =>
      if data.None? then Value(None)
      else
        match FirstFixed32(1, packet)
        case Error(e) => Error(e)
        case Crash => Crash
        case Value(sender) => DecodeData(data.value, if sender.None? then 0 else sender.value)
  }

  function DecodeFromRadio(b: seq<byte>): Outcome<Option<Inbound>> {
    match FirstField(2, LengthDelimited, b)
    case Error(e) => Error(e)
    case Crash => Crash
    case Value(packet) => if packet.None? then Value(None) else DecodePacket(packet.value)
  }

  // ----- when decoding traps -----

  /** Looking for the first field of this number and wire type meets an unaddressable length before it. */
  ghost predicate TrapsSeeking(b: seq<byte>, number: nat, wire: Wire) { TrapsAhead(b, Wanted(number, wire)) }

  lemma FirstFieldTrapsIff(number: nat, wire: Wire, b: seq<byte>)
    ensures FirstField(number, wire, b) == Crash <==> TrapsSeeking(b, number, wire)
  {
    ScanTrapsIff(b, Wanted(number, wire));
  }

  /** The port of a data message is readable and ours. */
  predicate OurPort(data: seq<byte>) { FirstVarint(1, data) == Value(Some(PRIVATE_APP_PORTNUM)) }

  ghost predicate DataTraps(data: seq<byte>) {
    TrapsSeeking(data, 1, VarintWire) || (OurPort(data) && TrapsSeeking(data, 2, LengthDelimited))
  }

  ghost predicate PacketTraps(packet: seq<byte>) {
    || TrapsSeeking(packet, 4, LengthDelimited)
    || (match FirstField(4, LengthDelimited, packet)
        case Value(Some(data)) =>
          TrapsSeeking(packet, 1, Fixed32) || (FirstFixed32(1, packet).Value? && DataTraps(data))
        case _ => false)
  }

  ghost predicate FrameTraps(b: seq<byte>) {
    || TrapsSeeking(b, 2, LengthDelimited)
    || (match FirstField(2, LengthDelimited, b)
        case Value(Some(packet)) => PacketTraps(packet)
        case _ => false)
  }

  lemma DataTrapsIff(data: seq<byte>, sender: u32)
    ensures DecodeData(data, sender) == Crash <==> DataTraps(data)
  {
    FirstFieldTrapsIff(1, VarintWire, data);
    FirstFieldTrapsIff(2, LengthDelimited, data);
  }

  lemma PacketTrapsIff(packet: seq<byte>)
    ensures DecodePacket(packet) == Crash <==> PacketTraps(packet)
  {
    FirstFieldTrapsIff(4, LengthDelimited, packet);
    FirstFieldTrapsIff(1, Fixed32, packet);
    forall data, sender ensures DecodeData(data, sender) == Crash <==> DataTraps(data) {
      DataTrapsIff(data, sender);
    }
  }

  /** Decoding a radio frame traps exactly when one of its lookups - the packet in the frame, the data and the
      sender in the packet, the port and the payload in the data - walks into a length that does not fit a
      signed 64-bit integer. */
  lemma DecodeTrapsIff(b: seq<byte>)
    ensures DecodeFromRadio(b) == Crash <==> FrameTraps(b)
  {
    FirstFieldTrapsIff(2, LengthDelimited, b);
    forall packet ensures DecodePacket(packet) == Crash <==> PacketTraps(packet) {
      PacketTrapsIff(packet);
    }
  }

  /** Any frame that starts with a length-delimited field of such a length traps, whatever its number and
      whatever follows; the shortest takes eleven bytes. */
  lemma HugeLengthTraps(number: nat, len: u64, rest: seq<byte>)
    requires number * 8 + 7 <= U64_MAX && len > I64_MAX
    ensures DecodeFromRadio(Tag(number, LengthDelimited) + Varint(len) + rest) == Crash
  {
    var tag := Tag(number, LengthDelimited);
    var b := tag + Varint(len) + rest;
    Assoc(tag, Varint(len), rest);
    KeyParts(number, LengthDelimited);
    ReadInvertsWrite(number * 8 + 2, Varint(len) + rest);
    assert b[|tag|..] == Varint(len) + rest;
    ReadInvertsWrite(len, rest);
    assert TrapsAt(b);
    FieldsProgress();
    assert b[0..] == b && Reaches(FieldAt, b, Wanted(2, LengthDelimited), 0);
    assert TrapsSeeking(b, 2, LengthDelimited);
    DecodeTrapsIff(b);
  }

  /** A length of 2^63 announced for field 1, in eleven bytes. */
  lemma ElevenBytesTrap()
    ensures DecodeFromRadio([10] + Varint(0x8000_0000_0000_0000)) == Crash
  {
    assert 1 * 8 + Code(LengthDelimited) == 10 && Varint(10) == [10];
    assert Tag(1, LengthDelimited) == [10];
    var b: seq<byte> := [10] + Varint(0x8000_0000_0000_0000);
    assert b + [] == b;
    HugeLengthTraps(1, 0x8000_0000_0000_0000, []);
  }

  lemma ShortNeverTraps(b: seq<byte>, number: nat, wire: Wire)
    requires |b| <= 10
    ensures !TrapsSeeking(b, number, wire)
    ensures FirstField(number, wire, b).Value? && FirstField(number, wire, b).value.Some? ==>
              |FirstField(number, wire, b).value.value| <= 10
  {
    FieldsProgress();
    forall i | 0 <= i < |b| ensures !TrapsAt(b[i..]) {
      if TrapsAt(b[i..]) {
        TrapTakesEleven(b[i..]);
      }
    }
    BodiesAreShort(b, Wanted(number, wire));
  }

  /** Eleven bytes are needed: no shorter frame traps. */
  lemma ShortFramesNeverTrap(b: seq<byte>)
    requires |b| <= 10
    ensures DecodeFromRadio(b) != Crash
  {
    DecodeTrapsIff(b);
    ShortNeverTraps(b, 2, LengthDelimited);
    match FirstField(2, LengthDelimited, b) {
      case Value(Some(packet)) =>
        ShortNeverTraps(packet, 4, LengthDelimited);
        ShortNeverTraps(packet, 1, Fixed32);
        match FirstField(4, LengthDelimited, packet) {
          case Value(Some(data)) =>
            ShortNeverTraps(data, 1, VarintWire);
            ShortNeverTraps(data, 2, LengthDelimited);
          case _ =>
        }
      case _ =>
    }
  }

  // ----- what decoding finds -----

  predicate AllWellFormed(fs: seq<Field>) { forall i :: 0 <= i < |fs| ==> WellFormed(fs[i]) }

  /** The body of the first field of this number and wire type in a list of fields. */
  function FirstBody(fs: seq<Field>, number: nat, wire: Wire): Option<seq<byte>> {
    if fs == [] then None
    else if fs[0].number == number && fs[0].wire == wire then Some(fs[0].body)
    else FirstBody(fs[1..], number, wire)
  }

  lemma {:induction false} LastVisited(fs: seq<Field>, number: nat, wire: Wire)
    ensures Kept(UpToStop(fs, Wanted(number, wire))) == Value(FirstBody(fs, number, wire))
    ensures UpToStop(fs, Wanted(number, wire)).end == Stopped ==> UpToStop(fs, Wanted(number, wire)).visited != []
    decreases |fs|
  {
    if fs != [] {
      LastVisited(fs[1..], number, wire);
    }
  }

  /** Looking up a field in a serialised message finds the first one in the list. */
  lemma FirstFieldIsFirst(fs: seq<Field>, number: nat, wire: Wire)
    requires AllWellFormed(fs)
    ensures FirstField(number, wire, SerialiseAll(fs)) == Value(FirstBody(fs, number, wire))
  {
    ScanInvertsSerialise(fs, Wanted(number, wire));
    LastVisited(fs, number, wire);
  }

  /** The fields whose numbers are among `numbers`, in order. */
  function Restricted(fs: seq<Field>, numbers: set<nat>): seq<Field> {
    if fs == [] then []
    else (if fs[0].number in numbers then [fs[0]] else []) + Restricted(fs[1..], numbers)
  }

  /** Fields of other numbers, wherever they stand, do not change a lookup. */
  lemma {:induction false} OthersDoNotMatter(fs: seq<Field>, numbers: set<nat>, number: nat, wire: Wire)
    requires number in numbers
    ensures FirstBody(fs, number, wire) == FirstBody(Restricted(fs, numbers), number, wire)
    decreases |fs|
  {
    if fs != [] {
      var rest := Restricted(fs[1..], numbers);
      OthersDoNotMatter(fs[1..], numbers, number, wire);
      if fs[0].number in numbers {
        assert Restricted(fs, numbers) == [fs[0]] + rest;
        assert ([fs[0]] + rest)[1..] == rest;
      } else {
        assert Restricted(fs, numbers) == rest;
      }
    }
  }

  lemma DataDecodes(payload: seq<byte>, sender: u32)
    requires |payload| <= MAX_PAYLOAD_BYTES
    ensures DecodeData(SerialiseAll(DataFields(payload)), sender)
         == Value(Some(Inbound(PRIVATE_APP_PORTNUM, payload, sender)))
  {
    var fs := DataFields(payload);
    ReadInvertsWrite(PRIVATE_APP_PORTNUM, []);
    assert Varint(PRIVATE_APP_PORTNUM) + [] == Varint(PRIVATE_APP_PORTNUM);
    assert AllWellFormed(fs);
    FirstFieldIsFirst(fs, 1, VarintWire);
    FirstFieldIsFirst(fs, 2, LengthDelimited);
    assert fs[1..][0] == fs[1];
    assert FirstBody(fs, 1, VarintWire) == Some(Varint(PRIVATE_APP_PORTNUM));
    assert FirstBody(fs, 2, LengthDelimited) == Some(payload);
  }

  /** The sender a mesh packet names: its first fixed32 field 1, or zero. */
  function SenderOf(fs: seq<Field>): u32 {
    var raw := FirstBody(fs, 1, Fixed32);
    if raw.None? || |raw.value| != 4 then 0 else Fixed32Value(raw.value)
  }

  lemma PacketDecodes(inner: seq<Field>, payload: seq<byte>)
    requires AllWellFormed(inner) && |payload| <= MAX_PAYLOAD_BYTES
    requires FirstBody(inner, 4, LengthDelimited) == Some(SerialiseAll(DataFields(payload)))
    ensures DecodePacket(SerialiseAll(inner)) == Value(Some(Inbound(PRIVATE_APP_PORTNUM, payload, SenderOf(inner))))
  {
    FirstFieldIsFirst(inner, 4, LengthDelimited);
    FirstFieldIsFirst(inner, 1, Fixed32);
    DataDecodes(payload, SenderOf(inner));
  }

  const PACKET_NUMBERS: set<nat> := {2, 4, 6, 9}

  /** Any payload that encodes survives the radio: take the mesh packet of its frame, let the radio mix
      in any well-formed fields of other numbers, and wrap it as field 2 of a FromRadio message among any
      well-formed fields of other numbers; decoding returns the same payload on port 256, with the sender
      the radio named. */
  lemma RadioRoundTrip(payload: seq<byte>, packetId: u32, dest: u32, hopLimit: u64,
                       inner: seq<Field>, outer: seq<Field>)
    requires |payload| <= MAX_PAYLOAD_BYTES
    requires AllWellFormed(inner)
    requires Restricted(inner, PACKET_NUMBERS) == PacketFields(payload, packetId, dest, hopLimit)
    requires AllWellFormed(outer) && Restricted(outer, {2}) == [Field(2, LengthDelimited, SerialiseAll(inner))]
    ensures DecodeFromRadio(SerialiseAll(outer)) == Value(Some(Inbound(PRIVATE_APP_PORTNUM, payload, SenderOf(inner))))
  {
    OthersDoNotMatter(outer, {2}, 2, LengthDelimited);
    FirstFieldIsFirst(outer, 2, LengthDelimited);
    OthersDoNotMatter(inner, PACKET_NUMBERS, 4, LengthDelimited);
    PacketHoldsData(payload, packetId, dest, hopLimit);
    PacketDecodes(inner, payload);
  }

  lemma PacketHoldsData(payload: seq<byte>, packetId: u32, dest: u32, hopLimit: u64)
    ensures FirstBody(PacketFields(payload, packetId, dest, hopLimit), 4, LengthDelimited)
         == Some(SerialiseAll(DataFields(payload)))
  {
    var fs := PacketFields(payload, packetId, dest, hopLimit);
    assert fs[1..][0] == fs[1];
  }

  lemma PacketIsWellFormed(payload: seq<byte>, packetId: u32, dest: u32, hopLimit: u64)
    requires |payload| <= MAX_PAYLOAD_BYTES
    ensures AllWellFormed(PacketFields(payload, packetId, dest, hopLimit))
  {
    SmallMessages(payload, packetId, dest, hopLimit);
    ReadInvertsWrite(hopLimit, []);
    assert Varint(hopLimit) + [] == Varint(hopLimit);
  }

  /** With nothing mixed in: the frame written to one radio, its mesh packet handed over by another. */
  lemma PlainRoundTrip(payload: seq<byte>, packetId: u32, dest: u32, hopLimit: u64)
    requires |payload| <= MAX_PAYLOAD_BYTES
    ensures var packet := SerialiseAll(PacketFields(payload, packetId, dest, hopLimit));
            && ToRadio(payload, packetId, dest, hopLimit) == SerialiseAll([Field(1, LengthDelimited, packet)])
            && FirstField(1, LengthDelimited, ToRadio(payload, packetId, dest, hopLimit)) == Value(Some(packet))
            && DecodeFromRadio(SerialiseAll([Field(2, LengthDelimited, packet)]))
               == Value(Some(Inbound(PRIVATE_APP_PORTNUM, payload, 0)))
  {
    var fs := PacketFields(payload, packetId, dest, hopLimit);
    var packet := SerialiseAll(fs);
    SmallMessages(payload, packetId, dest, hopLimit);
    PacketIsWellFormed(payload, packetId, dest, hopLimit);
    FirstFieldIsFirst([Field(1, LengthDelimited, packet)], 1, LengthDelimited);
    var outer := [Field(2, LengthDelimited, packet)];
    FirstFieldIsFirst(outer, 2, LengthDelimited);
    PacketHoldsData(payload, packetId, dest, hopLimit);
    PacketDecodes(fs, payload);
    NoSender(payload, packetId, dest, hopLimit);
  }

  lemma NoSender(payload: seq<byte>, packetId: u32, dest: u32, hopLimit: u64)
    ensures SenderOf(PacketFields(payload, packetId, dest, hopLimit)) == 0
  {
    var fs := PacketFields(payload, packetId, dest, hopLimit);
    Skip(fs[0], [fs[1], fs[2], fs[3]], 1, Fixed32);
    Skip(fs[1], [fs[2], fs[3]], 1, Fixed32);
    Skip(fs[2], [fs[3]], 1, Fixed32);
    Skip(fs[3], [], 1, Fixed32);
    assert fs == [fs[0]] + [fs[1], fs[2], fs[3]];
    assert [fs[1], fs[2], fs[3]] == [fs[1]] + [fs[2], fs[3]] && [fs[2], fs[3]] == [fs[2]] + [fs[3]];
    assert [fs[3]] + [] == [fs[3]];
  }

  lemma Skip(f: Field, fs: seq<Field>, number: nat, wire: Wire)
    requires f.number != number || f.wire != wire
    ensures FirstBody([f] + fs, number, wire) == FirstBody(fs, number, wire)
  {
    assert ([f] + fs)[1..] == fs;
  }

  lemma {:induction false} SkipTo(fs: seq<Field>, k: nat, number: nat, wire: Wire)
    requires k <= |fs| && forall i :: 0 <= i < k ==> fs[i].number != number
    ensures FirstBody(fs, number, wire) == FirstBody(fs[k..], number, wire)
    decreases k
  {
    if k == 0 {
      assert fs[0..] == fs;
    } else {
      SkipTo(fs[1..], k - 1, number, wire);
      assert fs[1..][k - 1..] == fs[k..];
    }
  }

  /** The other fields of the mesh packet read back too: whom it is for, its id and its hop limit. */
  lemma HeaderReadsBack(payload: seq<byte>, packetId: u32, dest: u32, hopLimit: u64)
    requires |payload| <= MAX_PAYLOAD_BYTES
    ensures var packet := SerialiseAll(PacketFields(payload, packetId, dest, hopLimit));
            && FirstFixed32(2, packet) == Value(Some(dest))
            && FirstFixed32(6, packet) == Value(Some(packetId))
            && FirstVarint(9, packet) == Value(Some(hopLimit))
  {
    var fs := PacketFields(payload, packetId, dest, hopLimit);
    PacketIsWellFormed(payload, packetId, dest, hopLimit);
    FirstFieldIsFirst(fs, 2, Fixed32);
    FirstFieldIsFirst(fs, 6, Fixed32);
    FirstFieldIsFirst(fs, 9, VarintWire);
    SkipTo(fs, 2, 6, Fixed32);
    SkipTo(fs, 3, 9, VarintWire);
    assert fs[2..][0] == fs[2] && fs[3..][0] == fs[3];
    Fixed32RoundTrip(dest);
    Fixed32RoundTrip(packetId);
    ReadInvertsWrite(hopLimit, []);
    assert Varint(hopLimit) + [] == Varint(hopLimit);
  }

  /** The message inside: in field 4, the port 256 as its field 1 and the payload as its field 2. */
  lemma DataReadsBack(payload: seq<byte>, packetId: u32, dest: u32, hopLimit: u64)
    requires |payload| <= MAX_PAYLOAD_BYTES
    ensures var packet, data := SerialiseAll(PacketFields(payload, packetId, dest, hopLimit)),
                                SerialiseAll(DataFields(payload));
            && FirstField(4, LengthDelimited, packet) == Value(Some(data))
            && FirstVarint(1, data) == Value(Some(256))
            && FirstField(2, LengthDelimited, data) == Value(Some(payload))
  {
    PacketIsWellFormed(payload, packetId, dest, hopLimit);
    PacketHoldsData(payload, packetId, dest, hopLimit);
    FirstFieldIsFirst(PacketFields(payload, packetId, dest, hopLimit), 4, LengthDelimited);
    var fs := DataFields(payload);
    ReadInvertsWrite(256, []);
    assert Varint(256) + [] == Varint(256);
    assert AllWellFormed(fs);
    FirstFieldIsFirst(fs, 1, VarintWire);
    FirstFieldIsFirst(fs, 2, LengthDelimited);
    assert fs[1..][0] == fs[1];
  }

  /** The port a message names in its first varint field 1. */
  function PortOf(fs: seq<Field>): Option<u64>
    requires AllWellFormed(fs)
  {
    var raw := FirstBody(fs, 1, VarintWire);
    FirstBodyIsWellFormed(fs, 1, VarintWire);
    RoomForU64();
    if raw.None? then None else Some(ReadVarint(raw.value).value.value)
  }

  lemma {:induction false} FirstBodyIsWellFormed(fs: seq<Field>, number: nat, wire: Wire)
    requires AllWellFormed(fs)
    ensures FirstBody(fs, number, wire).Some? ==> WellFormed(Field(number, wire, FirstBody(fs, number, wire).value))
    decreases |fs|
  {
    if fs != [] && !(fs[0].number == number && fs[0].wire == wire) {
      FirstBodyIsWellFormed(fs[1..], number, wire);
    }
  }

  /** What a message inside a mesh packet decodes to, whatever its fields: nothing unless it is for port 256, the
      first payload field if there is one, and an error otherwise. */
  lemma DataDecodesExactly(fs: seq<Field>, sender: u32)
    requires AllWellFormed(fs)
    ensures DecodeData(SerialiseAll(fs), sender) ==
            if PortOf(fs) != Some(256) then Value(None)
            else match FirstBody(fs, 2, LengthDelimited)
                 case None => Error(Malformed(NoPayload))
                 case Some(payload) => Value(Some(Inbound(256, payload, sender)))
  {
    FirstFieldIsFirst(fs, 1, VarintWire);
    FirstFieldIsFirst(fs, 2, LengthDelimited);
    FirstBodyIsWellFormed(fs, 1, VarintWire);
  }

  /** A frame without a mesh packet, or a packet without a readable message, is not for us and no error. */
  lemma ForeignFramesAreIgnored(outer: seq<Field>, inner: seq<Field>)
    requires AllWellFormed(outer) && AllWellFormed(inner)
    ensures FirstBody(outer, 2, LengthDelimited) == None ==> DecodeFromRadio(SerialiseAll(outer)) == Value(None)
    ensures FirstBody(outer, 2, LengthDelimited) == Some(SerialiseAll(inner)) ==>
              FirstBody(inner, 4, LengthDelimited) == None ==> DecodeFromRadio(SerialiseAll(outer)) == Value(None)
  {
    FirstFieldIsFirst(outer, 2, LengthDelimited);
    FirstFieldIsFirst(inner, 4, LengthDelimited);
  }

  /** Every other frame decodes to what its innermost message says, from the sender the packet names. */
  lemma FrameDecodesExactly(outer: seq<Field>, inner: seq<Field>, data: seq<Field>)
    requires AllWellFormed(outer) && AllWellFormed(inner) && AllWellFormed(data)
    requires FirstBody(outer, 2, LengthDelimited) == Some(SerialiseAll(inner))
    requires FirstBody(inner, 4, LengthDelimited) == Some(SerialiseAll(data))
    ensures DecodeFromRadio(SerialiseAll(outer)) ==
            if PortOf(data) != Some(256) then Value(None)
            else match FirstBody(data, 2, LengthDelimited)
                 case None => Error(Malformed(NoPayload))
                 case Some(payload) => Value(Some(Inbound(256, payload, SenderOf(inner))))
  {
    FirstFieldIsFirst(outer, 2, LengthDelimited);
    FirstFieldIsFirst(inner, 4, LengthDelimited);
    FirstFieldIsFirst(inner, 1, Fixed32);
    DataDecodesExactly(data, SenderOf(inner));
    assert DecodePacket(SerialiseAll(inner)) == DecodeData(SerialiseAll(data), SenderOf(inner));
  }

  /** Fixed-width numbers are least significant byte first. */
  lemma Fixed32IsLittleEndian()
    ensures Fixed32Bytes(0x0102_0304) == [4, 3, 2, 1]
  {
    assert LowBytes(0x0102_0304, 4) == [4] + LowBytes(0x01_0203, 3);
    assert LowBytes(0x01_0203, 3) == [3] + LowBytes(0x0102, 2);
    assert LowBytes(0x0102, 2) == [2] + LowBytes(1, 1);
    assert LowBytes(1, 1) == [1] + LowBytes(0, 0);
  }
}
