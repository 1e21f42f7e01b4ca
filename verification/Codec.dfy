/** Byte-level packet codec with block padding (`codec.rs`). */
module Codec {
  import opened Bytes
  import opened Packet

  const MAX_PAYLOAD_LEN: nat := U16_MAX

  datatype CodecError =
    | PayloadTooLarge(len: nat)
    | Truncated(needed: nat, got: nat)
    | UnsupportedVersion(found: byte)
    | UnknownMessageType(foundType: byte)
    | UnknownFlagBits(foundFlags: byte)

  // ----- specification: the structured prefix and its padding -----

  function Opt(o: Option<seq<byte>>): seq<byte> {
    match o case None => [] case Some(s) => s
  }

  function Header(p: Packet): (h: seq<byte>)
    requires |p.payload| <= MAX_PAYLOAD_LEN
    ensures |h| == HEADER_LEN
  {
    [p.version, TypeByte(p.msgType), p.ttl] + ToBE(p.timestampMs, 8)
    + [FlagsToWire(p.flags, p.recipientId.Some?, p.signature.Some?)] + ToBE(|p.payload|, 2)
  }

  /** The unpadded frame. */
  function Structured(p: Packet): (s: seq<byte>)
    requires |p.payload| <= MAX_PAYLOAD_LEN
    ensures |s| == UnpaddedLen(p)
  {
    Header(p) + p.senderId + Opt(p.recipientId) + p.payload + Opt(p.signature)
  }

  function UnpaddedLen(p: Packet): nat {
    HEADER_LEN + PEER_ID_LEN + (if p.recipientId.Some? then PEER_ID_LEN else 0)
    + |p.payload| + (if p.signature.Some? then SIGNATURE_LEN else 0)
  }

  predicate IsBlockSize(n: nat) {
    n == 256 || n == 512 || n == 1024 || n == 2048
  }

  function OptimalBlockSize(n: nat): (r: Option<nat>)
    ensures r.Some? ==> n <= r.value && IsBlockSize(r.value)
    ensures r.Some? ==> forall b | IsBlockSize(b) && n <= b :: r.value <= b
    ensures r.None? <==> n > 2048
  {
    if n <= 256 then Some(256)
    else if n <= 512 then Some(512)
    else if n <= 1024 then Some(1024)
    else if n <= 2048 then Some(2048)
    else None
  }

  /** How many pad bytes a frame of `n` bytes receives. */
  function PadLen(n: nat): (k: nat)
    ensures k <= 255
  {
    match OptimalBlockSize(n)
    case None => 0
    case Some(target) => if target - n > 255 then 0 else target - n
  }

  function Encoded(p: Packet): Result<seq<byte>, CodecError> {
    if |p.payload| > MAX_PAYLOAD_LEN then Err(PayloadTooLarge(|p.payload|))
    else
      var s := Structured(p);
      Ok(s + seq(PadLen(|s|), i => PadLen(|s|)))
  }

  // ----- specification: parsing -----

  /** The exact length the header of `b` announces. */
  function Announced(b: seq<byte>): nat
    requires |b| >= HEADER_LEN
  {
    HEADER_LEN + PEER_ID_LEN + (if Bit(b[11], 0x01) then PEER_ID_LEN else 0)
    + FromBE(b[12..14]) + (if Bit(b[11], 0x02) then SIGNATURE_LEN else 0)
  }

  function Decoded(b: seq<byte>): Result<Packet, CodecError> {
    if |b| < HEADER_LEN + PEER_ID_LEN then Err(Truncated(HEADER_LEN + PEER_ID_LEN, |b|))
    else if b[0] != VERSION then Err(UnsupportedVersion(b[0]))
    else if TypeOf(b[1]).None? then Err(UnknownMessageType(b[1]))
    else if HasUnknownBits(b[11]) then Err(UnknownFlagBits(b[11]))
    else if |b| < Announced(b) then Err(Truncated(Announced(b), |b|))
    else Ok(Fields(b))
  }

  function Fields(b: seq<byte>): Packet
    requires |b| >= HEADER_LEN + PEER_ID_LEN && TypeOf(b[1]).Some? && |b| >= Announced(b)
  {
    var off := HEADER_LEN + PEER_ID_LEN;
    var off' := if Bit(b[11], 0x01) then off + PEER_ID_LEN else off;
    var end := off' + FromBE(b[12..14]);
    Pow256Values();
    Packet(b[0], TypeOf(b[1]).value, b[2], FromBE(b[3..11]), FlagsFromWire(b[11]),
           b[HEADER_LEN..off],
           if Bit(b[11], 0x01) then Some(b[off..off']) else None,
           b[off'..end],
           if Bit(b[11], 0x02) then Some(b[end..end + SIGNATURE_LEN]) else None)
  }

  // ----- the two directions of the round trip -----

  lemma HeaderBytes(p: Packet, rest: seq<byte>)
    requires |p.payload| <= MAX_PAYLOAD_LEN
    ensures var b := Header(p) + rest;
            && b[0] == p.version && b[1] == TypeByte(p.msgType) && b[2] == p.ttl
            && b[3..11] == ToBE(p.timestampMs, 8)
            && b[11] == FlagsToWire(p.flags, p.recipientId.Some?, p.signature.Some?)
            && b[12..14] == ToBE(|p.payload|, 2)
  {
  }

  /** Decoding a version-1 frame followed by anything at all gives back the packet: the padding is
      never trusted. */
  lemma DecodeEncode(p: Packet, tail: seq<byte>)
    requires p.version == VERSION && |p.payload| <= MAX_PAYLOAD_LEN
    ensures Decoded(Structured(p) + tail) == Ok(p)
  {
    var b := Structured(p) + tail;
    HeaderDecodes(p, tail);
    BodyFields(p, tail);
    assert Fields(b).payload == p.payload && Fields(b).senderId == p.senderId;
    assert Fields(b).recipientId == p.recipientId;
    assert Fields(b).signature == p.signature;
  }

  lemma HeaderDecodes(p: Packet, tail: seq<byte>)
    requires |p.payload| <= MAX_PAYLOAD_LEN
    ensures var b := Structured(p) + tail;
            && b[0] == p.version && TypeOf(b[1]) == Some(p.msgType) && b[2] == p.ttl
            && FromBE(b[3..11]) == p.timestampMs
            && FlagsFromWire(b[11]) == p.flags && !HasUnknownBits(b[11])
            && Bit(b[11], 0x01) == p.recipientId.Some? && Bit(b[11], 0x02) == p.signature.Some?
            && FromBE(b[12..14]) == |p.payload|
  {
    var rest := p.senderId + Opt(p.recipientId) + p.payload + Opt(p.signature) + tail;
    assert Structured(p) + tail == Header(p) + rest;
    HeaderBytes(p, rest);
    FlagsRoundTrip(p.flags, p.recipientId.Some?, p.signature.Some?);
    Pow256Values();
    FromToBE(p.timestampMs, 8);
    FromToBE(|p.payload|, 2);
    TypeRoundTrip(p.msgType);
  }

  lemma TypeRoundTrip(t: MessageType)
    ensures TypeOf(TypeByte(t)) == Some(t)
  {
  }

  lemma BodyFields(p: Packet, tail: seq<byte>)
    requires |p.payload| <= MAX_PAYLOAD_LEN
    ensures var b := Structured(p) + tail;
            var off := HEADER_LEN + PEER_ID_LEN;
            var off' := off + |Opt(p.recipientId)|;
            var end := off' + |p.payload|;
            && b[HEADER_LEN..off] == p.senderId
            && b[off..off'] == Opt(p.recipientId)
            && b[off'..end] == p.payload
            && b[end..end + |Opt(p.signature)|] == Opt(p.signature)
  {
  }

  lemma FrameDecodes(p: Packet)
    requires p.version == VERSION && |p.payload| <= MAX_PAYLOAD_LEN
    ensures Encoded(p).Ok? && Decoded(Encoded(p).value) == Ok(p)
  {
    var s := Structured(p);
    DecodeEncode(p, seq(PadLen(|s|), i => PadLen(|s|)));
  }

  /** The version is the only field the encoder writes that the decoder may refuse. */
  lemma FrameDecodesIff(p: Packet)
    requires |p.payload| <= MAX_PAYLOAD_LEN
    ensures Encoded(p).Ok?
    ensures Decoded(Encoded(p).value) == (if p.version == VERSION then Ok(p) else Err(UnsupportedVersion(p.version)))
  {
    if p.version == VERSION {
      FrameDecodes(p);
    } else {
      var s := Structured(p);
      HeaderDecodes(p, seq(PadLen(|s|), i => PadLen(|s|)));
    }
  }

  /** Every frame that decodes starts with the structured encoding of what it decoded to, so a
      packet has exactly one structured form. */
  lemma EncodeDecode(b: seq<byte>)
    requires Decoded(b).Ok?
    ensures var p := Decoded(b).value;
            p.version == VERSION && |p.payload| <= MAX_PAYLOAD_LEN && Structured(p) <= b
  {
    var p := Decoded(b).value;
    Pow256Values();
    FlagsCanonical(b[11]);
    ToFromBE(b[3..11]);
    ToFromBE(b[12..14]);
    assert |p.payload| == FromBE(b[12..14]);
    assert Header(p) == b[..HEADER_LEN] by {
      assert b[..HEADER_LEN] == [b[0], b[1], b[2]] + b[3..11] + [b[11]] + b[12..14];
    }
    var off := HEADER_LEN + PEER_ID_LEN;
    var off' := off + |Opt(p.recipientId)|;
    var end := off' + |p.payload|;
    JoinSlices(b, HEADER_LEN, off, off', end, Announced(b));
    assert Structured(p) == b[..Announced(b)];
  }

  lemma JoinSlices(b: seq<byte>, i: nat, j: nat, k: nat, l: nat, m: nat)
    requires i <= j <= k <= l <= m <= |b|
    ensures b[..i] + b[i..j] + b[j..k] + b[k..l] + b[l..m] == b[..m]
  {
  }

  /** The header of a frame byte by byte: version, type, TTL, time, flags and payload length. */
  lemma HeaderLayout(p: Packet)
    requires |p.payload| <= MAX_PAYLOAD_LEN
    ensures var b := Encoded(p).value;
            && |b| >= 14
            && b[0] == p.version && b[1] == TypeByte(p.msgType) && b[2] == p.ttl
            && b[3..11] == ToBE(p.timestampMs, 8) && b[12..14] == ToBE(|p.payload|, 2)
            && b[11] == (if p.recipientId.Some? then 1 else 0) + (if p.signature.Some? then 2 else 0)
                        + (if p.flags.isCompressed then 4 else 0) + (if p.flags.hasRoute then 8 else 0)
                        + (if p.flags.isRsr then 16 else 0)
  {
    var s := Structured(p);
    var pad := seq(PadLen(|s|), i => PadLen(|s|));
    Regroup(Header(p), p.senderId, Opt(p.recipientId), p.payload, Opt(p.signature), pad);
    HeaderBytes(p, p.senderId + Opt(p.recipientId) + p.payload + Opt(p.signature) + pad);
  }

  lemma Regroup(h: seq<byte>, a: seq<byte>, b: seq<byte>, c: seq<byte>, d: seq<byte>, pad: seq<byte>)
    ensures h + a + b + c + d + pad == h + (a + b + c + d + pad)
  {
  }

  /** What follows the 14-byte header: sender, recipient if any, payload, signature if any. */
  lemma BodyLayout(p: Packet)
    requires |p.payload| <= MAX_PAYLOAD_LEN
    ensures var b := Encoded(p).value;
            var r := if p.recipientId.Some? then 8 else 0;
            && |b| >= 22 + r + |p.payload| + (if p.signature.Some? then 64 else 0)
            && b[14..22] == p.senderId
            && (p.recipientId.Some? ==> b[22..30] == p.recipientId.value)
            && b[22 + r..22 + r + |p.payload|] == p.payload
            && (p.signature.Some? ==> b[22 + r + |p.payload|..22 + r + |p.payload| + 64] == p.signature.value)
  {
    var s := Structured(p);
    var pad := seq(PadLen(|s|), i => PadLen(|s|));
    BodyFields(p, pad);
  }

  /** Padding is present exactly when the gap to the block is 1..255, it reaches the block, and
      every pad byte is the pad length. */
  lemma PaddingIsExact(p: Packet)
    requires |p.payload| <= MAX_PAYLOAD_LEN
    ensures var n, out := UnpaddedLen(p), Encoded(p).value;
            && out[..n] == Structured(p)
            && (|out| > n <==> OptimalBlockSize(n).Some? && 1 <= OptimalBlockSize(n).value - n <= 255)
            && (|out| > n ==> OptimalBlockSize(n) == Some(|out|))
            && forall i :: n <= i < |out| ==> out[i] == |out| - n
  {
  }

  /** What a relay re-emits: the same packet with another TTL. The frame keeps its length and
      differs from the original encoding in byte 2 only. */
  lemma RelayTouchesOneByte(p: Packet, ttl: byte)
    requires |p.payload| <= MAX_PAYLOAD_LEN
    ensures var q := p.(ttl := ttl);
            Encoded(q).Ok? && Encoded(q).value == Encoded(p).value[2 := ttl]
  {
    var s := Structured(p);
    var pad := seq(PadLen(|s|), i => PadLen(|s|));
    HeaderWithTtl(p, ttl);
    SetThrough(Header(p), p.senderId, Opt(p.recipientId), p.payload, Opt(p.signature), pad, ttl);
  }

  lemma SetThrough(h: seq<byte>, a: seq<byte>, b: seq<byte>, c: seq<byte>, d: seq<byte>, pad: seq<byte>, v: byte)
    requires |h| > 2
    ensures h[2 := v] + a + b + c + d + pad == (h + a + b + c + d + pad)[2 := v]
  {
  }

  lemma HeaderWithTtl(p: Packet, ttl: byte)
    requires |p.payload| <= MAX_PAYLOAD_LEN
    ensures Header(p.(ttl := ttl)) == Header(p)[2 := ttl]
  {
    var v, t := p.version, TypeByte(p.msgType);
    var time, flags := ToBE(p.timestampMs, 8), [FlagsToWire(p.flags, p.recipientId.Some?, p.signature.Some?)];
    var len := ToBE(|p.payload|, 2);
    SetThird(v, t, p.ttl, time, flags, len, ttl);
  }

  lemma SetThird(v: byte, t: byte, was: byte, a: seq<byte>, b: seq<byte>, c: seq<byte>, now: byte)
    ensures ([v, t, was] + a + b + c)[2 := now] == [v, t, now] + a + b + c
  {
  }

  // ----- the buffer-growing and offset-advancing forms -----

  method ApplyPadding(buf: seq<byte>) returns (out: seq<byte>)
    ensures out == buf + seq(PadLen(|buf|), i => PadLen(|buf|))
  {
    out := buf;
    var block := OptimalBlockSize(|buf|);
    if block.None? {
      return;
    }
    var padNeeded := block.value - |buf|;
    if padNeeded == 0 || padNeeded > 255 {
      return;
    }
    var padByte: byte := padNeeded;
    while |out| < block.value
      invariant |buf| <= |out| <= block.value
      invariant out == buf + seq(|out| - |buf|, i => padByte)
    {
      out := out + [padByte];
    }
  }

  method Encode(p: Packet) returns (r: Result<seq<byte>, CodecError>)
    ensures r == Encoded(p)
  {
    if |p.payload| > MAX_PAYLOAD_LEN {
      return Err(PayloadTooLarge(|p.payload|));
    }
    var buf := WriteHeader(p);
    buf := buf + p.senderId;
    if p.recipientId.Some? {
      buf := buf + p.recipientId.value;
    }
    assert buf == Header(p) + p.senderId + Opt(p.recipientId);
    buf := buf + p.payload;
    if p.signature.Some? {
      buf := buf + p.signature.value;
    }
    assert buf == Structured(p);
    buf := ApplyPadding(buf);
    return Ok(buf);
  }

  method WriteHeader(p: Packet) returns (buf: seq<byte>)
    requires |p.payload| <= MAX_PAYLOAD_LEN
    ensures buf == Header(p)
  {
    buf := [p.version];
    buf := buf + [TypeByte(p.msgType)];
    buf := buf + [p.ttl];
    assert buf == [p.version, TypeByte(p.msgType), p.ttl];
    buf := buf + ToBE(p.timestampMs, 8);
    buf := buf + [FlagsToWire(p.flags, p.recipientId.Some?, p.signature.Some?)];
    buf := buf + ToBE(|p.payload|, 2);
  }

  method Decode(b: seq<byte>) returns (r: Result<Packet, CodecError>)
    ensures r == Decoded(b)
  {
    if |b| < HEADER_LEN + PEER_ID_LEN {
      return Err(Truncated(HEADER_LEN + PEER_ID_LEN, |b|));
    }
    if b[0] != VERSION {
      return Err(UnsupportedVersion(b[0]));
    }
    var msgType := TypeOf(b[1]);
    if msgType.None? {
      return Err(UnknownMessageType(b[1]));
    }
    Pow256Values();
    var timestamp: u64 := FromBE(b[3..11]);
    if HasUnknownBits(b[11]) {
      return Err(UnknownFlagBits(b[11]));
    }
    var hasRecipient, hasSignature := Bit(b[11], 0x01), Bit(b[11], 0x02);
    var payloadLen := FromBE(b[12..14]);
    var needed := HEADER_LEN + PEER_ID_LEN;
    if hasRecipient { needed := needed + PEER_ID_LEN; }
    needed := needed + payloadLen;
    if hasSignature { needed := needed + SIGNATURE_LEN; }
    if |b| < needed {
      return Err(Truncated(needed, |b|));
    }
    var off := HEADER_LEN;
    var sender: Id8 := b[off..off + PEER_ID_LEN];
    off := off + PEER_ID_LEN;
    var recipient: Option<Id8> := None;
    if hasRecipient {
      recipient := Some(b[off..off + PEER_ID_LEN]);
      off := off + PEER_ID_LEN;
    }
    var payload := b[off..off + payloadLen];
    off := off + payloadLen;
    var signature: Option<Sig64> := None;
    if hasSignature {
      signature := Some(b[off..off + SIGNATURE_LEN]);
    }
    return Ok(Packet(b[0], msgType.value, b[2], timestamp, FlagsFromWire(b[11]), sender, recipient,
                     payload, signature));
  }
}
