/** The type-length-value envelope that rides inside a `nimiqTx` packet (`envelope.rs`). */
module Envelope {
  import opened Bytes

  const T_TX_WIRE: byte := 0x01
  const T_NETWORK_ID: byte := 0x02
  const T_VALID_UNTIL: byte := 0x03
  const T_TX_ID: byte := 0x04
  const T_ENC_MEMO: byte := 0x05
  const T_WANT_RECEIPT: byte := 0x06

  const TX_ID_LEN: nat := 32
  const MAX_TLV_VALUE_LEN: nat := 255

  type TxId = s: seq<byte> | |s| == TX_ID_LEN witness seq(TX_ID_LEN, i => 0)

  datatype NimiqEnvelope = NimiqEnvelope(
    txWire: seq<byte>,
    networkId: byte,
    validUntil: Option<u32>,
    txId: Option<TxId>,
    encMemo: Option<seq<byte>>,
    wantReceipt: bool)

  datatype EnvelopeError =
    | ValueTooLong(tlvType: byte, len: nat)
    | Truncated(offset: nat)
    | BadFieldLength(badType: byte, badLen: nat)
    | MissingRequiredField(missingType: byte)

  // ----- TLV streams -----

  datatype RawTlv = Tlv(ty: byte, value: seq<byte>)
  type Tlv = t: RawTlv | |t.value| <= MAX_TLV_VALUE_LEN witness Tlv(0, [])

  function TlvBytes(t: Tlv): seq<byte> { [t.ty, |t.value|] + t.value }

  function Serialise(ts: seq<Tlv>): (s: seq<byte>)
    ensures |s| >= 2 * |ts|
  {
    if ts == [] then [] else TlvBytes(ts[0]) + Serialise(ts[1..])
  }

  /** The TLVs readable from `off`, and where the stream breaks off if it does. */
  function Parse(b: seq<byte>, off: nat): (r: (seq<Tlv>, Option<nat>))
    requires off <= |b|
    decreases |b| - off
  {
    if off == |b| then ([], None)
    else if off + 2 > |b| then ([], Some(off))
    else
      var end := off + 2 + b[off + 1];
      if end > |b| then ([], Some(off + 2))
      else
        var rest := Parse(b, end);
        ([Tlv(b[off], b[off + 2..end])] + rest.0, rest.1)
  }

  lemma ParseOne(before: seq<byte>, t: Tlv, rest: seq<byte>)
    ensures var b := before + TlvBytes(t) + rest;
            var tail := Parse(b, |before + TlvBytes(t)|);
            Parse(b, |before|) == ([t] + tail.0, tail.1)
  {
    var b := before + TlvBytes(t) + rest;
    assert b[|before|] == t.ty && b[|before| + 1] == |t.value|;
    assert b[|before| + 2..|before| + 2 + |t.value|] == t.value;
  }

  lemma {:induction false} ParseSerialise(before: seq<byte>, ts: seq<Tlv>)
    ensures Parse(before + Serialise(ts), |before|) == (ts, None)
    decreases |ts|
  {
    if ts != [] {
      var before' := before + TlvBytes(ts[0]);
      assert before + Serialise(ts) == before' + Serialise(ts[1..]);
      ParseSerialise(before', ts[1..]);
      ParseOne(before, ts[0], Serialise(ts[1..]));
      assert ts == [ts[0]] + ts[1..];
    }
  }

  // ----- fields: the fold the decoder performs -----

  datatype Partial = Partial(
    txWire: Option<seq<byte>>,
    networkId: Option<byte>,
    validUntil: Option<u32>,
    txId: Option<TxId>,
    encMemo: Option<seq<byte>>,
    wantReceipt: bool)

  const EMPTY: Partial := Partial(None, None, None, None, None, false)

  /** The length a fixed-width field must have. */
  function FixedLen(ty: byte): Option<nat> {
    if ty == T_NETWORK_ID || ty == T_WANT_RECEIPT then Some(1)
    else if ty == T_VALID_UNTIL then Some(4)
    else if ty == T_TX_ID then Some(TX_ID_LEN)
    else None
  }

  predicate WellSized(t: RawTlv) {
    FixedLen(t.ty).Some? ==> |t.value| == FixedLen(t.ty).value
  }

  function Field(acc: Partial, t: Tlv): (r: Result<Partial, EnvelopeError>)
    ensures r.Ok? <==> WellSized(t)
    ensures r.Err? ==> r.error == BadFieldLength(t.ty, |t.value|)
  {
    if !WellSized(t) then Err(BadFieldLength(t.ty, |t.value|))
    else if t.ty == T_TX_WIRE then Ok(acc.(txWire := Some(t.value)))
    else if t.ty == T_NETWORK_ID then Ok(acc.(networkId := Some(t.value[0])))
    else if t.ty == T_VALID_UNTIL then Pow256Values(); Ok(acc.(validUntil := Some(FromBE(t.value))))
    else if t.ty == T_TX_ID then Ok(acc.(txId := Some(t.value)))
    else if t.ty == T_ENC_MEMO then Ok(acc.(encMemo := Some(t.value)))
    else if t.ty == T_WANT_RECEIPT then Ok(acc.(wantReceipt := t.value[0] != 0))
    else Ok(acc)
  }

  function Fold(acc: Partial, ts: seq<Tlv>): Result<Partial, EnvelopeError>
    decreases |ts|
  {
    if ts == [] then Ok(acc)
    else match Field(acc, ts[0])
         case Err(e) => Err(e)
         case Ok(acc') => Fold(acc', ts[1..])
  }

  function Finish(acc: Partial): Result<NimiqEnvelope, EnvelopeError> {
    if acc.txWire.None? then Err(MissingRequiredField(T_TX_WIRE))
    else if acc.networkId.None? then Err(MissingRequiredField(T_NETWORK_ID))
    else Ok(NimiqEnvelope(acc.txWire.value, acc.networkId.value, acc.validUntil, acc.txId,
                          acc.encMemo, acc.wantReceipt))
  }

  /** Fold what was parsed; a field error wins over a later truncation. */
  function Complete(acc: Partial, parsed: (seq<Tlv>, Option<nat>)): Result<NimiqEnvelope, EnvelopeError> {
    match Fold(acc, parsed.0)
    case Err(e) => Err(e)
    case Ok(acc') =>
      if parsed.1.Some? then Err(Truncated(parsed.1.value)) else Finish(acc')
  }

  function Decoded(b: seq<byte>): Result<NimiqEnvelope, EnvelopeError> {
    Complete(EMPTY, Parse(b, 0))
  }

  // ----- last wins -----

  /** The value of the last TLV of type `ty`. */
  function LastOf(ts: seq<Tlv>, ty: byte): Option<seq<byte>> {
    if ts == [] then None
    else if ts[|ts| - 1].ty == ty then Some(ts[|ts| - 1].value)
    else LastOf(ts[..|ts| - 1], ty)
  }

  lemma {:induction false} FoldAppend(acc: Partial, ts: seq<Tlv>, t: Tlv)
    ensures Fold(acc, ts + [t]) == match Fold(acc, ts) case Err(e) => Err(e) case Ok(a) => Field(a, t)
    decreases |ts|
  {
    if ts != [] {
      assert (ts + [t])[1..] == ts[1..] + [t];
      match Field(acc, ts[0])
      case Err(_) =>
      case Ok(acc') => FoldAppend(acc', ts[1..], t);
    }
  }

  /** Each field holds the value of the last TLV of its type. */
  ghost predicate LastWins(a: Partial, ts: seq<Tlv>) {
    && a.txWire == LastOf(ts, T_TX_WIRE)
    && a.encMemo == LastOf(ts, T_ENC_MEMO)
    && a.txId == LastOf(ts, T_TX_ID)
    && (match LastOf(ts, T_NETWORK_ID)
        case None => a.networkId == None
        case Some(v) => |v| == 1 && a.networkId == Some(v[0]))
    && (match LastOf(ts, T_VALID_UNTIL)
        case None => a.validUntil == None
        case Some(v) => |v| == 4 && a.validUntil == Some(FromBE(v)))
    && (match LastOf(ts, T_WANT_RECEIPT)
        case None => !a.wantReceipt
        case Some(v) => |v| == 1 && a.wantReceipt == (v[0] != 0))
  }

  lemma FieldKeepsLastWins(a: Partial, ts: seq<Tlv>, t: Tlv)
    requires LastWins(a, ts) && Field(a, t).Ok?
    ensures LastWins(Field(a, t).value, ts + [t])
  {
    assert (ts + [t])[..|ts|] == ts;
    assert forall ty: byte :: LastOf(ts + [t], ty) == if t.ty == ty then Some(t.value) else LastOf(ts, ty);
  }

  /** The fold succeeds exactly when every fixed-width TLV has its width, and then the last TLV of
      each type wins. */
  lemma {:induction false} FoldIsLastWins(ts: seq<Tlv>)
    ensures Fold(EMPTY, ts).Ok? <==> forall i :: 0 <= i < |ts| ==> WellSized(ts[i])
    ensures Fold(EMPTY, ts).Ok? ==> LastWins(Fold(EMPTY, ts).value, ts)
    decreases |ts|
  {
    if ts != [] {
      var init, t := ts[..|ts| - 1], ts[|ts| - 1];
      assert ts == init + [t];
      FoldIsLastWins(init);
      FoldAppend(EMPTY, init, t);
      assert forall i :: 0 <= i < |init| ==> init[i] == ts[i];
      if Fold(EMPTY, ts).Ok? {
        FieldKeepsLastWins(Fold(EMPTY, init).value, init, t);
      }
    }
  }

  /** Otherwise the first TLV of a wrong width is the one reported. */
  lemma {:induction false} FirstBadSizeIsReported(acc: Partial, ts: seq<Tlv>, k: nat)
    requires k < |ts| && !WellSized(ts[k]) && forall i :: 0 <= i < k ==> WellSized(ts[i])
    ensures Fold(acc, ts) == Err(BadFieldLength(ts[k].ty, |ts[k].value|))
    decreases k
  {
    if k > 0 {
      assert WellSized(ts[0]);
      FirstBadSizeIsReported(Field(acc, ts[0]).value, ts[1..], k - 1);
    }
  }

  // ----- forward compatibility -----

  predicate Known(t: RawTlv) { T_TX_WIRE <= t.ty <= T_WANT_RECEIPT }

  function KnownOnly(ts: seq<Tlv>): seq<Tlv> {
    if ts == [] then []
    else if Known(ts[0]) then [ts[0]] + KnownOnly(ts[1..])
    else KnownOnly(ts[1..])
  }

  lemma {:induction false} UnknownIsSkipped(acc: Partial, ts: seq<Tlv>)
    ensures Fold(acc, ts) == Fold(acc, KnownOnly(ts))
    decreases |ts|
  {
    if ts != [] {
      match Field(acc, ts[0])
      case Err(_) =>
      case Ok(acc') =>
        UnknownIsSkipped(acc', ts[1..]);
    }
  }

  /** Two streams with the same known TLVs in the same order decode alike: unknown TLVs may be
      inserted, moved or removed anywhere. */
  lemma ForwardCompatible(ts: seq<Tlv>, us: seq<Tlv>)
    requires KnownOnly(ts) == KnownOnly(us)
    ensures Decoded(Serialise(ts)) == Decoded(Serialise(us))
  {
    DecodedIs(ts);
    DecodedIs(us);
    UnknownIsSkipped(EMPTY, ts);
    UnknownIsSkipped(EMPTY, us);
  }

  /** Decoding a stream of TLVs is folding them and checking the required fields. */
  lemma DecodedIs(ts: seq<Tlv>)
    ensures Decoded(Serialise(ts)) == match Fold(EMPTY, ts) case Err(e) => Err(e) case Ok(acc) => Finish(acc)
  {
    ParseSerialise([], ts);
    assert [] + Serialise(ts) == Serialise(ts);
  }

  // ----- encoding -----

  predicate Fits(e: NimiqEnvelope) {
    |e.txWire| <= MAX_TLV_VALUE_LEN && (e.encMemo.Some? ==> |e.encMemo.value| <= MAX_TLV_VALUE_LEN)
  }

  /** The TLV of type `ty` an envelope emits, if it emits one. */
  function Piece(e: NimiqEnvelope, ty: byte): (ts: seq<Tlv>)
    requires Fits(e)
    ensures |ts| <= 1 && (|ts| == 1 ==> ts[0].ty == ty)
  {
    if ty == T_TX_WIRE then [Tlv(ty, e.txWire)]
    else if ty == T_NETWORK_ID then [Tlv(ty, [e.networkId])]
    else if ty == T_VALID_UNTIL && e.validUntil.Some? then [Tlv(ty, ToBE(e.validUntil.value, 4))]
    else if ty == T_TX_ID && e.txId.Some? then [Tlv(ty, e.txId.value)]
    else if ty == T_ENC_MEMO && e.encMemo.Some? then [Tlv(ty, e.encMemo.value)]
    else if ty == T_WANT_RECEIPT && e.wantReceipt then [Tlv(ty, [1])]
    else []
  }

  /** The TLVs of an envelope up to type `last`, in ascending type order. */
  function TlvsUpTo(e: NimiqEnvelope, last: byte): seq<Tlv>
    requires Fits(e)
    decreases last
  {
    if last == 0 then [] else TlvsUpTo(e, last - 1) + Piece(e, last)
  }

  function TlvsOf(e: NimiqEnvelope): seq<Tlv>
    requires Fits(e)
  {
    TlvsUpTo(e, T_WANT_RECEIPT)
  }

  function Encoded(e: NimiqEnvelope): (r: Result<seq<byte>, EnvelopeError>)
    ensures r.Ok? <==> Fits(e)
  {
    if |e.txWire| > MAX_TLV_VALUE_LEN then Err(ValueTooLong(T_TX_WIRE, |e.txWire|))
    else if !Fits(e) then Err(ValueTooLong(T_ENC_MEMO, |e.encMemo.value|))
    else Ok(Serialise(TlvsOf(e)))
  }

  /** Encoding succeeds exactly when both variable fields fit a one-byte length, and decoding gives
      back the envelope. */
  lemma RoundTrip(e: NimiqEnvelope)
    ensures Encoded(e).Ok? <==> Fits(e)
    ensures Fits(e) ==> Decoded(Encoded(e).value) == Ok(e)
  {
    if Fits(e) {
      var ts := TlvsOf(e);
      ParseSerialise([], ts);
      assert [] + Serialise(ts) == Serialise(ts);
      FoldOfTlvs(e, T_WANT_RECEIPT);
    }
  }

  /** The bytes of a field that may be absent. */
  function OptTlv(ty: byte, value: Option<seq<byte>>): seq<byte>
    requires value.Some? ==> |value.value| <= 255
  {
    if value.None? then [] else [ty, |value.value|] + value.value
  }

  lemma PieceBytes(e: NimiqEnvelope, ty: byte, bytes: seq<byte>)
    requires Fits(e) && ty > 0
    requires bytes == (if Piece(e, ty) == [] then [] else TlvBytes(Piece(e, ty)[0]))
    ensures Serialise(TlvsUpTo(e, ty)) == Serialise(TlvsUpTo(e, ty - 1)) + bytes
  {
    var before, piece := TlvsUpTo(e, ty - 1), Piece(e, ty);
    if piece == [] {
      assert before + piece == before;
      assert Serialise(before) + [] == Serialise(before);
    } else {
      assert before + piece == before + [piece[0]];
      SerialiseAppend(before, piece[0]);
    }
  }

  lemma RequiredBytes(e: NimiqEnvelope)
    requires Fits(e)
    ensures Serialise(TlvsUpTo(e, 2)) == [0x01, |e.txWire|] + e.txWire + [0x02, 1, e.networkId]
  {
    PieceBytes(e, 1, [0x01, |e.txWire|] + e.txWire);
    assert TlvsUpTo(e, 0) == [];
    PieceBytes(e, 2, [0x02, 1, e.networkId]);
  }

  /** An envelope byte for byte: type, length and value of the wire, the network, and whatever optional field is
      there, in ascending type. */
  lemma EnvelopeLayout(e: NimiqEnvelope)
    requires Fits(e)
    ensures Encoded(e) == Ok([0x01, |e.txWire|] + e.txWire + [0x02, 1, e.networkId]
              + OptTlv(0x03, if e.validUntil.Some? then Some(ToBE(e.validUntil.value, 4)) else None)
              + OptTlv(0x04, e.txId) + OptTlv(0x05, e.encMemo)
              + (if e.wantReceipt then [0x06, 1, 1] else []))
  {
    RequiredBytes(e);
    PieceBytes(e, 3, OptTlv(0x03, if e.validUntil.Some? then Some(ToBE(e.validUntil.value, 4)) else None));
    PieceBytes(e, 4, OptTlv(0x04, e.txId));
    PieceBytes(e, 5, OptTlv(0x05, e.encMemo));
    PieceBytes(e, 6, if e.wantReceipt then [0x06, 1, 1] else []);
  }

  lemma {:induction false} SizeUpTo(e: NimiqEnvelope, last: byte)
    requires Fits(e)
    ensures |Serialise(TlvsUpTo(e, last))| <= 257 * last
    decreases last
  {
    if last > 0 {
      SizeUpTo(e, last - 1);
      var before, piece := TlvsUpTo(e, last - 1), Piece(e, last);
      if piece == [] {
        assert before + piece == before;
      } else {
        assert piece == [piece[0]];
        SerialiseAppend(before, piece[0]);
      }
    }
  }

  /** An encoded envelope is small: six TLVs of at most 257 bytes. */
  lemma EnvelopeIsSmall(e: NimiqEnvelope)
    requires Fits(e)
    ensures |Encoded(e).value| <= 1542
  {
    SizeUpTo(e, T_WANT_RECEIPT);
  }

  /** What the decoder has collected after the TLVs of types up to `last`. */
  ghost function CollectedUpTo(e: NimiqEnvelope, last: byte): Partial {
    Partial(if last >= T_TX_WIRE then Some(e.txWire) else None,
            if last >= T_NETWORK_ID then Some(e.networkId) else None,
            if last >= T_VALID_UNTIL then e.validUntil else None,
            if last >= T_TX_ID then e.txId else None,
            if last >= T_ENC_MEMO then e.encMemo else None,
            last >= T_WANT_RECEIPT && e.wantReceipt)
  }

  /** Folding the piece of type `last` collects exactly that field. */
  lemma PieceIsCollected(e: NimiqEnvelope, last: byte)
    requires Fits(e) && 0 < last <= T_WANT_RECEIPT
    ensures var piece := Piece(e, last);
            if piece == [] then CollectedUpTo(e, last) == CollectedUpTo(e, last - 1)
            else Field(CollectedUpTo(e, last - 1), piece[0]) == Ok(CollectedUpTo(e, last))
  {
    if last == T_VALID_UNTIL && e.validUntil.Some? {
      Pow256Values();
      FromToBE(e.validUntil.value, 4);
    }
  }

  lemma {:induction false} FoldOfTlvs(e: NimiqEnvelope, last: byte)
    requires Fits(e) && last <= T_WANT_RECEIPT
    ensures Fold(EMPTY, TlvsUpTo(e, last)) == Ok(CollectedUpTo(e, last))
    decreases last
  {
    if last > 0 {
      FoldOfTlvs(e, last - 1);
      PieceIsCollected(e, last);
      var piece := Piece(e, last);
      if piece == [] {
        assert TlvsUpTo(e, last) == TlvsUpTo(e, last - 1);
      } else {
        assert piece == [piece[0]];
        FoldAppend(EMPTY, TlvsUpTo(e, last - 1), piece[0]);
      }
    }
  }

  // ----- the buffer and offset forms -----

  lemma SerialiseAppend(ts: seq<Tlv>, t: Tlv)
    ensures Serialise(ts + [t]) == Serialise(ts) + TlvBytes(t)
    decreases |ts|
  {
    if ts != [] {
      assert (ts + [t])[1..] == ts[1..] + [t];
      SerialiseAppend(ts[1..], t);
    } else {
      assert ts + [t] == [t] && [t][1..] == [];
    }
  }

  method PushTlv(buf: seq<byte>, ty: byte, value: seq<byte>) returns (r: Result<seq<byte>, EnvelopeError>)
    ensures |value| > MAX_TLV_VALUE_LEN ==> r == Err(ValueTooLong(ty, |value|))
    ensures |value| <= MAX_TLV_VALUE_LEN ==> r == Ok(buf + TlvBytes(Tlv(ty, value)))
  {
    if |value| > MAX_TLV_VALUE_LEN {
      return Err(ValueTooLong(ty, |value|));
    }
    var out := buf + [ty];
    out := out + [|value|];
    out := out + value;
    assert out == buf + TlvBytes(Tlv(ty, value));
    return Ok(out);
  }

  /** Appending the piece of type `last` extends the serialised prefix by one type. */
  lemma NextPiece(e: NimiqEnvelope, last: byte)
    requires Fits(e) && last > 0
    ensures var before := Serialise(TlvsUpTo(e, last - 1));
            var piece := Piece(e, last);
            Serialise(TlvsUpTo(e, last)) == if piece == [] then before else before + TlvBytes(piece[0])
  {
    var piece := Piece(e, last);
    if piece == [] {
      assert TlvsUpTo(e, last) == TlvsUpTo(e, last - 1);
    } else {
      assert piece == [piece[0]];
      SerialiseAppend(TlvsUpTo(e, last - 1), piece[0]);
    }
  }

  method EncodeEnvelope(e: NimiqEnvelope) returns (r: Result<seq<byte>, EnvelopeError>)
    ensures r == Encoded(e)
  {
    ghost var fits := Fits(e);
    if fits {
      NextPiece(e, T_TX_WIRE);
      NextPiece(e, T_NETWORK_ID);
      NextPiece(e, T_VALID_UNTIL);
      NextPiece(e, T_TX_ID);
      NextPiece(e, T_ENC_MEMO);
      NextPiece(e, T_WANT_RECEIPT);
    }
    r := PushTlv([], T_TX_WIRE, e.txWire);
    if r.Err? { return; }
    assert fits ==> r.value == Serialise(TlvsUpTo(e, T_TX_WIRE));
    r := PushTlv(r.value, T_NETWORK_ID, [e.networkId]);
    assert fits ==> r.value == Serialise(TlvsUpTo(e, T_NETWORK_ID));
    if e.validUntil.Some? {
      r := PushTlv(r.value, T_VALID_UNTIL, ToBE(e.validUntil.value, 4));
    }
    assert fits ==> r.value == Serialise(TlvsUpTo(e, T_VALID_UNTIL));
    if e.txId.Some? {
      r := PushTlv(r.value, T_TX_ID, e.txId.value);
    }
    assert fits ==> r.value == Serialise(TlvsUpTo(e, T_TX_ID));
    if e.encMemo.Some? {
      r := PushTlv(r.value, T_ENC_MEMO, e.encMemo.value);
      if r.Err? { return; }
    }
    assert fits;
    if e.wantReceipt {
      r := PushTlv(r.value, T_WANT_RECEIPT, [1]);
    }
  }

  method DecodeEnvelope(b: seq<byte>) returns (r: Result<NimiqEnvelope, EnvelopeError>)
    ensures r == Decoded(b)
  {
    var acc := EMPTY;
    var off := 0;
    while off < |b|
      invariant off <= |b|
      invariant Decoded(b) == Complete(acc, Parse(b, off))
    {
      if off + 2 > |b| {
        return Err(Truncated(off));
      }
      var ty, len := b[off], b[off + 1];
      var end := off + 2 + len;
      if end > |b| {
        return Err(Truncated(off + 2));
      }
      var field := Field(acc, Tlv(ty, b[off + 2..end]));
      ghost var rest := Parse(b, end).0;
      assert ([Tlv(ty, b[off + 2..end])] + rest)[1..] == rest;
      if field.Err? {
        return Err(field.error);
      }
      acc := field.value;
      off := end;
    }
    return Finish(acc);
  }
}
