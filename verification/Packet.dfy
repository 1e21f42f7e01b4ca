/** The wire packet of `packet.rs`: header fields, flag bits and message types. */
module Packet {
  import opened Bytes

  const VERSION: byte := 1
  const HEADER_LEN: nat := 14
  const PEER_ID_LEN: nat := 8
  const SIGNATURE_LEN: nat := 64
  const DEFAULT_TTL: byte := 7

  type Id8 = s: seq<byte> | |s| == PEER_ID_LEN witness [0, 0, 0, 0, 0, 0, 0, 0]
  type Sig64 = s: seq<byte> | |s| == SIGNATURE_LEN witness seq(SIGNATURE_LEN, i => 0)

  const BROADCAST_RECIPIENT: Id8 := [255, 255, 255, 255, 255, 255, 255, 255]

  datatype MessageType =
    | NoiseEncrypted | Fragment | RequestSync
    | NimiqTx | NimiqTxReceipt | NimiqHeadBeacon
    | NimiqBalanceQuery | NimiqBalanceResponse
    | NimiqTxHistoryQuery | NimiqTxHistoryResponse | NimiqBalanceProof
    | SwapPropose | SwapAccept | SwapFundingProof | SwapPreimageReveal | SwapAbort | SwapIntent
    | Chat

  function TypeByte(t: MessageType): byte {
    match t
    case NoiseEncrypted => 0x11
    case Fragment => 0x20
    case RequestSync => 0x21
    case NimiqTx => 0x30
    case NimiqTxReceipt => 0x31
    case NimiqHeadBeacon => 0x32
    case NimiqBalanceQuery => 0x33
    case NimiqBalanceResponse => 0x34
    case NimiqTxHistoryQuery => 0x35
    case NimiqTxHistoryResponse => 0x36
    case NimiqBalanceProof => 0x37
    case SwapPropose => 0x40
    case SwapAccept => 0x41
    case SwapFundingProof => 0x42
    case SwapPreimageReveal => 0x43
    case SwapAbort => 0x44
    case SwapIntent => 0x45
    case Chat => 0x50
  }

  /** `MessageType::from_u8`: exactly the inverse of `TypeByte`. */
  function TypeOf(b: byte): (t: Option<MessageType>)
    ensures t.Some? ==> TypeByte(t.value) == b
    ensures t.None? ==> forall m :: TypeByte(m) != b
  {
    match b
    case 0x11 => Some(NoiseEncrypted)
    case 0x20 => Some(Fragment)
    case 0x21 => Some(RequestSync)
    case 0x30 => Some(NimiqTx)
    case 0x31 => Some(NimiqTxReceipt)
    case 0x32 => Some(NimiqHeadBeacon)
    case 0x33 => Some(NimiqBalanceQuery)
    case 0x34 => Some(NimiqBalanceResponse)
    case 0x35 => Some(NimiqTxHistoryQuery)
    case 0x36 => Some(NimiqTxHistoryResponse)
    case 0x37 => Some(NimiqBalanceProof)
    case 0x40 => Some(SwapPropose)
    case 0x41 => Some(SwapAccept)
    case 0x42 => Some(SwapFundingProof)
    case 0x43 => Some(SwapPreimageReveal)
    case 0x44 => Some(SwapAbort)
    case 0x45 => Some(SwapIntent)
    case 0x50 => Some(Chat)
    case _ => None
  }

  datatype Flags = Flags(isCompressed: bool, hasRoute: bool, isRsr: bool)

  datatype Packet = Packet(
    version: byte,
    msgType: MessageType,
    ttl: byte,
    timestampMs: u64,
    flags: Flags,
    senderId: Id8,
    recipientId: Option<Id8>,
    payload: seq<byte>,
    signature: Option<Sig64>)

  /** The five defined flag bits are the low five bits of the flags byte. */
  function FlagsToWire(f: Flags, hasRecipient: bool, hasSignature: bool): (b: byte)
    ensures b < 32
  {
    (if hasRecipient then 0x01 else 0) + (if hasSignature then 0x02 else 0)
    + (if f.isCompressed then 0x04 else 0) + (if f.hasRoute then 0x08 else 0)
    + (if f.isRsr then 0x10 else 0)
  }

  predicate Bit(b: byte, weight: nat)
    requires weight > 0
  {
    (b / weight) % 2 == 1
  }

  function FlagsFromWire(b: byte): Flags {
    Flags(Bit(b, 0x04), Bit(b, 0x08), Bit(b, 0x10))
  }

  predicate HasUnknownBits(b: byte) {
    b >= 0x20
  }

  /** Reading the bits of a written flags byte gives back every flag. */
  lemma FlagsRoundTrip(f: Flags, r: bool, s: bool)
    ensures var b := FlagsToWire(f, r, s);
            FlagsFromWire(b) == f && Bit(b, 0x01) == r && Bit(b, 0x02) == s && !HasUnknownBits(b)
  {
  }

  /** A flags byte with no unknown bit is determined by the flags read from it. */
  lemma FlagsCanonical(b: byte)
    requires !HasUnknownBits(b)
    ensures FlagsToWire(FlagsFromWire(b), Bit(b, 0x01), Bit(b, 0x02)) == b
  {
  }
}
