/** Receipts and the two-way settlement ledger (`settlement.rs`, `gateway.rs`). */
module Settlement {
  import opened Bytes
  import opened Envelope

  datatype ReceiptStatus = Accepted | Expired | Failed

  function StatusCode(s: ReceiptStatus): byte {
    match s case Accepted => 0 case Expired => 1 case Failed => 2
  }

  /** Every code other than 1 and 2 reads as `Accepted`. */
  function StatusOfCode(c: byte): ReceiptStatus {
    if c == 1 then Expired else if c == 2 then ReceiptStatus.Failed else Accepted
  }

  datatype Receipt = Receipt(txId: TxId, status: ReceiptStatus)

  function EncodeReceipt(r: Receipt): (s: seq<byte>)
    ensures |s| == TX_ID_LEN + 1
  {
    r.txId + [StatusCode(r.status)]
  }

  function DecodeReceipt(s: seq<byte>): Option<Receipt> {
    if |s| != TX_ID_LEN + 1 then None
    else Some(Receipt(s[..TX_ID_LEN], StatusOfCode(s[TX_ID_LEN])))
  }

  lemma ReceiptRoundTrip(r: Receipt)
    ensures DecodeReceipt(EncodeReceipt(r)) == Some(r)
  {
    assert EncodeReceipt(r)[..TX_ID_LEN] == r.txId;
  }

  /** The id first, then one byte: 0 accepted, 1 expired, 2 failed. */
  lemma ReceiptLayout(r: Receipt)
    ensures var s := EncodeReceipt(r);
            s[..32] == r.txId
            && s[32] == match r.status case Accepted => 0 case Expired => 1 case Failed => 2
  {
    assert EncodeReceipt(r)[..TX_ID_LEN] == r.txId;
  }

  /** A payload is a receipt exactly when it has 33 bytes; the last is read as 1 for expired, 2 for failed and
      anything else for accepted. */
  lemma ReceiptDecodesIff(s: seq<byte>, r: Receipt)
    ensures DecodeReceipt(s) == Some(r) <==>
            && |s| == 33 && s[..32] == r.txId
            && (r.status == Expired <==> s[32] == 1) && (r.status == ReceiptStatus.Failed <==> s[32] == 2)
  {
  }

  datatype PaymentStatus = Pending | Settled | Failed
  datatype Direction = Outgoing | Incoming
  datatype Tracked = Tracked(status: PaymentStatus, direction: Direction)

  type Ledger = map<TxId, Tracked>

  /** Track a payment; an entry already there is left alone. */
  function Record(l: Ledger, id: TxId, d: Direction): Ledger {
    if id in l then l else l[id := Tracked(Pending, d)]
  }

  /** Apply a verdict: only a tracked, still pending payment changes. */
  function Settle(l: Ledger, id: TxId, s: PaymentStatus): Ledger {
    if id in l && l[id].status == Pending then l[id := l[id].(status := s)] else l
  }

  function PaymentOf(s: ReceiptStatus): PaymentStatus {
    if s == Accepted then Settled else PaymentStatus.Failed
  }

  /** Neither operation ever forgets a payment, changes its direction, or leaves a terminal status. */
  lemma LedgerOnlyCloses(l: Ledger, id: TxId, s: PaymentStatus, d: Direction, x: TxId)
    requires x in l
    ensures forall l': Ledger | l' == Record(l, id, d) || l' == Settle(l, id, s) ::
              x in l' && l'[x].direction == l[x].direction
              && (l[x].status != Pending ==> l'[x] == l[x])
  {
  }
}
