/** The BTC funding verifier (`btc_verifier.rs`): chain reads are oracles, the scan is the program's. */
module BtcVerifier {
  import opened Bytes
  import opened Funding

  type Txid = string
  datatype OutPoint = OutPoint(txid: Txid, vout: nat)
  datatype TxOut = TxOut(script: seq<byte>, valueSat: u64)
  datatype AddressTx = AddressTx(txid: Txid, spends: seq<OutPoint>, outputs: seq<TxOut>)
  datatype TxStatus = TxStatus(confirmed: bool, blockHeight: Option<u64>)

  /** One indexer; `None` is a transport or parse error. */
  datatype Reads = Reads(
    addressTxs: Option<seq<AddressTx>>,
    txStatus: Txid -> Option<TxStatus>,
    tipHeight: Option<u64>)

  /** The watched output: its script, the agreed hashlock and CLTV locktime. */
  datatype Watch = Watch(script: seq<byte>, hashlock: seq<byte>, cltv: u64)

  predicate IsP2wsh(script: seq<byte>) {
    |script| == 34 && script[0] == 0x00 && script[1] == 0x20
  }

  // ----- locating the funding output -----

  datatype Place = Place(tx: nat, vout: nat)

  predicate ExactAt(txs: seq<AddressTx>, script: seq<byte>, f: Place) {
    f.tx < |txs| && f.vout < |txs[f.tx].outputs| && txs[f.tx].outputs[f.vout].script == script
  }

  predicate WrongAt(txs: seq<AddressTx>, script: seq<byte>, f: Place) {
    && f.tx < |txs| && f.vout < |txs[f.tx].outputs|
    && txs[f.tx].outputs[f.vout].script != script && IsP2wsh(txs[f.tx].outputs[f.vout].script)
  }

  /** Listing order: by transaction, then by output. */
  predicate Before(f: Place, g: Place) { f.tx < g.tx || (f.tx == g.tx && f.vout < g.vout) }

  ghost predicate FirstExact(txs: seq<AddressTx>, script: seq<byte>, f: Place) {
    ExactAt(txs, script, f) && forall g :: ExactAt(txs, script, g) ==> f == g || Before(f, g)
  }

  ghost predicate NoneExact(txs: seq<AddressTx>, script: seq<byte>) {
    forall g :: !ExactAt(txs, script, g)
  }

  ghost predicate SomeWrong(txs: seq<AddressTx>, script: seq<byte>) {
    exists g :: WrongAt(txs, script, g)
  }

  predicate SpentIn(txs: seq<AddressTx>, o: OutPoint) {
    exists i :: 0 <= i < |txs| && o in txs[i].spends
  }

  /** The scan over all outputs of all listed transactions. */
  method Scan(txs: seq<AddressTx>, script: seq<byte>) returns (funding: Option<Place>, wrong: bool)
    ensures funding.None? ==> NoneExact(txs, script)
    ensures funding.Some? ==> FirstExact(txs, script, funding.value)
    ensures wrong <==> SomeWrong(txs, script)
  {
    funding, wrong := None, false;
    ghost var wrongAt: Option<Place> := None;
    var i := 0;
    while i < |txs|
      invariant 0 <= i <= |txs|
      invariant funding.None? ==> forall g :: ExactAt(txs, script, g) ==> g.tx >= i
      invariant funding.Some? ==> FirstExact(txs, script, funding.value)
      invariant wrong <==> wrongAt.Some?
      invariant wrong ==> WrongAt(txs, script, wrongAt.value)
      invariant !wrong ==> forall g :: WrongAt(txs, script, g) ==> g.tx >= i
    {
      var outputs, j := txs[i].outputs, 0;
      while j < |outputs|
        invariant 0 <= j <= |outputs|
        invariant funding.None? ==> forall g :: ExactAt(txs, script, g) ==> g.tx > i || (g.tx == i && g.vout >= j)
        invariant funding.Some? ==> FirstExact(txs, script, funding.value)
        invariant wrong <==> wrongAt.Some?
        invariant wrong ==> WrongAt(txs, script, wrongAt.value)
        invariant !wrong ==> forall g :: WrongAt(txs, script, g) ==> g.tx > i || (g.tx == i && g.vout >= j)
      {
        if outputs[j].script == script {
          if funding.None? {
            funding := Some(Place(i, j));
          }
        } else if IsP2wsh(outputs[j].script) {
          wrong := true;
          wrongAt := Some(Place(i, j));
        }
        j := j + 1;
      }
      i := i + 1;
    }
  }

  lemma FirstExactUnique(txs: seq<AddressTx>, script: seq<byte>, f: Place, g: Place)
    requires FirstExact(txs, script, f) && FirstExact(txs, script, g)
    ensures f == g
  {
  }

  // ----- the verdict -----

  ghost function TheFunding(txs: seq<AddressTx>, script: seq<byte>): Option<Place> {
    if exists f :: FirstExact(txs, script, f) then
      var f :| FirstExact(txs, script, f); Some(f)
    else None
  }

  function ConfirmedAt(s: Option<TxStatus>): Option<u64> {
    if s.Some? && s.value.confirmed then s.value.blockHeight else None
  }

  /** What is reported once an unspent funding output with this txid and value is located. */
  function Judge(r: Reads, sec: Option<Reads>, w: Watch, txid: Txid, value: u64): Observation {
    var status := r.txStatus(txid);
    if status.None? then Absent
    else if ConfirmedAt(status).None? then Found(value, w.cltv, 0)
    else if r.tipHeight.None? then Absent
    else
      var block := ConfirmedAt(status).value;
      if sec.None? then Found(value, w.cltv, Depth(r.tipHeight.value, block))
      else if ConfirmedAt(sec.value.txStatus(txid)) != Some(block) || sec.value.tipHeight.None? then Absent
      else Found(value, w.cltv, Depth(Min(r.tipHeight.value, sec.value.tipHeight.value), block))
  }

  ghost function Observed(r: Reads, sec: Option<Reads>, w: Watch, expected: seq<byte>): Observation {
    if w.hashlock != expected || r.addressTxs.None? then Absent
    else
      var txs := r.addressTxs.value;
      match TheFunding(txs, w.script)
      case None => if SomeWrong(txs, w.script) then Mismatch(Recipient) else Absent
      case Some(f) =>
        if !ExactAt(txs, w.script, f) || SpentIn(txs, OutPoint(txs[f.tx].txid, f.vout)) then Absent
        else Judge(r, sec, w, txs[f.tx].txid, txs[f.tx].outputs[f.vout].valueSat)
  }

  method ObserveBtc(r: Reads, sec: Option<Reads>, w: Watch, expected: seq<byte>) returns (o: Observation)
    ensures o == Observed(r, sec, w, expected)
  {
    if w.hashlock != expected {
      return Absent;
    }
    if r.addressTxs.None? {
      return Absent;
    }
    var txs := r.addressTxs.value;
    var funding, wrong := Scan(txs, w.script);
    if funding.None? {
      if wrong {
        return Mismatch(Recipient);
      }
      return Absent;
    }
    var f := funding.value;
    TheFundingIs(txs, w.script, f);
    var txid := txs[f.tx].txid;
    var point := OutPoint(txid, f.vout);
    if exists i :: 0 <= i < |txs| && point in txs[i].spends {
      return Absent;
    }
    var value := txs[f.tx].outputs[f.vout].valueSat;
    var status := r.txStatus(txid);
    if status.None? {
      return Absent;
    }
    if !status.value.confirmed || status.value.blockHeight.None? {
      return Found(value, w.cltv, 0);
    }
    var block := status.value.blockHeight.value;
    if r.tipHeight.None? {
      return Absent;
    }
    var tip := r.tipHeight.value;
    if sec.Some? {
      var second := sec.value.txStatus(txid);
      if second.None? || !second.value.confirmed || second.value.blockHeight != Some(block) {
        return Absent;
      }
      if sec.value.tipHeight.None? {
        return Absent;
      }
      tip := Min(tip, sec.value.tipHeight.value);
    }
    return Found(value, w.cltv, Depth(tip, block));
  }

  // ----- what a verdict means -----

  /** The sources say enough about `txid` to report it: it is unconfirmed, or the tip is known and a
      second source, if wired, names the same block and a tip of its own. */
  predicate Reportable(r: Reads, sec: Option<Reads>, txid: Txid) {
    && r.txStatus(txid).Some?
    && (ConfirmedAt(r.txStatus(txid)).Some? ==>
          && r.tipHeight.Some?
          && (sec.Some? ==> sec.value.tipHeight.Some?
                            && ConfirmedAt(sec.value.txStatus(txid)) == ConfirmedAt(r.txStatus(txid))))
  }

  /** The output `f` backs a report: first exact-script output, no listed spend of it, reportable. */
  ghost predicate Backs(r: Reads, sec: Option<Reads>, w: Watch, f: Place) {
    && r.addressTxs.Some? && FirstExact(r.addressTxs.value, w.script, f)
    && var txid := r.addressTxs.value[f.tx].txid;
    && !SpentIn(r.addressTxs.value, OutPoint(txid, f.vout))
    && Reportable(r, sec, txid)
  }

  /** Found exactly when some output backs the report, and then with its value and the agreed timeout;
      Mismatch exactly when there is no exact output but a P2WSH output with another script. */
  lemma VerdictIsFaithful(r: Reads, sec: Option<Reads>, w: Watch, expected: seq<byte>)
    ensures var o := Observed(r, sec, w, expected);
            && (o.Found? <==> w.hashlock == expected && exists f :: Backs(r, sec, w, f))
            && (o.Found? ==> o.timeout == w.cltv && forall f :: Backs(r, sec, w, f) ==>
                  o.amount == r.addressTxs.value[f.tx].outputs[f.vout].valueSat)
            && (o.Mismatch? <==>
                  w.hashlock == expected && r.addressTxs.Some? && SomeWrong(r.addressTxs.value, w.script)
                  && NoneExact(r.addressTxs.value, w.script))
  {
    if r.addressTxs.Some? {
      var txs := r.addressTxs.value;
      FundingExists(txs, w.script);
      forall f | FirstExact(txs, w.script, f) ensures TheFunding(txs, w.script) == Some(f) {
        TheFundingIs(txs, w.script, f);
      }
      var o := Observed(r, sec, w, expected);
      if o.Found? {
        var f := TheFunding(txs, w.script).value;
        assert Backs(r, sec, w, f);
      }
    }
  }

  lemma TheFundingIs(txs: seq<AddressTx>, script: seq<byte>, f: Place)
    requires FirstExact(txs, script, f)
    ensures TheFunding(txs, script) == Some(f)
  {
    var g :| FirstExact(txs, script, g) && TheFunding(txs, script) == Some(g);
    FirstExactUnique(txs, script, f, g);
  }

  /** Among finitely many outputs, an exact one implies a first exact one. */
  lemma FundingExists(txs: seq<AddressTx>, script: seq<byte>)
    ensures NoneExact(txs, script) || exists f :: FirstExact(txs, script, f)
  {
    if !NoneExact(txs, script) {
      var g :| ExactAt(txs, script, g);
      var f := Earliest(txs, script, g);
    }
  }

  lemma Earliest(txs: seq<AddressTx>, script: seq<byte>, g: Place) returns (f: Place)
    requires ExactAt(txs, script, g)
    ensures FirstExact(txs, script, f)
    decreases g.tx, g.vout
  {
    if h :| ExactAt(txs, script, h) && Before(h, g) {
      f := Earliest(txs, script, h);
    } else {
      f := g;
      forall h | ExactAt(txs, script, h) ensures f == h || Before(f, h) {
      }
    }
  }

  /** With a second source, positive confirmations mean both sources name the same block, and the
      depth is counted from the lower tip. */
  lemma DepthNeedsAgreement(r: Reads, sec: Reads, w: Watch, expected: seq<byte>)
    requires var o := Observed(r, Some(sec), w, expected); o.Found? && o.confirmations > 0
    ensures exists f :: Backs(r, Some(sec), w, f)
              && var txid := r.addressTxs.value[f.tx].txid;
                 var block := ConfirmedAt(r.txStatus(txid));
                 && block.Some? && ConfirmedAt(sec.txStatus(txid)) == block
                 && Observed(r, Some(sec), w, expected).confirmations
                    == Depth(Min(r.tipHeight.value, sec.tipHeight.value), block.value)
  {
    VerdictIsFaithful(r, Some(sec), w, expected);
    var f :| Backs(r, Some(sec), w, f);
    TheFundingIs(r.addressTxs.value, w.script, f);
  }

  /** The lowest tip any wired source reports. */
  function LowestTip(r: Reads, sec: Option<Reads>): Option<u64> {
    if r.tipHeight.None? then None
    else if sec.None? then r.tipHeight
    else if sec.value.tipHeight.None? then None
    else if sec.value.tipHeight.value < r.tipHeight.value then sec.value.tipHeight
    else r.tipHeight
  }

  /** The confirmations of every report, with one source or two: none while the first source has the transaction
      unconfirmed, and otherwise the distance of its block from the lowest tip, counting the block itself, never
      below one and cut at 2^32 - 1. */
  lemma ConfirmationsExactly(r: Reads, sec: Option<Reads>, w: Watch, expected: seq<byte>, f: Place)
    requires Observed(r, sec, w, expected).Found? && Backs(r, sec, w, f)
    ensures var status := r.txStatus(r.addressTxs.value[f.tx].txid);
            var n := Observed(r, sec, w, expected).confirmations;
            && status.Some?
            && (!status.value.confirmed || status.value.blockHeight.None? ==> n == 0)
            && (status.value.confirmed && status.value.blockHeight.Some? ==>
                  && LowestTip(r, sec).Some?
                  && var tip, block := LowestTip(r, sec).value, status.value.blockHeight.value;
                     n == if tip <= block then 1
                          else if tip - block + 1 > 0xFFFF_FFFF then 0xFFFF_FFFF else tip - block + 1)
  {
    TheFundingIs(r.addressTxs.value, w.script, f);
  }

  /** A P2WSH output script is version 0 and a 32-byte program, and nothing else is one. */
  lemma P2wshIff(script: seq<byte>)
    ensures IsP2wsh(script) <==> exists program: seq<byte> :: |program| == 32 && script == [0x00, 0x20] + program
  {
    if IsP2wsh(script) {
      assert script == [0x00, 0x20] + script[2..] && |script[2..]| == 32;
    }
  }

  /** A second source only ever takes away: whatever it lets through, the first source alone reports
      with the same terms and at least as many confirmations. */
  lemma SecondSourceNeverRaises(r: Reads, sec: Reads, w: Watch, expected: seq<byte>)
    ensures var o, alone := Observed(r, Some(sec), w, expected), Observed(r, None, w, expected);
            && (o.Found? ==> alone.Found? && alone.amount == o.amount && alone.timeout == o.timeout
                             && o.confirmations <= alone.confirmations)
            && (o.Mismatch? ==> alone == o)
            && (alone.Absent? ==> o.Absent?)
  {
    if r.addressTxs.Some? {
      var f := TheFunding(r.addressTxs.value, w.script);
      if f.Some? && ExactAt(r.addressTxs.value, w.script, f.value) {
        JudgeNeverRaises(r, sec, w, r.addressTxs.value[f.value.tx].txid,
                         r.addressTxs.value[f.value.tx].outputs[f.value.vout].valueSat);
      }
    }
  }

  lemma JudgeNeverRaises(r: Reads, sec: Reads, w: Watch, txid: Txid, value: u64)
    ensures var o, alone := Judge(r, Some(sec), w, txid, value), Judge(r, None, w, txid, value);
            && !o.Mismatch? && !alone.Mismatch?
            && (o.Found? ==> alone.Found? && alone.amount == o.amount && alone.timeout == o.timeout
                             && o.confirmations <= alone.confirmations)
            && (alone.Absent? ==> o.Absent?)
  {
    if r.tipHeight.Some? && sec.tipHeight.Some? && ConfirmedAt(r.txStatus(txid)).Some? {
      var tip, block := r.tipHeight.value, ConfirmedAt(r.txStatus(txid)).value;
      DepthMonotone(Min(tip, sec.tipHeight.value), tip, block);
    }
  }
}
