/** Reading RLP back (Appendix B of the Ethereum Yellow Paper): what a node that receives a transaction makes of
    the bytes `evm_rlp.rs` writes. */
module RlpRead {
  import opened Bytes
  import opened Rlp

  datatype Taken = Taken(data: seq<byte>, used: nat)

  /** The byte string at the front of `b`. */
  function TakeText(b: seq<byte>): (r: Option<Taken>)
    ensures r.Some? ==> 0 < r.value.used <= |b|
  {
    match ShapeOf(b)
    case Some(Single) => Some(Taken(b[..1], 1))
    case Some(Str(h, n)) => if 0 < h && h + n <= |b| then Some(Taken(b[h..h + n], h + n)) else None
    case _ => None
  }

  function TakeTexts(b: seq<byte>): Option<seq<seq<byte>>>
    decreases |b|
  {
    if b == [] then Some([])
    else
      var first := TakeText(b);
      if first.None? then None
      else
        var rest := TakeTexts(b[first.value.used..]);
        if rest.None? then None else Some([first.value.data] + rest.value)
  }

  /** A list of byte strings that fills `b` exactly. */
  function ReadList(b: seq<byte>): Option<seq<seq<byte>>> {
    match ShapeOf(b)
    case Some(Lst(h, n)) => if h <= |b| && h + n == |b| then TakeTexts(b[h..]) else None
    case _ => None
  }

  function Data(xs: seq<Item>): seq<seq<byte>>
    requires forall i :: 0 <= i < |xs| ==> xs[i].Text?
  {
    if xs == [] then [] else [xs[0].data] + Data(xs[1..])
  }

  lemma TakeTextInverts(d: seq<byte>, rest: seq<byte>)
    requires Sized(|d|)
    ensures TakeText(RlpBytes(d) + rest) == Some(Taken(d, |RlpBytes(d)|))
  {
    TextShape(d, rest);
    var b := RlpBytes(d) + rest;
    if |d| == 1 && d[0] < 0x80 {
      assert b[..1] == d;
    } else {
      var h := |Prefix(|d|, 0x80)|;
      assert b[h..h + |d|] == d;
    }
  }

  lemma {:induction false} TakeTextsInverts(xs: seq<Item>)
    requires AllFit(xs) && forall i :: 0 <= i < |xs| ==> xs[i].Text?
    ensures TakeTexts(EncodeAll(xs)) == Some(Data(xs))
    decreases |xs|
  {
    if xs != [] {
      var one, rest := RlpBytes(xs[0].data), EncodeAll(xs[1..]);
      TakeTextInverts(xs[0].data, rest);
      assert EncodeAll(xs) == one + rest && (one + rest)[|one|..] == rest;
      TakeTextsInverts(xs[1..]);
    }
  }

  lemma ReadListInverts(xs: seq<Item>)
    requires Fits(List(xs)) && forall i :: 0 <= i < |xs| ==> xs[i].Text?
    ensures ReadList(Encode(List(xs))) == Some(Data(xs))
  {
    ListShape(xs, []);
    var body := EncodeAll(xs);
    var head := Prefix(|body|, 0xc0);
    assert Encode(List(xs)) + [] == Encode(List(xs)) == head + body;
    assert (head + body)[|head|..] == body;
    TakeTextsInverts(xs);
  }

  lemma {:induction false} DataAt(xs: seq<Item>, i: nat)
    requires (forall j :: 0 <= j < |xs| ==> xs[j].Text?) && i < |xs|
    ensures |Data(xs)| == |xs| && Data(xs)[i] == xs[i].data
    decreases |xs|
  {
    if i > 0 {
      DataAt(xs[1..], i - 1);
    } else if |xs| > 1 {
      DataAt(xs[1..], 0);
    }
  }

  /** The six fields every form starts with, in the order of the Yellow Paper. */
  ghost predicate StartsWith(fs: seq<seq<byte>>, t: LegacyTx) {
    && |fs| == 9
    && FromBE(fs[0]) == t.nonce && FromBE(fs[1]) == t.gasPrice && FromBE(fs[2]) == t.gasLimit
    && fs[3] == t.to && FromBE(fs[4]) == t.value && fs[5] == t.data
  }

  lemma TextsReadBack(xs: seq<Item>) returns (fs: seq<seq<byte>>)
    requires Fits(List(xs)) && forall i :: 0 <= i < |xs| ==> xs[i].Text?
    ensures ReadList(Encode(List(xs))) == Some(fs) && |fs| == |xs|
    ensures forall i :: 0 <= i < |xs| ==> fs[i] == xs[i].data
  {
    ReadListInverts(xs);
    fs := Data(xs);
    if xs != [] {
      DataAt(xs, 0);
    }
    forall i | 0 <= i < |xs| ensures fs[i] == xs[i].data {
      DataAt(xs, i);
    }
  }

  /** The items of a transaction form with `a`, `b`, `c` last. */
  function Nine(t: LegacyTx, a: Item, b: Item, c: Item): (xs: seq<Item>)
    ensures |xs| == 9
  {
    CommonItems(t) + [a, b, c]
  }

  lemma NineAre(t: LegacyTx, a: Item, b: Item, c: Item)
    ensures var xs := Nine(t, a, b, c);
            && xs[0] == IntItem(t.nonce) && xs[1] == IntItem(t.gasPrice) && xs[2] == IntItem(t.gasLimit)
            && xs[3] == Text(t.to) && xs[4] == IntItem(t.value) && xs[5] == Text(t.data)
            && xs[6] == a && xs[7] == b && xs[8] == c
  {
  }

  lemma ItemsReadBack(t: LegacyTx, a: Item, b: Item, c: Item) returns (fs: seq<seq<byte>>)
    requires a.Text? && b.Text? && c.Text? && Fits(List(Nine(t, a, b, c)))
    ensures ReadList(Encode(List(Nine(t, a, b, c)))) == Some(fs)
    ensures StartsWith(fs, t) && fs[6] == a.data && fs[7] == b.data && fs[8] == c.data
  {
    NineAre(t, a, b, c);
    fs := TextsReadBack(Nine(t, a, b, c));
  }

  lemma SigningIs(t: LegacyTx)
    requires Fits(SigningItem(t))
    ensures SigningItem(t) == List(Nine(t, IntItem(t.chainId), IntItem(0), IntItem(0)))
    ensures SigningRlp(t) == Encode(SigningItem(t))
  {
    RlpListIsEncode(SigningItem(t).items);
  }

  lemma SignedIs(t: LegacyTx, r: Word32, s: Word32, i: byte)
    requires Fits(SignedItem(t, r, s, i))
    ensures SignedItem(t, r, s, i) ==
            List(Nine(t, IntItem(Eip155V(i, t.chainId)), Text(Stripped(r)), Text(Stripped(s))))
    ensures SignedTxRlp(t, r, s, i) == Encode(SignedItem(t, r, s, i))
  {
    RlpListIsEncode(SignedItem(t, r, s, i).items);
  }

  /** The signing payload reads back as nonce, gas price, gas limit, recipient, value, data, chain id, 0, 0. */
  lemma SigningReadsBack(t: LegacyTx) returns (fs: seq<seq<byte>>)
    requires Fits(SigningItem(t))
    ensures ReadList(SigningRlp(t)) == Some(fs) && StartsWith(fs, t)
    ensures FromBE(fs[6]) == t.chainId && fs[7] == [] && fs[8] == []
  {
    SigningIs(t);
    fs := ItemsReadBack(t, IntItem(t.chainId), IntItem(0), IntItem(0));
  }

  /** The raw signed transaction reads back as the same six fields, then v, r and s, in this order. */
  lemma SignedReadsBack(t: LegacyTx, r: Word32, s: Word32, recoveryId: byte) returns (fs: seq<seq<byte>>)
    requires Fits(SignedItem(t, r, s, recoveryId))
    ensures ReadList(SignedTxRlp(t, r, s, recoveryId)) == Some(fs) && StartsWith(fs, t)
    ensures FromBE(fs[6]) == (recoveryId + t.chainId * 2 + 35) % (U64_MAX + 1)
    ensures FromBE(fs[7]) == FromBE(r) && FromBE(fs[8]) == FromBE(s)
    ensures (fs[7] != [] ==> fs[7][0] != 0) && (fs[8] != [] ==> fs[8][0] != 0)
  {
    SignedIs(t, r, s, recoveryId);
    fs := LastThree(t, Eip155V(recoveryId, t.chainId), Stripped(r), Stripped(s));
    StrippedValue(r);
    StrippedValue(s);
  }

  lemma LastThree(t: LegacyTx, v: u64, x: seq<byte>, y: seq<byte>) returns (fs: seq<seq<byte>>)
    requires Fits(List(Nine(t, IntItem(v), Text(x), Text(y))))
    ensures ReadList(Encode(List(Nine(t, IntItem(v), Text(x), Text(y))))) == Some(fs)
    ensures StartsWith(fs, t) && FromBE(fs[6]) == v && fs[7] == x && fs[8] == y
  {
    fs := ItemsReadBack(t, IntItem(v), Text(x), Text(y));
  }

  /** Canonical encodings, byte for byte: the empty string, a short string, a byte below 0x80, the empty list. */
  lemma CanonicalBytes()
    ensures RlpBytes([]) == [0x80] && RlpBytes([0x64, 0x6f, 0x67]) == [0x83, 0x64, 0x6f, 0x67]
    ensures RlpBytes([0x0f]) == [0x0f] && RlpBytes([0x80]) == [0x81, 0x80] && RlpList([]) == [0xc0]
  {
    assert Concat([]) == [];
  }
}
