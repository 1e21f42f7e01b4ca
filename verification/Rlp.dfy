/** Recursive length prefix encoding and EIP-155 legacy transactions (`evm_rlp.rs`).

    The encoding is proved uniquely decodable and prefix-free on all nested byte strings and lists,
    so what a wallet signs or broadcasts determines the transaction. */
module Rlp {
  import opened Bytes

  /** A `usize` length. */
  predicate Sized(n: nat) { n <= U64_MAX }

  // ----- minimal big-endian numbers -----

  function MinimalBE(v: nat): (s: seq<byte>)
    ensures s == [] <==> v == 0
    ensures s != [] ==> s[0] != 0
    ensures FromBE(s) == v
  {
    if v == 0 then []
    else
      var init := MinimalBE(v / 256);
      assert (init + [v % 256])[..|init|] == init;
      init + [v % 256]
  }

  lemma {:induction false} MinimalLength(v: nat, k: nat)
    requires v < Pow256(k)
    ensures |MinimalBE(v)| <= k
    decreases k
  {
    if v > 0 {
      MinimalLength(v / 256, k - 1);
    }
  }

  /** Drops the leading zeros of a byte string. */
  method StripLeadingZeros(be: seq<byte>) returns (r: seq<byte>)
    ensures r == Stripped(be)
  {
    var first := 0;
    while first < |be| && be[first] == 0
      invariant 0 <= first <= |be|
      invariant Stripped(be) == Stripped(be[first..])
    {
      assert be[first..][1..] == be[first + 1..];
      first := first + 1;
    }
    r := be[first..];
  }

  function Stripped(be: seq<byte>): (r: seq<byte>)
    ensures r != [] ==> r[0] != 0
    ensures |r| <= |be|
  {
    if be != [] && be[0] == 0 then Stripped(be[1..]) else be
  }

  lemma {:induction false} StrippedValue(be: seq<byte>)
    ensures FromBE(Stripped(be)) == FromBE(be)
    decreases |be|
  {
    if be != [] && be[0] == 0 {
      assert be == [0] + be[1..];
      LeadingZeros([0], be[1..]);
      StrippedValue(be[1..]);
    }
  }

  lemma {:induction false} LeadingDigitBound(s: seq<byte>)
    requires s != [] && s[0] != 0
    ensures FromBE(s) >= Pow256(|s| - 1)
    decreases |s|
  {
    var init := s[..|s| - 1];
    if init != [] {
      LeadingDigitBound(init);
    }
  }

  /** A number has one representation without leading zeros. */
  lemma {:induction false} MinimalIsUnique(s: seq<byte>)
    requires s != [] ==> s[0] != 0
    ensures MinimalBE(FromBE(s)) == s
    decreases |s|
  {
    if s != [] {
      var init, last := s[..|s| - 1], s[|s| - 1];
      LeadingDigitBound(s);
      MinimalIsUnique(init);
      assert FromBE(s) / 256 == FromBE(init) && FromBE(s) % 256 == last;
      assert s == init + [last];
    }
  }

  /** Stripping the fixed-width form gives the minimal form. */
  lemma MinimalIsStripped(v: u64)
    ensures Stripped(ToBE(v, 8)) == MinimalBE(v)
  {
    Pow256Values();
    FromToBE(v, 8);
    StrippedValue(ToBE(v, 8));
    MinimalIsUnique(Stripped(ToBE(v, 8)));
  }

  /** `minimal_be`: the eight-byte form without its leading zeros is the minimal form. */
  method MinimalBe(v: u64) returns (r: seq<byte>)
    ensures r == MinimalBE(v) && |r| <= 8
  {
    if v == 0 {
      return [];
    }
    r := StripLeadingZeros(ToBE(v, 8));
    MinimalIsStripped(v);
  }

  /** `rlp_length`: one byte for a short payload, else the length of the length and the length. */
  method RlpLength(len: nat, offset: byte) returns (out: seq<byte>)
    requires Sized(len) && (offset == 0x80 || offset == 0xc0)
    ensures out == Prefix(len, offset)
  {
    if len < 56 {
      return [offset + len];
    }
    var be := MinimalBe(len);
    out := [offset + 55 + |be|];
    out := out + be;
  }

  // ----- the encoder -----

  function Prefix(len: nat, offset: byte): (p: seq<byte>)
    requires Sized(len) && (offset == 0x80 || offset == 0xc0)
    ensures p != []
  {
    if len < 56 then [offset + len]
    else
      Pow256Values();
      MinimalLength(len, 8);
      [offset + 55 + |MinimalBE(len)|] + MinimalBE(len)
  }

  function RlpBytes(data: seq<byte>): (r: seq<byte>)
    requires Sized(|data|)
    ensures r != []
  {
    if |data| == 1 && data[0] < 0x80 then data else Prefix(|data|, 0x80) + data
  }

  function Concat(items: seq<seq<byte>>): seq<byte> {
    if items == [] then [] else Concat(items[..|items| - 1]) + items[|items| - 1]
  }

  function RlpList(items: seq<seq<byte>>): (r: seq<byte>)
    requires Sized(|Concat(items)|)
    ensures r != []
  {
    Prefix(|Concat(items)|, 0xc0) + Concat(items)
  }

  method EncodeList(items: seq<seq<byte>>) returns (out: seq<byte>)
    requires Sized(|Concat(items)|)
    ensures out == RlpList(items)
  {
    var payloadLen, i := 0, 0;
    while i < |items|
      invariant 0 <= i <= |items| && payloadLen == |Concat(items[..i])|
    {
      assert items[..i + 1][..i] == items[..i];
      payloadLen := payloadLen + |items[i]|;
      i := i + 1;
    }
    assert items[..|items|] == items;
    var head := RlpLength(payloadLen, 0xc0);
    out := head;
    i := 0;
    while i < |items|
      invariant 0 <= i <= |items| && out == head + Concat(items[..i])
    {
      assert items[..i + 1][..i] == items[..i];
      out := out + items[i];
      i := i + 1;
    }
  }

  // ----- reading an item back off the front of a byte string -----

  /** What the first byte of an item announces. */
  datatype Shape = Single | Str(headLen: nat, len: nat) | Lst(headLen: nat, len: nat)

  /** The shape of the item at the front of `b`, when its length prefix is all there. */
  function ShapeOf(b: seq<byte>): Option<Shape> {
    if b == [] then None
    else
      var t: int := b[0];
      if t < 0x80 then Some(Single)
      else if t < 0xb8 then Some(Str(1, t - 0x80))
      else if t < 0xc0 then
        if |b| < t - 0xb6 then None else Some(Str(t - 0xb6, FromBE(b[1..t - 0xb6])))
      else if t < 0xf8 then Some(Lst(1, t - 0xc0))
      else if |b| < t - 0xf6 then None
      else Some(Lst(t - 0xf6, FromBE(b[1..t - 0xf6])))
  }

  lemma PrefixShape(len: nat, offset: byte, rest: seq<byte>)
    requires Sized(len) && (offset == 0x80 || offset == 0xc0)
    ensures var p := Prefix(len, offset);
            ShapeOf(p + rest) == Some(if offset == 0x80 then Str(|p|, len) else Lst(|p|, len))
  {
    var p := Prefix(len, offset);
    var b := p + rest;
    if len >= 56 {
      Pow256Values();
      MinimalLength(len, 8);
      var m := MinimalBE(len);
      assert b[1..1 + |m|] == m;
      assert b[0] as int == offset as int + 55 + |m|;
    }
  }

  // ----- nested items -----

  datatype Item = Text(data: seq<byte>) | List(items: seq<Item>)

  function Encode(x: Item): (r: seq<byte>)
    requires Fits(x)
    ensures r != []
    decreases x, 2
  {
    match x
    case Text(d) => RlpBytes(d)
    case List(xs) => Prefix(|EncodeAll(xs)|, 0xc0) + EncodeAll(xs)
  }

  function EncodeAll(xs: seq<Item>): seq<byte>
    requires AllFit(xs)
    decreases xs, 2
  {
    if xs == [] then [] else Encode(xs[0]) + EncodeAll(xs[1..])
  }

  /** Every length in the encoding is a machine length. */
  predicate Fits(x: Item)
    decreases x, 1
  {
    match x
    case Text(d) => Sized(|d|)
    case List(xs) => AllFit(xs) && Sized(|EncodeAll(xs)|)
  }

  predicate AllFit(xs: seq<Item>)
    decreases xs, 0
  {
    xs == [] || (Fits(xs[0]) && AllFit(xs[1..]))
  }

  /** The items of a list, each already encoded: the argument `rlp_list` takes. */
  function Encodes(xs: seq<Item>): seq<seq<byte>>
    requires AllFit(xs)
  {
    if xs == [] then [] else [Encode(xs[0])] + Encodes(xs[1..])
  }

  lemma {:induction false} ConcatCons(x: seq<byte>, ys: seq<seq<byte>>)
    ensures Concat([x] + ys) == x + Concat(ys)
    decreases |ys|
  {
    if ys == [] {
      assert [x] + ys == [x] && [x][..0] == [];
      assert Concat([x]) == Concat([x][..0]) + x;
    } else {
      var init := ys[..|ys| - 1];
      assert ([x] + ys)[..|ys|] == [x] + init;
      ConcatCons(x, init);
    }
  }

  lemma {:induction false} ConcatEncodes(xs: seq<Item>)
    requires AllFit(xs)
    ensures Concat(Encodes(xs)) == EncodeAll(xs)
    decreases |xs|
  {
    if xs != [] {
      ConcatEncodes(xs[1..]);
      ConcatCons(Encode(xs[0]), Encodes(xs[1..]));
    }
  }

  /** Encoding the items and then the list is encoding the nested item. */
  lemma RlpListIsEncode(xs: seq<Item>)
    requires Fits(List(xs))
    ensures Sized(|Concat(Encodes(xs))|) && RlpList(Encodes(xs)) == Encode(List(xs))
  {
    ConcatEncodes(xs);
  }

  lemma TextShape(d: seq<byte>, rest: seq<byte>)
    requires Sized(|d|)
    ensures var s := ShapeOf(RlpBytes(d) + rest);
            if |d| == 1 && d[0] < 0x80 then s == Some(Single)
            else s == Some(Str(|Prefix(|d|, 0x80)|, |d|))
  {
    if !(|d| == 1 && d[0] < 0x80) {
      assert RlpBytes(d) + rest == Prefix(|d|, 0x80) + (d + rest);
      PrefixShape(|d|, 0x80, d + rest);
    }
  }

  lemma ListShape(xs: seq<Item>, rest: seq<byte>)
    requires Fits(List(xs))
    ensures ShapeOf(Encode(List(xs)) + rest) == Some(Lst(|Prefix(|EncodeAll(xs)|, 0xc0)|, |EncodeAll(xs)|))
  {
    var body := EncodeAll(xs);
    assert Encode(List(xs)) + rest == Prefix(|body|, 0xc0) + (body + rest);
    PrefixShape(|body|, 0xc0, body + rest);
  }

  lemma TextUnique(d: seq<byte>, e: seq<byte>, x: seq<byte>, y: seq<byte>)
    requires Sized(|d|) && Sized(|e|) && RlpBytes(d) + x == RlpBytes(e) + y
    ensures d == e && x == y
  {
    TextShape(d, x);
    TextShape(e, y);
    var b := RlpBytes(d) + x;
    if |d| == 1 && d[0] < 0x80 {
      assert b[0] == d[0] && b[0] == e[0];
      assert b[1..] == x && b[1..] == y;
    } else {
      var h := |Prefix(|d|, 0x80)|;
      assert |Prefix(|e|, 0x80)| == h && |e| == |d|;
      assert b[h..h + |d|] == d && b[h..h + |d|] == e;
      assert b[h + |d|..] == x && b[h + |d|..] == y;
    }
  }

  /** Unique decodability and prefix-freedom, for all nested items at once: an encoding followed by
      anything determines both the item and what follows. */
  lemma {:induction false} Unique(a: Item, b: Item, x: seq<byte>, y: seq<byte>)
    requires Fits(a) && Fits(b) && Encode(a) + x == Encode(b) + y
    ensures a == b && x == y
    decreases a, 1
  {
    match (a, b)
    case (Text(d), Text(e)) => TextUnique(d, e, x, y);
    case (List(xs), List(ys)) =>
      ListShape(xs, x);
      ListShape(ys, y);
      var whole := Encode(a) + x;
      var h, n := |Prefix(|EncodeAll(xs)|, 0xc0)|, |EncodeAll(xs)|;
      assert |Prefix(|EncodeAll(ys)|, 0xc0)| == h && |EncodeAll(ys)| == n;
      assert whole[h..h + n] == EncodeAll(xs) && whole[h..h + n] == EncodeAll(ys);
      assert whole[h + n..] == x && whole[h + n..] == y;
      UniqueAll(xs, ys);
    case (Text(d), List(ys)) =>
      TextShape(d, x);
      ListShape(ys, y);
    case (List(xs), Text(e)) =>
      ListShape(xs, x);
      TextShape(e, y);
  }

  lemma {:induction false} UniqueAll(xs: seq<Item>, ys: seq<Item>)
    requires AllFit(xs) && AllFit(ys) && EncodeAll(xs) == EncodeAll(ys)
    ensures xs == ys
    decreases xs, 0
  {
    if xs != [] && ys != [] {
      Unique(xs[0], ys[0], EncodeAll(xs[1..]), EncodeAll(ys[1..]));
      UniqueAll(xs[1..], ys[1..]);
      assert xs == [xs[0]] + xs[1..] && ys == [ys[0]] + ys[1..];
    }
  }

  // ----- legacy transactions -----

  type Address20 = s: seq<byte> | |s| == 20 witness seq(20, i => 0)
  type Word32 = s: seq<byte> | |s| == 32 witness seq(32, i => 0)

  datatype LegacyTx = LegacyTx(nonce: u64, gasPrice: u64, gasLimit: u64, to: Address20, value: u64,
                               data: seq<byte>, chainId: u64)

  /** `recovery_id + chain_id * 2 + 35` in 64-bit arithmetic, wrapping as a release build does. */
  function Eip155V(recoveryId: byte, chainId: u64): u64 {
    (recoveryId + chainId * 2 + 35) % (U64_MAX + 1)
  }

  predicate NoOverflow(recoveryId: byte, chainId: u64) {
    recoveryId + chainId * 2 + 35 <= U64_MAX
  }

  function IntItem(v: u64): Item { Text(MinimalBE(v)) }

  function CommonItems(t: LegacyTx): seq<Item> {
    [IntItem(t.nonce), IntItem(t.gasPrice), IntItem(t.gasLimit), Text(t.to), IntItem(t.value), Text(t.data)]
  }

  function SigningItem(t: LegacyTx): Item {
    List(CommonItems(t) + [IntItem(t.chainId), IntItem(0), IntItem(0)])
  }

  function SignedItem(t: LegacyTx, r: Word32, s: Word32, recoveryId: byte): Item {
    List(CommonItems(t) + [IntItem(Eip155V(recoveryId, t.chainId)), Text(Stripped(r)), Text(Stripped(s))])
  }

  function SigningRlp(t: LegacyTx): seq<byte>
    requires Fits(SigningItem(t))
  {
    RlpListIsEncode(SigningItem(t).items);
    RlpList(Encodes(SigningItem(t).items))
  }

  function SignedTxRlp(t: LegacyTx, r: Word32, s: Word32, recoveryId: byte): seq<byte>
    requires Fits(SignedItem(t, r, s, recoveryId))
  {
    RlpListIsEncode(SignedItem(t, r, s, recoveryId).items);
    RlpList(Encodes(SignedItem(t, r, s, recoveryId).items))
  }

  /** A bound on the encoding of byte strings: each with at most nine bytes of prefix. */
  function Budget(xs: seq<Item>): nat {
    if xs == [] then 0 else (if xs[0].Text? then |xs[0].data| + 9 else 0) + Budget(xs[1..])
  }

  lemma {:induction false} TextsFit(xs: seq<Item>)
    requires (forall i :: 0 <= i < |xs| ==> xs[i].Text?) && Budget(xs) <= U64_MAX
    ensures AllFit(xs) && |EncodeAll(xs)| <= Budget(xs)
    decreases |xs|
  {
    if xs != [] {
      assert xs[0].Text?;
      TextsFit(xs[1..]);
      PrefixIsShort(|xs[0].data|);
    }
  }

  lemma PrefixIsShort(len: nat)
    requires Sized(len)
    ensures |Prefix(len, 0x80)| <= 9
  {
    Pow256Values();
    MinimalLength(len, 8);
  }

  lemma {:induction false} BudgetAppend(xs: seq<Item>, x: Item)
    requires x.Text?
    ensures Budget(xs + [x]) == Budget(xs) + |x.data| + 9
    decreases |xs|
  {
    if xs == [] {
      assert xs + [x] == [x] && [x][1..] == [];
    } else {
      assert (xs + [x])[1..] == xs[1..] + [x];
      BudgetAppend(xs[1..], x);
    }
  }

  lemma IntIsShort(v: u64)
    ensures |MinimalBE(v)| <= 8
  {
    Pow256Values();
    MinimalLength(v, 8);
  }

  lemma BudgetThree(xs: seq<Item>, a: Item, b: Item, c: Item)
    requires a.Text? && b.Text? && c.Text?
    ensures Budget(xs + [a, b, c]) == Budget(xs) + |a.data| + |b.data| + |c.data| + 27
  {
    BudgetAppend(xs, a);
    BudgetAppend(xs + [a], b);
    BudgetAppend(xs + [a] + [b], c);
    assert xs + [a] + [b] + [c] == xs + [a, b, c];
  }

  lemma CommonBudget(t: LegacyTx)
    ensures Budget(CommonItems(t)) <= |t.to| + |t.data| + 100
  {
    IntIsShort(t.nonce);
    IntIsShort(t.gasPrice);
    IntIsShort(t.gasLimit);
    IntIsShort(t.value);
    var head := [IntItem(t.nonce), IntItem(t.gasPrice), IntItem(t.gasLimit)];
    BudgetThree([], IntItem(t.nonce), IntItem(t.gasPrice), IntItem(t.gasLimit));
    assert [] + head == head;
    BudgetThree(head, Text(t.to), IntItem(t.value), Text(t.data));
    assert head + [Text(t.to), IntItem(t.value), Text(t.data)] == CommonItems(t);
  }

  lemma ThreeMore(t: LegacyTx, a: Item, b: Item, c: Item)
    requires a.Text? && b.Text? && c.Text? && |a.data| <= 32 && |b.data| <= 32 && |c.data| <= 32
    requires |t.to| + |t.data| <= U64_MAX - 1000
    ensures Fits(List(CommonItems(t) + [a, b, c]))
  {
    var xs := CommonItems(t);
    CommonBudget(t);
    BudgetThree(xs, a, b, c);
    TextsFit(xs + [a, b, c]);
  }

  /** Every transaction fits whose data leaves a thousand bytes of the machine's range: the hypothesis of the
      results below excludes nothing that can be held in memory. */
  lemma TransactionsFit(t: LegacyTx, r: Word32, s: Word32, recoveryId: byte)
    requires |t.to| + |t.data| <= U64_MAX - 1000
    ensures Fits(SigningItem(t)) && Fits(SignedItem(t, r, s, recoveryId))
  {
    IntIsShort(t.chainId);
    IntIsShort(0);
    IntIsShort(Eip155V(recoveryId, t.chainId));
    ThreeMore(t, IntItem(t.chainId), IntItem(0), IntItem(0));
    ThreeMore(t, IntItem(Eip155V(recoveryId, t.chainId)), Text(Stripped(r)), Text(Stripped(s)));
  }

  lemma IntItemInjective(v: nat, u: nat)
    requires MinimalBE(v) == MinimalBE(u)
    ensures v == u
  {
  }

  lemma CommonInjective(t: LegacyTx, u: LegacyTx)
    requires CommonItems(t) == CommonItems(u)
    ensures t == u.(chainId := t.chainId)
  {
    var a, b := CommonItems(t), CommonItems(u);
    assert a[0] == b[0] && a[1] == b[1] && a[2] == b[2] && a[3] == b[3] && a[4] == b[4] && a[5] == b[5];
    IntItemInjective(t.nonce, u.nonce);
    IntItemInjective(t.gasPrice, u.gasPrice);
    IntItemInjective(t.gasLimit, u.gasLimit);
    IntItemInjective(t.value, u.value);
  }

  /** Equal signing payloads, even with trailing bytes, come from equal transactions, chain id included. */
  lemma SigningDeterminesTx(t: LegacyTx, u: LegacyTx, x: seq<byte>, y: seq<byte>)
    requires Fits(SigningItem(t)) && Fits(SigningItem(u)) && SigningRlp(t) + x == SigningRlp(u) + y
    ensures t == u && x == y
  {
    RlpListIsEncode(SigningItem(t).items);
    RlpListIsEncode(SigningItem(u).items);
    Unique(SigningItem(t), SigningItem(u), x, y);
    var a, b := SigningItem(t).items, SigningItem(u).items;
    assert a[..6] == CommonItems(t) && b[..6] == CommonItems(u);
    CommonInjective(t, u);
    assert a[6] == IntItem(t.chainId) && b[6] == IntItem(u.chainId);
    IntItemInjective(t.chainId, u.chainId);
  }

  lemma StrippedInjective(a: Word32, b: Word32)
    requires Stripped(a) == Stripped(b)
    ensures a == b
  {
    StrippedValue(a);
    StrippedValue(b);
    ToFromBE(a);
    ToFromBE(b);
  }

  /** `v` gives back the recovery id and the chain id, as long as it did not wrap. */
  lemma EipRecoverable(i: byte, j: byte, c: u64, d: u64)
    requires i <= 1 && j <= 1 && NoOverflow(i, c) && NoOverflow(j, d) && Eip155V(i, c) == Eip155V(j, d)
    ensures i == j && c == d
    ensures Eip155V(i, c) >= 35 && (Eip155V(i, c) - 35) % 2 == i && (Eip155V(i, c) - 35) / 2 == c
  {
  }

  const HALF_RANGE: nat := 0x8000_0000_0000_0000

  /** The sum before the wrap-around, with the chain id reduced to what can matter. */
  function Unwrapped(i: byte, c: u64): (x: nat)
    requires i <= 1
    ensures 35 <= x <= U64_MAX + 35
  {
    i + 2 * (c % HALF_RANGE) + 35
  }

  lemma WrapsOnce(x: nat)
    ensures (x + (U64_MAX + 1)) % (U64_MAX + 1) == x % (U64_MAX + 1)
  {
  }

  lemma WrapsTo(i: byte, c: u64)
    requires i <= 1
    ensures var x := Unwrapped(i, c); Eip155V(i, c) == if x > U64_MAX then x - (U64_MAX + 1) else x
  {
    var x := Unwrapped(i, c);
    if c >= HALF_RANGE {
      assert c % HALF_RANGE == c - HALF_RANGE;
      WrapsOnce(x);
    } else {
      assert c % HALF_RANGE == c;
    }
  }

  /** With the wrap-around, `v` determines the recovery id and the chain id up to 2^63, and no more. */
  lemma EipEqualIff(i: byte, j: byte, c: u64, d: u64)
    requires i <= 1 && j <= 1
    ensures Eip155V(i, c) == Eip155V(j, d) <==> i == j && c % HALF_RANGE == d % HALF_RANGE
  {
    WrapsTo(i, c);
    WrapsTo(j, d);
    SameSum(i, j, c % HALF_RANGE, d % HALF_RANGE);
  }

  lemma SameSum(i: byte, j: byte, m: nat, n: nat)
    requires i <= 1 && j <= 1
    ensures i + 2 * m + 35 == j + 2 * n + 35 <==> i == j && m == n
  {
  }

  /** The failing input: chain ids 2^63 apart sign to the same bytes. */
  lemma DistantChainsCollide(t: LegacyTx, r: Word32, s: Word32, i: byte)
    requires t.chainId + HALF_RANGE <= U64_MAX && Fits(SignedItem(t, r, s, i))
    ensures var u := t.(chainId := t.chainId + HALF_RANGE);
            Fits(SignedItem(u, r, s, i)) && SignedTxRlp(u, r, s, i) == SignedTxRlp(t, r, s, i)
  {
    var u := t.(chainId := t.chainId + HALF_RANGE);
    assert Eip155V(i, u.chainId) == Eip155V(i, t.chainId) by {
      WrapsOnce(i + t.chainId * 2 + 35);
    }
    assert CommonItems(u) == CommonItems(t);
    assert SignedItem(u, r, s, i) == SignedItem(t, r, s, i);
  }

  /** Equal raw signed transactions come from equal fields, equal signatures and, for recovery ids 0
      and 1, equal recovery ids and chain ids equal modulo 2^63: equal outright when `v` did not wrap. */
  lemma SignedDeterminesTx(t: LegacyTx, u: LegacyTx, r: Word32, s: Word32, i: byte,
                           r': Word32, s': Word32, j: byte, x: seq<byte>, y: seq<byte>)
    requires Fits(SignedItem(t, r, s, i)) && Fits(SignedItem(u, r', s', j))
    requires SignedTxRlp(t, r, s, i) + x == SignedTxRlp(u, r', s', j) + y
    ensures t == u.(chainId := t.chainId) && r == r' && s == s' && x == y
    ensures i <= 1 && j <= 1 ==> i == j && t.chainId % HALF_RANGE == u.chainId % HALF_RANGE
    ensures i <= 1 && j <= 1 && NoOverflow(i, t.chainId) && NoOverflow(j, u.chainId) ==> i == j && t == u
  {
    RlpListIsEncode(SignedItem(t, r, s, i).items);
    RlpListIsEncode(SignedItem(u, r', s', j).items);
    Unique(SignedItem(t, r, s, i), SignedItem(u, r', s', j), x, y);
    var a, b := SignedItem(t, r, s, i).items, SignedItem(u, r', s', j).items;
    assert a[..6] == CommonItems(t) && b[..6] == CommonItems(u);
    CommonInjective(t, u);
    assert a[7] == Text(Stripped(r)) && b[7] == Text(Stripped(r'));
    assert a[8] == Text(Stripped(s)) && b[8] == Text(Stripped(s'));
    StrippedInjective(r, r');
    StrippedInjective(s, s');
    assert a[6] == IntItem(Eip155V(i, t.chainId)) && b[6] == IntItem(Eip155V(j, u.chainId));
    IntItemInjective(Eip155V(i, t.chainId), Eip155V(j, u.chainId));
    if i <= 1 && j <= 1 {
      EipEqualIff(i, j, t.chainId, u.chainId);
      if NoOverflow(i, t.chainId) && NoOverflow(j, u.chainId) {
        EipRecoverable(i, j, t.chainId, u.chainId);
      }
    }
  }
}
