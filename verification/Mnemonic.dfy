/** The BIP-39 mnemonic codec (`Mnemonic.swift`): 8-bit groups to 11-bit groups and back. */
module Mnemonic {
  import opened Bytes

  // ----- bits of a number -----

  function Pow2(k: nat): (p: nat)
    ensures p >= 1
  {
    if k == 0 then 1 else 2 * Pow2(k - 1)
  }

  /** `n >> e` */
  function ShiftRight(n: nat, e: nat): nat { if e == 0 then n else ShiftRight(n / 2, e - 1) }

  /** `(n >> e) & 1 == 1` */
  predicate Bit(n: nat, e: nat) { ShiftRight(n, e) % 2 == 1 }

  /** `n | (1 << e)` */
  function WithBit(n: nat, e: nat): nat { if Bit(n, e) then n else n + Pow2(e) }

  /** The low `k` bits of `n`, most significant first. */
  function ToBits(n: nat, k: nat): (b: seq<bool>)
    ensures |b| == k
  {
    if k == 0 then [] else ToBits(n / 2, k - 1) + [n % 2 == 1]
  }

  function FromBits(b: seq<bool>): (n: nat)
    ensures n < Pow2(|b|)
  {
    if b == [] then 0 else 2 * FromBits(b[..|b| - 1]) + (if b[|b| - 1] then 1 else 0)
  }

  lemma {:induction false} FromToBits(n: nat, k: nat)
    requires n < Pow2(k)
    ensures FromBits(ToBits(n, k)) == n
    decreases k
  {
    if k > 0 {
      FromToBits(n / 2, k - 1);
      assert ToBits(n, k)[..k - 1] == ToBits(n / 2, k - 1);
    }
  }

  lemma {:induction false} ToFromBits(b: seq<bool>)
    ensures ToBits(FromBits(b), |b|) == b
    decreases |b|
  {
    if b != [] {
      var init := b[..|b| - 1];
      ToFromBits(init);
      assert FromBits(b) / 2 == FromBits(init);
      assert b == init + [b[|b| - 1]];
    }
  }

  lemma {:induction false} BitAt(n: nat, k: nat, e: nat)
    requires e < k
    ensures ToBits(n, k)[k - 1 - e] == Bit(n, e)
    decreases k
  {
    if e > 0 {
      BitAt(n / 2, k - 1, e - 1);
    }
  }

  lemma {:induction false} WithBitHalves(n: nat, e: nat)
    requires e > 0
    ensures WithBit(n, e) / 2 == WithBit(n / 2, e - 1) && WithBit(n, e) % 2 == n % 2
  {
    assert Pow2(e) == 2 * Pow2(e - 1);
  }

  /** Or-ing in one bit sets that bit and no other. */
  lemma {:induction false} WithBitSets(n: nat, k: nat, e: nat)
    requires e < k
    ensures ToBits(WithBit(n, e), k) == ToBits(n, k)[k - 1 - e := true]
    decreases k
  {
    var m := WithBit(n, e);
    assert ToBits(m, k) == ToBits(m / 2, k - 1) + [m % 2 == 1];
    if e == 0 {
      assert Pow2(0) == 1 && m / 2 == n / 2 && m % 2 == 1;
    } else {
      WithBitHalves(n, e);
      WithBitSets(n / 2, k - 1, e - 1);
    }
  }

  // ----- groups of bits -----

  /** All groups of `k` bits, one after the other. */
  function Spread(ns: seq<nat>, k: nat): seq<bool> {
    if ns == [] then [] else Spread(ns[..|ns| - 1], k) + ToBits(ns[|ns| - 1], k)
  }

  lemma {:induction false} SpreadLength(ns: seq<nat>, k: nat)
    ensures |Spread(ns, k)| == |ns| * k
    decreases |ns|
  {
    if ns != [] {
      SpreadLength(ns[..|ns| - 1], k);
      assert (|ns| - 1) * k == |ns| * k - k;
    }
  }

  /** The bit string cut into groups of `k` bits, counted from its end, and read as numbers. */
  function Group(bits: seq<bool>, k: nat): seq<nat>
    requires k > 0
  {
    if |bits| < k then []
    else Group(bits[..|bits| - k], k) + [FromBits(bits[|bits| - k..])]
  }

  lemma {:induction false} GroupBound(bits: seq<bool>, k: nat)
    requires k > 0
    ensures forall i :: 0 <= i < |Group(bits, k)| ==> Group(bits, k)[i] < Pow2(k)
    decreases |bits|
  {
    if |bits| >= k {
      GroupBound(bits[..|bits| - k], k);
    }
  }

  lemma GroupAppend(bits: seq<bool>, group: seq<bool>, k: nat)
    requires k > 0 && |group| == k
    ensures Group(bits + group, k) == Group(bits, k) + [FromBits(group)]
  {
    var all := bits + group;
    assert all[..|all| - k] == bits && all[|all| - k..] == group;
  }

  lemma SpreadAppend(ns: seq<nat>, n: nat, k: nat)
    ensures Spread(ns + [n], k) == Spread(ns, k) + ToBits(n, k)
  {
    assert (ns + [n])[..|ns|] == ns;
  }

  lemma {:induction false} GroupSpread(ns: seq<nat>, k: nat)
    requires k > 0 && forall i :: 0 <= i < |ns| ==> ns[i] < Pow2(k)
    ensures Group(Spread(ns, k), k) == ns
    decreases |ns|
  {
    if ns != [] {
      var init, last := ns[..|ns| - 1], ns[|ns| - 1];
      assert ns == init + [last];
      calc {
        Group(Spread(ns, k), k);
        { SpreadAppend(init, last, k); }
        Group(Spread(init, k) + ToBits(last, k), k);
        { GroupAppend(Spread(init, k), ToBits(last, k), k); }
        Group(Spread(init, k), k) + [FromBits(ToBits(last, k))];
        { GroupSpread(init, k); FromToBits(last, k); }
        init + [last];
      }
    }
  }

  /** `back` is all of `bits` but fewer than `k` at the front. */
  predicate IsTail(back: seq<bool>, bits: seq<bool>, k: nat) {
    |back| <= |bits| < |back| + k && back == bits[|bits| - |back|..]
  }

  lemma TailAppend(back: seq<bool>, init: seq<bool>, last: seq<bool>, k: nat)
    requires IsTail(back, init, k)
    ensures IsTail(back + last, init + last, k)
  {
  }

  lemma SpreadGroupStep(init: seq<bool>, last: seq<bool>, k: nat)
    requires k > 0 && |last| == k
    ensures Spread(Group(init + last, k), k) == Spread(Group(init, k), k) + last
  {
    GroupAppend(init, last, k);
    SpreadAppend(Group(init, k), FromBits(last), k);
    ToFromBits(last);
  }

  /** Spreading the groups again gives the bits back, except for fewer than `k` at the front. */
  lemma {:induction false} SpreadGroup(bits: seq<bool>, k: nat)
    requires k > 0
    ensures IsTail(Spread(Group(bits, k), k), bits, k)
    decreases |bits|
  {
    if |bits| >= k {
      var init, last := bits[..|bits| - k], bits[|bits| - k..];
      assert bits == init + last;
      SpreadGroup(init, k);
      SpreadGroupStep(init, last, k);
      TailAppend(Spread(Group(init, k), k), init, last, k);
    }
  }

  lemma WholeBytes(bits: seq<bool>, m: nat)
    requires |bits| == 8 * m
    ensures |Group(bits, 8)| == m && Spread(Group(bits, 8), 8) == bits
    ensures forall i :: 0 <= i < m ==> Group(bits, 8)[i] < 256
  {
    SpreadGroup(bits, 8);
    GroupBound(bits, 8);
    SpreadLength(Group(bits, 8), 8);
    assert Pow2(8) == 256;
  }

  lemma WholeWords(bits: seq<bool>, m: nat)
    requires |bits| == 11 * m
    ensures |Group(bits, 11)| == m && Spread(Group(bits, 11), 11) == bits
    ensures forall i :: 0 <= i < m ==> Group(bits, 11)[i] < 2048
  {
    SpreadGroup(bits, 11);
    GroupBound(bits, 11);
    SpreadLength(Group(bits, 11), 11);
    assert Pow2(11) == 2048;
  }

  // ----- the codec -----

  /** The word list, the reverse index built from it, and the hash that makes the checksum. */
  datatype Bip39 = Bip39(words: seq<string>, index: map<string, nat>, hash: seq<byte> -> seq<byte>)

  ghost predicate Distinct(words: seq<string>) { forall i, j :: 0 <= i < j < |words| ==> words[i] != words[j] }

  ghost predicate IsIndex(words: seq<string>, index: map<string, nat>) {
    && (forall w :: w in index ==> index[w] < |words| && words[index[w]] == w)
    && (forall i :: 0 <= i < |words| ==> words[i] in index)
  }

  /** What the codec is built from: 2048 words, the index made from them and a 32-byte hash. */
  ghost predicate Proper(c: Bip39) {
    |c.words| == 2048 && IsIndex(c.words, c.index) && forall e :: |c.hash(e)| == 32
  }

  method Init(words: seq<string>, hash: seq<byte> -> seq<byte>) returns (c: Bip39)
    ensures c.words == words && c.hash == hash && IsIndex(words, c.index)
  {
    var index: map<string, nat> := map[];
    for i := 0 to |words|
      invariant forall w :: w in index ==> index[w] < i && words[index[w]] == w
      invariant forall j :: 0 <= j < i ==> words[j] in index
    {
      index := index[words[i] := i];
    }
    return Bip39(words, index, hash);
  }

  function Checksum(c: Bip39, e: seq<byte>): seq<bool>
    requires |c.hash(e)| == 32 && |e| <= 32
  {
    seq(|e| / 4, i requires 0 <= i < |e| / 4 => Bit(c.hash(e)[i / 8], 7 - i % 8))
  }

  predicate GoodEntropy(e: seq<byte>) { 16 <= |e| <= 32 && |e| % 4 == 0 }

  predicate GoodLength(n: nat) { n == 12 || n == 15 || n == 18 || n == 21 || n == 24 }

  function AllBits(c: Bip39, e: seq<byte>): (bits: seq<bool>)
    requires |c.hash(e)| == 32 && |e| <= 32
  {
    Spread(e, 8) + Checksum(c, e)
  }

  lemma AllBitsLength(c: Bip39, e: seq<byte>)
    requires |c.hash(e)| == 32 && GoodEntropy(e)
    ensures |Spread(e, 8)| == 8 * |e| && |AllBits(c, e)| == 11 * (3 * |e| / 4)
  {
    SpreadLength(e, 8);
  }

  function Named(words: seq<string>, ns: seq<nat>): seq<string>
    requires forall i :: 0 <= i < |ns| ==> ns[i] < |words|
  {
    seq(|ns|, i requires 0 <= i < |ns| => words[ns[i]])
  }

  function Encode(c: Bip39, e: seq<byte>): Option<seq<string>>
    requires Proper(c)
  {
    if !GoodEntropy(e) then None
    else
      AllBitsLength(c, e);
      WholeWords(AllBits(c, e), 3 * |e| / 4);
      Some(Named(c.words, Group(AllBits(c, e), 11)))
  }

  predicate OnList(c: Bip39, ws: seq<string>) { forall i :: 0 <= i < |ws| ==> ws[i] in c.index }

  function Indices(c: Bip39, ws: seq<string>): seq<nat>
    requires OnList(c, ws)
  {
    seq(|ws|, i requires 0 <= i < |ws| => c.index[ws[i]])
  }

  /** The leading `32 * third` bits, as bytes. */
  function EntropyOf(bits: seq<bool>, third: nat): (e: seq<byte>)
    requires |bits| >= 32 * third
    ensures |e| == 4 * third && Spread(e, 8) == bits[..32 * third]
  {
    WholeBytes(bits[..32 * third], 4 * third);
    Group(bits[..32 * third], 8)
  }

  function Decode(c: Bip39, ws: seq<string>): Option<seq<byte>>
    requires Proper(c)
  {
    if !GoodLength(|ws|) || !OnList(c, ws) then None
    else
      SpreadLength(Indices(c, ws), 11);
      var bits, third := Spread(Indices(c, ws), 11), |ws| / 3;
      var e := EntropyOf(bits, third);
      if bits[32 * third..] == Checksum(c, e) then Some(e) else None
  }

  /** Bytes are determined by their bits. */
  lemma SpreadInjective(a: seq<byte>, b: seq<byte>)
    requires Spread(a, 8) == Spread(b, 8)
    ensures a == b
  {
    assert Pow2(8) == 256;
    GroupSpread(a, 8);
    GroupSpread(b, 8);
  }

  lemma LengthOfThirds(third: nat)
    requires 4 <= third <= 8
    ensures GoodLength(3 * third) && 3 * third / 3 == third
  {
  }

  lemma DecodeWith(c: Bip39, ws: seq<string>, third: nat, e: seq<byte>)
    requires Proper(c) && OnList(c, ws) && 4 <= third <= 8 && |ws| == 3 * third && |e| == 4 * third
    requires Spread(Indices(c, ws), 11) == AllBits(c, e)
    ensures Decode(c, ws) == Some(e)
  {
    SpreadLength(e, 8);
    var bits := AllBits(c, e);
    assert bits[..32 * third] == Spread(e, 8) && bits[32 * third..] == Checksum(c, e);
    var d := EntropyOf(bits, third);
    SpreadInjective(d, e);
    LengthOfThirds(third);
    assert Decode(c, ws) == if bits[32 * third..] == Checksum(c, d) then Some(d) else None;
  }

  /** Decoding the mnemonic of any entropy of 16, 20, 24, 28 or 32 bytes returns that entropy, for any
      list of distinct words. */
  lemma DecodeEncode(c: Bip39, e: seq<byte>)
    requires Proper(c) && Distinct(c.words) && GoodEntropy(e)
    ensures Encode(c, e).Some? && Decode(c, Encode(c, e).value) == Some(e)
  {
    AllBitsLength(c, e);
    WholeWords(AllBits(c, e), 3 * |e| / 4);
    IndicesOfNamed(c, Group(AllBits(c, e), 11));
    DecodeEncodeIff(c, e);
  }

  /** The index leads every word of the mnemonic back to its own number. */
  ghost predicate IndexInverts(c: Bip39, ns: seq<nat>) {
    forall i :: 0 <= i < |ns| ==> ns[i] < |c.words| && c.words[ns[i]] in c.index && c.index[c.words[ns[i]]] == ns[i]
  }

  /** For a list with repetitions, whose index knows only one place of each word, the round trip works exactly
      for the entropies whose words are all at the places the index knows. */
  lemma DecodeEncodeIff(c: Bip39, e: seq<byte>)
    requires Proper(c) && GoodEntropy(e)
    ensures Encode(c, e).Some?
    ensures Decode(c, Encode(c, e).value) == Some(e) <==> IndexInverts(c, Group(AllBits(c, e), 11))
  {
    EncodeIs(c, e);
    NamedDecodesIff(c, e, Group(AllBits(c, e), 11));
  }

  lemma EncodeIs(c: Bip39, e: seq<byte>)
    requires Proper(c) && GoodEntropy(e)
    ensures var ns := Group(AllBits(c, e), 11);
            && |ns| == 3 * |e| / 4 && Spread(ns, 11) == AllBits(c, e)
            && (forall i :: 0 <= i < |ns| ==> ns[i] < 2048)
            && Encode(c, e) == Some(Named(c.words, ns))
  {
    AllBitsLength(c, e);
    WholeWords(AllBits(c, e), 3 * |e| / 4);
  }

  lemma NamedDecodesIff(c: Bip39, e: seq<byte>, ns: seq<nat>)
    requires Proper(c) && GoodEntropy(e) && ns == Group(AllBits(c, e), 11)
    requires |ns| == 3 * |e| / 4 && Spread(ns, 11) == AllBits(c, e) && forall i :: 0 <= i < |ns| ==> ns[i] < 2048
    ensures Decode(c, Named(c.words, ns)) == Some(e) <==> IndexInverts(c, ns)
  {
    if IndexInverts(c, ns) {
      IndexedDecodes(c, e, ns);
    } else if Decode(c, Named(c.words, ns)) == Some(e) {
      DecodedWasIndexed(c, e, ns);
    }
  }

  lemma IndexedDecodes(c: Bip39, e: seq<byte>, ns: seq<nat>)
    requires Proper(c) && GoodEntropy(e) && IndexInverts(c, ns)
    requires |ns| == 3 * |e| / 4 && Spread(ns, 11) == AllBits(c, e)
    ensures Decode(c, Named(c.words, ns)) == Some(e)
  {
    var ws := Named(c.words, ns);
    assert OnList(c, ws) && Indices(c, ws) == ns;
    DecodeWith(c, ws, |e| / 4, e);
  }

  lemma DecodedWasIndexed(c: Bip39, e: seq<byte>, ns: seq<nat>)
    requires Proper(c) && GoodEntropy(e) && Spread(ns, 11) == AllBits(c, e)
    requires (forall i :: 0 <= i < |ns| ==> ns[i] < 2048) && Decode(c, Named(c.words, ns)) == Some(e)
    ensures IndexInverts(c, ns)
  {
    DecodeMeans(c, Named(c.words, ns));
    SameIndices(c, ns);
  }

  lemma SameIndices(c: Bip39, ns: seq<nat>)
    requires Proper(c) && (forall i :: 0 <= i < |ns| ==> ns[i] < 2048) && OnList(c, Named(c.words, ns))
    requires Spread(Indices(c, Named(c.words, ns)), 11) == Spread(ns, 11)
    ensures IndexInverts(c, ns)
  {
    var back := Indices(c, Named(c.words, ns));
    assert Pow2(11) == 2048;
    SpreadDetermines(back, ns, 11);
    forall i | 0 <= i < |ns| ensures c.words[ns[i]] in c.index && c.index[c.words[ns[i]]] == ns[i] {
      assert Named(c.words, ns)[i] == c.words[ns[i]] && back[i] == ns[i];
    }
  }

  lemma SpreadDetermines(a: seq<nat>, b: seq<nat>, k: nat)
    requires k > 0 && Spread(a, k) == Spread(b, k)
    requires forall i :: 0 <= i < |a| ==> a[i] < Pow2(k)
    requires forall i :: 0 <= i < |b| ==> b[i] < Pow2(k)
    ensures a == b
  {
    GroupSpread(a, k);
    GroupSpread(b, k);
  }

  lemma IndicesOfNamed(c: Bip39, ns: seq<nat>)
    requires Proper(c) && Distinct(c.words) && forall i :: 0 <= i < |ns| ==> ns[i] < |c.words|
    ensures IndexInverts(c, ns)
  {
    forall i | 0 <= i < |ns| ensures c.words[ns[i]] in c.index && c.index[c.words[ns[i]]] == ns[i] {
      assert c.words[c.index[c.words[ns[i]]]] == c.words[ns[i]];
    }
  }

  /** What a successful decoding has established. */
  lemma DecodeMeans(c: Bip39, ws: seq<string>)
    requires Proper(c) && Decode(c, ws).Some?
    ensures GoodEntropy(Decode(c, ws).value) && OnList(c, ws)
    ensures Spread(Indices(c, ws), 11) == AllBits(c, Decode(c, ws).value)
  {
    var ns, third := Indices(c, ws), |ws| / 3;
    SpreadLength(ns, 11);
    var bits := Spread(ns, 11);
    assert bits == bits[..32 * third] + bits[32 * third..];
  }

  /** Every word list that decodes is the mnemonic of its entropy: decoding accepts nothing else. */
  lemma EncodeDecode(c: Bip39, ws: seq<string>)
    requires Proper(c) && Decode(c, ws).Some?
    ensures GoodEntropy(Decode(c, ws).value) && Encode(c, Decode(c, ws).value) == Some(ws)
  {
    DecodeMeans(c, ws);
    EncodeFrom(c, ws, Decode(c, ws).value);
  }

  lemma EncodeFrom(c: Bip39, ws: seq<string>, e: seq<byte>)
    requires Proper(c) && GoodEntropy(e) && OnList(c, ws) && Spread(Indices(c, ws), 11) == AllBits(c, e)
    ensures Encode(c, e) == Some(ws)
  {
    EncodeIs(c, e);
    NamedIndices(c, ws);
    assert Pow2(11) == 2048;
    SpreadDetermines(Indices(c, ws), Group(AllBits(c, e), 11), 11);
  }

  lemma NamedIndices(c: Bip39, ws: seq<string>)
    requires Proper(c) && OnList(c, ws)
    ensures (forall i :: 0 <= i < |ws| ==> Indices(c, ws)[i] < |c.words|) && Named(c.words, Indices(c, ws)) == ws
  {
    forall i | 0 <= i < |ws| ensures Indices(c, ws)[i] < |c.words| && c.words[Indices(c, ws)[i]] == ws[i] {
      assert ws[i] in c.index;
    }
  }

  // ----- what the bits are -----

  /** Bit `i` of spread bytes is bit `7 - i % 8` of byte `i / 8`. */
  lemma {:induction false} SpreadAt(ns: seq<nat>, i: nat)
    requires i < 8 * |ns|
    ensures |Spread(ns, 8)| == 8 * |ns| && Spread(ns, 8)[i] == Bit(ns[i / 8], 7 - i % 8)
    decreases |ns|
  {
    SpreadLength(ns, 8);
    var n := |ns| - 1;
    SpreadLength(ns[..n], 8);
    if i < 8 * n {
      SpreadAt(ns[..n], i);
    } else {
      BitAt(ns[n], 8, 7 - i % 8);
    }
  }

  /** The checksum is the leading bits of the hash, one for every four bytes of entropy. */
  lemma ChecksumIsHashPrefix(c: Bip39, e: seq<byte>)
    requires |c.hash(e)| == 32 && |e| <= 32
    ensures |Spread(c.hash(e), 8)| == 256 && Checksum(c, e) == Spread(c.hash(e), 8)[..|e| / 4]
  {
    SpreadLength(c.hash(e), 8);
    forall i | 0 <= i < |e| / 4 ensures Checksum(c, e)[i] == Spread(c.hash(e), 8)[i] {
      SpreadAt(c.hash(e), i);
    }
  }

  /** The words of a mnemonic stand at places whose eleven-bit numbers, one after the other, are the bits of the
      entropy followed by the leading bits of its hash ("Generating the mnemonic" in BIP-39). */
  lemma MnemonicIsEntropyAndHash(c: Bip39, e: seq<byte>) returns (ns: seq<nat>)
    requires Proper(c) && GoodEntropy(e)
    ensures Encode(c, e).Some? && |ns| == |Encode(c, e).value|
    ensures forall i :: 0 <= i < |ns| ==> ns[i] < 2048 && Encode(c, e).value[i] == c.words[ns[i]]
    ensures |Spread(c.hash(e), 8)| == 256 && Spread(ns, 11) == Spread(e, 8) + Spread(c.hash(e), 8)[..|e| / 4]
  {
    EncodeIs(c, e);
    ChecksumIsHashPrefix(c, e);
    ns := Group(AllBits(c, e), 11);
  }

  lemma OneBitMore(a: seq<bool>, x: nat, k: nat)
    requires k > 0
    ensures FromBits(a + ToBits(x, k)) == 2 * FromBits(a + ToBits(x / 2, k - 1)) + x % 2
  {
    var bits := a + ToBits(x, k);
    assert bits == (a + ToBits(x / 2, k - 1)) + [x % 2 == 1];
    assert bits[..|bits| - 1] == a + ToBits(x / 2, k - 1);
  }

  lemma Doubled(a: nat, p: nat, x: nat)
    ensures 2 * (a * p + x / 2) + x % 2 == a * (2 * p) + x
  {
    assert 2 * (a * p) == a * (2 * p);
  }

  lemma {:induction false} FromBitsAppend(a: seq<bool>, x: nat, k: nat)
    requires x < Pow2(k)
    ensures FromBits(a + ToBits(x, k)) == FromBits(a) * Pow2(k) + x
    decreases k
  {
    if k == 0 {
      assert a + ToBits(x, k) == a;
    } else {
      FromBitsAppend(a, x / 2, k - 1);
      OneBitMore(a, x, k);
      Doubled(FromBits(a), Pow2(k - 1), x);
    }
  }

  /** Spread bytes, read as one binary number, are the big-endian number the bytes denote. */
  lemma {:induction false} SpreadIsBigEndian(e: seq<byte>)
    ensures FromBits(Spread(e, 8)) == FromBE(e)
    decreases |e|
  {
    if e != [] {
      var init, last := e[..|e| - 1], e[|e| - 1];
      SpreadIsBigEndian(init);
      assert Pow2(8) == 256;
      FromBitsAppend(Spread(init, 8), last, 8);
    }
  }

  // ----- the program's loops -----

  method BitArray(data: seq<byte>) returns (bits: seq<bool>)
    ensures bits == Spread(data, 8)
  {
    bits := [];
    for q := 0 to |data|
      invariant bits == Spread(data[..q], 8)
    {
      bits := AppendBits(bits, data[q], 8);
      assert data[..q + 1][..q] == data[..q];
    }
    assert data[..|data|] == data;
  }

  /** Appends bits `k - 1` down to 0 of `n`. */
  method AppendBits(bits: seq<bool>, n: nat, k: nat) returns (out: seq<bool>)
    ensures out == bits + ToBits(n, k)
  {
    out := bits;
    for j := k downto 0
      invariant out == bits + ToBits(n, k)[..k - j]
    {
      BitAt(n, k, j);
      out := out + [ShiftRight(n, j) % 2 == 1];
    }
  }

  /** Reads eleven bits as a number. */
  method Accumulate(bits: seq<bool>, chunk: nat) returns (n: nat)
    requires chunk + 11 <= |bits|
    ensures n == FromBits(bits[chunk..chunk + 11])
  {
    n := 0;
    for j := 0 to 11
      invariant n == FromBits(bits[chunk..chunk + j])
    {
      assert bits[chunk..chunk + j + 1][..j] == bits[chunk..chunk + j];
      n := 2 * n + (if bits[chunk + j] then 1 else 0);
    }
  }

  /** `mnemonic(fromEntropy:)`, as a list of words. */
  method FromEntropy(c: Bip39, e: seq<byte>) returns (out: Option<seq<string>>)
    requires Proper(c)
    ensures out == Encode(c, e)
  {
    if !(16 <= |e| <= 32 && |e| % 4 == 0) {
      return None;
    }
    var bits := BitArray(e);
    var checksumBits := |e| * 8 / 32;
    var hash := c.hash(e);
    for i := 0 to checksumBits
      invariant bits == Spread(e, 8) + Checksum(c, e)[..i]
    {
      bits := bits + [ShiftRight(hash[i / 8], 7 - i % 8) % 2 == 1];
    }
    assert bits == AllBits(c, e);
    AllBitsLength(c, e);
    var ws := NameChunks(c, bits, 3 * |e| / 4);
    return Some(ws);
  }

  method NameChunks(c: Bip39, bits: seq<bool>, m: nat) returns (out: seq<string>)
    requires Proper(c) && |bits| == 11 * m
    ensures (forall i :: 0 <= i < |Group(bits, 11)| ==> Group(bits, 11)[i] < 2048)
            && out == Named(c.words, Group(bits, 11))
  {
    ghost var ns: seq<nat> := [];
    out := [];
    for q := 0 to m
      invariant |out| == q && ns == Group(bits[..11 * q], 11) && |ns| == q
      invariant forall i :: 0 <= i < q ==> ns[i] < 2048 && out[i] == c.words[ns[i]]
    {
      var n := NextNumber(bits, q);
      ns := ns + [n];
      out := out + [c.words[n]];
    }
    assert bits[..11 * m] == bits;
    assert out == Named(c.words, ns);
  }

  /** The number in the `q`-th chunk of eleven bits. */
  method NextNumber(bits: seq<bool>, q: nat) returns (n: nat)
    requires 11 * q + 11 <= |bits|
    ensures n < 2048 && Group(bits[..11 * (q + 1)], 11) == Group(bits[..11 * q], 11) + [n]
  {
    n := Accumulate(bits, 11 * q);
    AppendGroup(bits, q);
  }

  lemma AppendGroup(bits: seq<bool>, q: nat)
    requires 11 * q + 11 <= |bits|
    ensures var n := FromBits(bits[11 * q..11 * q + 11]);
            n < 2048 && Group(bits[..11 * (q + 1)], 11) == Group(bits[..11 * q], 11) + [n]
  {
    assert Pow2(11) == 2048;
    GroupAppend(bits[..11 * q], bits[11 * q..11 * q + 11], 11);
    assert bits[..11 * (q + 1)] == bits[..11 * q] + bits[11 * q..11 * q + 11];
  }

  /** Sets the bits of a zeroed buffer one by one. */
  method FillEntropy(bits: seq<bool>, n: nat) returns (buffer: seq<byte>)
    requires 8 * n <= |bits|
    ensures |buffer| == n && Spread(buffer, 8) == bits[..8 * n]
  {
    buffer := seq(n, _ => 0);
    AllZero(buffer);
    SpreadLength(buffer, 8);
    ghost var done := Spread(buffer, 8);
    for i := 0 to 8 * n
      invariant |buffer| == n && Spread(buffer, 8) == done && |done| == 8 * n
      invariant forall k :: 0 <= k < 8 * n ==> done[k] == (k < i && bits[k])
    {
      if bits[i] {
        buffer := OrBit(buffer, i);
        done := done[i := true];
      }
    }
    assert done == bits[..8 * n];
  }

  /** `buffer[i / 8] |= 1 << (7 - i % 8)` */
  method OrBit(buffer: seq<byte>, i: nat) returns (out: seq<byte>)
    requires i < 8 * |buffer|
    ensures |out| == |buffer| && |Spread(buffer, 8)| == 8 * |buffer| && Spread(out, 8) == Spread(buffer, 8)[i := true]
  {
    SpreadSet(buffer, i / 8, 8, i % 8);
    SpreadLength(buffer, 8);
    SpreadLength(buffer[..i / 8], 8);
    ByteStaysByte(buffer[i / 8], 7 - i % 8);
    out := buffer[i / 8 := WithBit(buffer[i / 8], 7 - i % 8)];
  }

  lemma {:induction false} ZeroBits(k: nat)
    ensures forall j :: 0 <= j < k ==> !ToBits(0, k)[j]
  {
    if k > 0 {
      ZeroBits(k - 1);
    }
  }

  lemma {:induction false} AllZero(ns: seq<byte>)
    requires forall i :: 0 <= i < |ns| ==> ns[i] == 0
    ensures forall k :: 0 <= k < |Spread(ns, 8)| ==> !Spread(ns, 8)[k]
    decreases |ns|
  {
    if ns != [] {
      AllZero(ns[..|ns| - 1]);
      ZeroBits(8);
    }
  }

  /** Setting one bit of group `q` sets exactly the corresponding bit of the bit string. */
  lemma SpreadSet(ns: seq<nat>, q: nat, k: nat, r: nat)
    requires q < |ns| && r < k
    ensures |Spread(ns[..q], k)| + k <= |Spread(ns, k)|
    ensures Spread(ns[q := WithBit(ns[q], k - 1 - r)], k) == Spread(ns, k)[|Spread(ns[..q], k)| + r := true]
  {
    var left, bits, right := Spread(ns[..q], k), ToBits(ns[q], k), Spread(ns[q + 1..], k);
    assert Spread(ns, k) == left + bits + right by {
      SpreadReplaced(ns, q, ns[q], k);
      assert ns[q := ns[q]] == ns;
    }
    assert Spread(ns[q := WithBit(ns[q], k - 1 - r)], k) == left + bits[r := true] + right by {
      SpreadReplaced(ns, q, WithBit(ns[q], k - 1 - r), k);
      WithBitSets(ns[q], k, k - 1 - r);
    }
    SetInside(left, bits, right, r);
  }

  lemma SpreadReplaced(ns: seq<nat>, q: nat, b: nat, k: nat)
    requires q < |ns|
    ensures Spread(ns[q := b], k) == Spread(ns[..q], k) + ToBits(b, k) + Spread(ns[q + 1..], k)
  {
    SplitAt(ns, q, b);
    SpreadAround(ns[..q], b, ns[q + 1..], k);
  }

  lemma SplitAt(ns: seq<nat>, q: nat, b: nat)
    requires q < |ns|
    ensures ns == ns[..q] + [ns[q]] + ns[q + 1..] && ns[q := b] == ns[..q] + [b] + ns[q + 1..]
  {
  }

  lemma {:induction false} SpreadAround(pre: seq<nat>, x: nat, post: seq<nat>, k: nat)
    ensures Spread(pre + [x] + post, k) == Spread(pre, k) + ToBits(x, k) + Spread(post, k)
    decreases |post|
  {
    if post == [] {
      assert pre + [x] + post == pre + [x];
      SpreadAppend(pre, x, k);
    } else {
      var init, last := post[..|post| - 1], post[|post| - 1];
      SpreadAround(pre, x, init, k);
      assert pre + [x] + post == (pre + [x] + init) + [last];
      SpreadAppend(pre + [x] + init, last, k);
      assert post == init + [last];
    }
  }

  lemma SetInside(a: seq<bool>, b: seq<bool>, c: seq<bool>, i: nat)
    requires i < |b|
    ensures a + b[i := true] + c == (a + b + c)[|a| + i := true]
  {
  }

  lemma ByteStaysByte(b: byte, e: nat)
    requires e < 8
    ensures WithBit(b, e) < 256
  {
    WithBitSets(b, 8, e);
    WithBitBounded(b, 8, e);
    assert Pow2(8) == 256;
  }

  lemma {:induction false} WithBitBounded(n: nat, k: nat, e: nat)
    requires n < Pow2(k) && e < k
    ensures WithBit(n, e) < Pow2(k)
    decreases k
  {
    if e > 0 {
      WithBitHalves(n, e);
      WithBitBounded(n / 2, k - 1, e - 1);
    } else {
      assert Pow2(0) == 1 && Pow2(k) == 2 * Pow2(k - 1);
    }
  }

  lemma IndicesAppend(c: Bip39, ws: seq<string>, i: nat)
    requires i < |ws| && OnList(c, ws[..i]) && ws[i] in c.index
    ensures OnList(c, ws[..i + 1]) && Indices(c, ws[..i + 1]) == Indices(c, ws[..i]) + [c.index[ws[i]]]
  {
    assert ws[..i + 1] == ws[..i] + [ws[i]];
  }

  /** Looks every word up and appends its eleven bits; `None` at the first word off the list. */
  method WordBits(c: Bip39, ws: seq<string>) returns (r: Option<seq<bool>>)
    ensures r.Some? <==> OnList(c, ws)
    ensures r.Some? ==> r.value == Spread(Indices(c, ws), 11)
  {
    var bits: seq<bool> := [];
    for i := 0 to |ws|
      invariant OnList(c, ws[..i]) && bits == Spread(Indices(c, ws[..i]), 11)
    {
      if ws[i] !in c.index {
        return None;
      }
      bits := AppendBits(bits, c.index[ws[i]], 11);
      IndicesAppend(c, ws, i);
      SpreadAppend(Indices(c, ws[..i]), c.index[ws[i]], 11);
    }
    assert ws[..|ws|] == ws;
    return Some(bits);
  }

  method ChecksumHolds(c: Bip39, e: seq<byte>, bits: seq<bool>, entBits: nat) returns (ok: bool)
    requires |c.hash(e)| == 32 && |e| <= 32 && |bits| == entBits + |e| / 4
    ensures ok <==> bits[entBits..] == Checksum(c, e)
  {
    var hash := c.hash(e);
    ghost var sum := Checksum(c, e);
    for i := 0 to |e| / 4
      invariant forall j :: 0 <= j < i ==> bits[entBits + j] == sum[j]
    {
      var expected := ShiftRight(hash[i / 8], 7 - i % 8) % 2 == 1;
      if bits[entBits + i] != expected {
        assert bits[entBits..][i] != sum[i];
        return false;
      }
    }
    return true;
  }

  /** `entropy(fromMnemonic:)`, on the normalised words. */
  method ToEntropy(c: Bip39, ws: seq<string>) returns (r: Option<seq<byte>>)
    requires Proper(c)
    ensures r == Decode(c, ws)
  {
    if !GoodLength(|ws|) {
      return None;
    }
    var looked := WordBits(c, ws);
    if looked.None? {
      return None;
    }
    var bits := looked.value;
    var entBits := |ws| * 11 * 32 / 33;
    BitCounts(c, ws);
    var entropy := FillEntropy(bits, entBits / 8);
    DecodeBy(c, ws, entropy);
    var ok := ChecksumHolds(c, entropy, bits, entBits);
    return if ok then Some(entropy) else None;
  }

  lemma BitCounts(c: Bip39, ws: seq<string>)
    requires GoodLength(|ws|) && OnList(c, ws)
    ensures var entBits := |ws| * 11 * 32 / 33;
            entBits == 32 * (|ws| / 3) && entBits % 8 == 0 && 4 <= entBits / 32 <= 8
            && |Spread(Indices(c, ws), 11)| == entBits + entBits / 32
  {
    SpreadLength(Indices(c, ws), 11);
  }

  lemma DecodeBy(c: Bip39, ws: seq<string>, e: seq<byte>)
    requires Proper(c) && GoodLength(|ws|) && OnList(c, ws)
    requires var bits := Spread(Indices(c, ws), 11);
             32 * (|ws| / 3) <= |bits| && Spread(e, 8) == bits[..32 * (|ws| / 3)]
    ensures |e| == 4 * (|ws| / 3)
    ensures var bits := Spread(Indices(c, ws), 11);
            Decode(c, ws) == if bits[32 * (|ws| / 3)..] == Checksum(c, e) then Some(e) else None
  {
    SpreadInjective(e, EntropyOf(Spread(Indices(c, ws), 11), |ws| / 3));
  }

  // ----- phrases -----

  /** How text is lower-cased and what counts as white space. */
  datatype Text = Text(lower: string -> string, space: char -> bool)

  /** Words separated by runs of white space; `word` holds the characters read since the last one. */
  function Split(t: Text, s: string, word: string): seq<string> {
    if s == [] then if word == [] then [] else [word]
    else if t.space(s[0]) then (if word == [] then [] else [word]) + Split(t, s[1..], [])
    else Split(t, s[1..], word + [s[0]])
  }

  function NormalizedWords(t: Text, s: string): seq<string> { Split(t, t.lower(s), []) }

  function Joined(ws: seq<string>): string {
    if ws == [] then [] else if |ws| == 1 then ws[0] else ws[0] + " " + Joined(ws[1..])
  }

  /** A word that splitting leaves alone. */
  predicate Plain(t: Text, w: string) { w != [] && forall i :: 0 <= i < |w| ==> !t.space(w[i]) }

  /** Phrases made of these words are lower case already. */
  ghost predicate LeavesAlone(t: Text, words: seq<string>) {
    forall ws: seq<string> :: (forall i :: 0 <= i < |ws| ==> ws[i] in words) ==> t.lower(Joined(ws)) == Joined(ws)
  }

  lemma {:induction false} SplitWord(t: Text, w: string, rest: string, word: string)
    requires forall i :: 0 <= i < |w| ==> !t.space(w[i])
    ensures Split(t, w + rest, word) == Split(t, rest, word + w)
    decreases |w|
  {
    if w == [] {
      assert w + rest == rest && word + w == word;
    } else {
      SplitWord(t, w[1..], rest, word + [w[0]]);
      assert (w + rest)[1..] == w[1..] + rest && word + [w[0]] + w[1..] == word + w;
    }
  }

  lemma {:induction false} SplitJoined(t: Text, ws: seq<string>)
    requires t.space(' ') && forall i :: 0 <= i < |ws| ==> Plain(t, ws[i])
    ensures Split(t, Joined(ws), []) == ws
    decreases |ws|
  {
    if ws != [] {
      var rest := if |ws| == 1 then [] else " " + Joined(ws[1..]);
      assert Joined(ws) == ws[0] + rest;
      SplitWord(t, ws[0], rest, []);
      assert [] + ws[0] == ws[0];
      if |ws| > 1 {
        SplitJoined(t, ws[1..]);
        assert rest[1..] == Joined(ws[1..]);
      }
    }
  }

  function Mapped(lower: char -> char, s: string): string { seq(|s|, i requires 0 <= i < |s| => lower(s[i])) }

  lemma {:induction false} MappedJoined(lower: char -> char, ws: seq<string>)
    requires lower(' ') == ' ' && forall i, j :: 0 <= i < |ws| && 0 <= j < |ws[i]| ==> lower(ws[i][j]) == ws[i][j]
    ensures Mapped(lower, Joined(ws)) == Joined(ws)
    decreases |ws|
  {
    if |ws| > 1 {
      MappedJoined(lower, ws[1..]);
      var rest := Joined(ws[1..]);
      assert forall i :: 0 <= i < |rest| ==> lower(rest[i]) == Mapped(lower, rest)[i];
    }
  }

  /** Lower-casing one character at a time leaves such phrases alone when it leaves the words' characters and
      the space alone. */
  lemma CharwiseLeavesAlone(t: Text, lower: char -> char, words: seq<string>)
    requires forall s :: t.lower(s) == Mapped(lower, s)
    requires lower(' ') == ' ' && forall w, j :: w in words && 0 <= j < |w| ==> lower(w[j]) == w[j]
    ensures LeavesAlone(t, words)
  {
    forall ws: seq<string> | forall i :: 0 <= i < |ws| ==> ws[i] in words ensures t.lower(Joined(ws)) == Joined(ws) {
      MappedJoined(lower, ws);
    }
  }

  /** The phrase of an entropy decodes back to it, for every list of words that normalisation leaves
      alone. */
  lemma PhraseRoundTrip(c: Bip39, t: Text, e: seq<byte>)
    requires Proper(c) && Distinct(c.words) && GoodEntropy(e) && t.space(' ')
    requires LeavesAlone(t, c.words) && forall w :: w in c.words ==> Plain(t, w)
    ensures Encode(c, e).Some? && Decode(c, NormalizedWords(t, Joined(Encode(c, e).value))) == Some(e)
  {
    DecodeEncode(c, e);
    EncodedFromList(c, e);
    SplitJoined(t, Encode(c, e).value);
  }

  /** In particular for character-wise lower-casing and words of lower-case characters. */
  lemma CharwiseRoundTrip(c: Bip39, t: Text, lower: char -> char, e: seq<byte>)
    requires Proper(c) && Distinct(c.words) && GoodEntropy(e) && t.space(' ')
    requires (forall s :: t.lower(s) == Mapped(lower, s)) && lower(' ') == ' '
    requires forall w :: w in c.words ==> Plain(t, w) && forall j :: 0 <= j < |w| ==> lower(w[j]) == w[j]
    ensures Encode(c, e).Some? && Decode(c, NormalizedWords(t, Joined(Encode(c, e).value))) == Some(e)
  {
    CharwiseLeavesAlone(t, lower, c.words);
    PhraseRoundTrip(c, t, e);
  }

  lemma EncodedFromList(c: Bip39, e: seq<byte>)
    requires Proper(c) && GoodEntropy(e)
    ensures forall i :: 0 <= i < |Encode(c, e).value| ==> Encode(c, e).value[i] in c.words
  {
    AllBitsLength(c, e);
    WholeWords(AllBits(c, e), 3 * |e| / 4);
  }

  /** Every phrase that decodes normalises to the mnemonic of its entropy. */
  lemma PhraseIsCanonical(c: Bip39, t: Text, phrase: string)
    requires Proper(c) && Decode(c, NormalizedWords(t, phrase)).Some?
    ensures Encode(c, Decode(c, NormalizedWords(t, phrase)).value) == Some(NormalizedWords(t, phrase))
  {
    EncodeDecode(c, NormalizedWords(t, phrase));
  }
}
