/** Bytes, fixed-width big-endian numbers and the two failure datatypes shared by every module. */
module Bytes {

  datatype Option<+T> = None | Some(value: T)

  datatype Result<+T, +E> = Ok(value: T) | Err(error: E)

  type byte = b: nat | b < 256

  const U16_MAX: nat := 0xFFFF
  const U32_MAX: nat := 0xFFFF_FFFF
  const U64_MAX: nat := 0xFFFF_FFFF_FFFF_FFFF
  const I64_MAX: nat := 0x7FFF_FFFF_FFFF_FFFF

  type u32 = n: nat | n <= U32_MAX
  type u64 = n: nat | n <= U64_MAX

  function Min(a: nat, b: nat): nat { if a <= b then a else b }

  /** `a.saturating_sub(b)` */
  function SatSub(a: nat, b: nat): nat { if a <= b then 0 else a - b }

  /** 256 to the power `k`: how many values `k` bytes hold. */
  function Pow256(k: nat): (p: nat)
    ensures p >= 1
  {
    if k == 0 then 1 else 256 * Pow256(k - 1)
  }

  lemma Pow256Values()
    ensures Pow256(1) == 256 && Pow256(2) == U16_MAX + 1
    ensures Pow256(4) == U32_MAX + 1 && Pow256(8) == U64_MAX + 1
  {
    assert Pow256(3) == 256 * Pow256(2);
    assert Pow256(5) == 256 * Pow256(4);
    assert Pow256(6) == 256 * Pow256(5);
    assert Pow256(7) == 256 * Pow256(6);
  }

  /** The low `k` bytes of `n`, most significant first. */
  function ToBE(n: nat, k: nat): (s: seq<byte>)
    ensures |s| == k
    decreases k
  {
    if k == 0 then [] else ToBE(n / 256, k - 1) + [n % 256]
  }

  /** The number a big-endian byte string denotes. */
  function FromBE(s: seq<byte>): (n: nat)
    ensures n < Pow256(|s|)
  {
    if s == [] then 0 else FromBE(s[..|s| - 1]) * 256 + s[|s| - 1]
  }

  lemma {:induction false} FromToBE(n: nat, k: nat)
    requires n < Pow256(k)
    ensures FromBE(ToBE(n, k)) == n
    decreases k
  {
    if k > 0 {
      assert ToBE(n, k)[..k - 1] == ToBE(n / 256, k - 1);
      FromToBE(n / 256, k - 1);
    }
  }

  lemma {:induction false} ToFromBE(s: seq<byte>)
    ensures ToBE(FromBE(s), |s|) == s
    decreases |s|
  {
    if s != [] {
      var init := s[..|s| - 1];
      ToFromBE(init);
      assert FromBE(s) / 256 == FromBE(init) && FromBE(s) % 256 == s[|s| - 1];
      assert s == init + [s[|s| - 1]];
    }
  }

  /** Byte `i` of `k` is the digit of weight 256^(k-1-i): the most significant stands first. */
  lemma {:induction false} ToBEAt(n: nat, k: nat, i: nat)
    requires i < k
    ensures ToBE(n, k)[i] == n / Pow256(k - 1 - i) % 256
    decreases k
  {
    if i < k - 1 {
      ToBEAt(n / 256, k - 1, i);
      DivTwice(n, Pow256(k - 2 - i));
    }
  }

  lemma DivTwice(n: nat, p: nat)
    requires p > 0
    ensures n / 256 / p == n / (256 * p)
  {
    var q, r := n / 256 / p, n / 256 % p;
    var m := n % 256;
    assert n == 256 * (p * q + r) + m;
    assert n == (256 * p) * q + (256 * r + m) && 0 <= 256 * r + m < 256 * p;
    QuotientIs(n, 256 * p, q, 256 * r + m);
  }

  lemma QuotientIs(n: nat, d: nat, q: nat, r: nat)
    requires d > 0 && n == d * q + r && r < d
    ensures n / d == q
  {
    assert d * (n / d) <= n < d * (n / d) + d;
    Cancel(d, n / d, q + 1);
    Cancel(d, q, n / d + 1);
  }

  lemma Cancel(d: nat, a: nat, b: nat)
    requires d * a < d * b
    ensures a < b
  {
    assert d * b - d * a == d * (b - a);
  }

  /** Leading zeros do not change the number. */
  lemma {:induction false} LeadingZeros(hi: seq<byte>, lo: seq<byte>)
    requires forall i :: 0 <= i < |hi| ==> hi[i] == 0
    ensures FromBE(hi + lo) == FromBE(lo)
    decreases |hi| + |lo|
  {
    if lo == [] {
      assert hi + lo == hi;
      if hi != [] {
        var init := hi[..|hi| - 1];
        LeadingZeros(init, []);
        assert init + [] == init;
      }
    } else {
      var init := lo[..|lo| - 1];
      assert (hi + lo)[..|hi + lo| - 1] == hi + init;
      LeadingZeros(hi, init);
    }
  }
}
