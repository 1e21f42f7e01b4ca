/** Hex quantities of the JSON-RPC reads (`PolygonReads.swift`): exact decimal text and the clamped form. */
module HexDecimal {
  import opened Bytes

  /** `Character.hexDigitValue`: ASCII digits and letters and their fullwidth forms. */
  function HexDigit(c: char): (d: Option<nat>)
    ensures d.Some? ==> d.value < 16
  {
    if '0' <= c <= '9' then Some((c - '0') as nat)
    else if 'a' <= c <= 'f' then Some((c - 'a') as nat + 10)
    else if 'A' <= c <= 'F' then Some((c - 'A') as nat + 10)
    else if '\U{FF10}' <= c <= '\U{FF19}' then Some((c - '\U{FF10}') as nat)
    else if '\U{FF41}' <= c <= '\U{FF46}' then Some((c - '\U{FF41}') as nat + 10)
    else if '\U{FF21}' <= c <= '\U{FF26}' then Some((c - '\U{FF21}') as nat + 10)
    else None
  }

  /** The sixteen digits in lower and upper case, and their fullwidth forms. */
  const LOWER: string := "0123456789abcdef"
  const UPPER: string := "0123456789ABCDEF"

  /** The fullwidth form of an ASCII character (the block from U+FF01 on). */
  function Wide(c: char): char
    requires '!' <= c <= '~'
  {
    (c as int + 0xFEE0) as char
  }

  lemma DigitsAre(d: nat)
    requires d < 16
    ensures LOWER[d] == if d < 10 then '0' + d as char else 'a' + (d - 10) as char
    ensures UPPER[d] == if d < 10 then '0' + d as char else 'A' + (d - 10) as char
  {
  }

  /** A character reads as `d` exactly when it is the digit `d` of either alphabet, plain or fullwidth. */
  lemma HexDigitIff(c: char, d: nat)
    ensures HexDigit(c) == Some(d) <==>
            d < 16 && (c == LOWER[d] || c == UPPER[d] || c == Wide(LOWER[d]) || c == Wide(UPPER[d]))
  {
    if d < 16 {
      DigitsAre(d);
    }
  }

  predicate AllHex(h: string) { forall i :: 0 <= i < |h| ==> HexDigit(h[i]).Some? }

  /** The number a hex text denotes; characters that are no hex digit do not count. */
  function HexValue(h: string): nat {
    if h == [] then 0
    else
      var d := HexDigit(h[|h| - 1]);
      if d.None? then HexValue(h[..|h| - 1]) else 16 * HexValue(h[..|h| - 1]) + d.value
  }

  function Digits(s: string): string { if |s| >= 2 && s[..2] == "0x" then s[2..] else s }

  // ----- schoolbook multiplication on little-endian decimal digits -----

  function LeValue(d: seq<nat>): nat { if d == [] then 0 else d[0] + 10 * LeValue(d[1..]) }

  /** Decimal digits, no leading zero except for zero itself. */
  ghost predicate Canonical(d: seq<nat>) {
    && |d| >= 1
    && (forall i :: 0 <= i < |d| ==> d[i] < 10)
    && (|d| == 1 || d[|d| - 1] != 0)
  }

  function CarryDigits(carry: nat): seq<nat> {
    if carry == 0 then [] else [carry % 10] + CarryDigits(carry / 10)
  }

  /** The digits of `16 * d + carry`, one position at a time. */
  function Times16(d: seq<nat>, carry: nat): seq<nat> {
    if d == [] then CarryDigits(carry)
    else [(d[0] * 16 + carry) % 10] + Times16(d[1..], (d[0] * 16 + carry) / 10)
  }

  lemma {:induction false} CarryDigitsValue(carry: nat)
    ensures LeValue(CarryDigits(carry)) == carry
    ensures forall i :: 0 <= i < |CarryDigits(carry)| ==> CarryDigits(carry)[i] < 10
    ensures carry > 0 ==> |CarryDigits(carry)| > 0 && CarryDigits(carry)[|CarryDigits(carry)| - 1] != 0
  {
    if carry > 0 {
      CarryDigitsValue(carry / 10);
      assert CarryDigits(carry)[1..] == CarryDigits(carry / 10);
    }
  }

  lemma {:induction false} Times16Value(d: seq<nat>, carry: nat)
    ensures LeValue(Times16(d, carry)) == 16 * LeValue(d) + carry
    ensures forall i :: 0 <= i < |Times16(d, carry)| ==> Times16(d, carry)[i] < 10
    ensures |Times16(d, carry)| >= |d|
    decreases |d|
  {
    if d == [] {
      CarryDigitsValue(carry);
    } else {
      var v := d[0] * 16 + carry;
      Times16Value(d[1..], v / 10);
      assert Times16(d, carry)[1..] == Times16(d[1..], v / 10);
    }
  }

  lemma {:induction false} Times16Top(d: seq<nat>, carry: nat)
    requires d != [] && d[|d| - 1] != 0
    ensures Times16(d, carry) != [] && Times16(d, carry)[|Times16(d, carry)| - 1] != 0
    decreases |d|
  {
    var v := d[0] * 16 + carry;
    var rest := Times16(d[1..], v / 10);
    assert Times16(d, carry) == [v % 10] + rest;
    assert rest != [] && rest[|rest| - 1] != 0 by {
      if |d| == 1 {
        assert v / 10 > 0;
        CarryDigitsValue(v / 10);
        assert d[1..] == [];
      } else {
        Times16Top(d[1..], v / 10);
      }
    }
  }

  lemma Times16Canonical(d: seq<nat>, nib: nat)
    requires Canonical(d) && nib < 16
    ensures Canonical(Times16(d, nib))
  {
    Times16Value(d, nib);
    if d[|d| - 1] != 0 {
      Times16Top(d, nib);
    } else {
      assert d == [0] && d[1..] == [];
      CarryDigitsValue(nib / 10);
      assert nib / 10 > 0 || Times16(d, nib) == [nib % 10];
    }
  }

  /** The inner loops: multiply the digits by sixteen in place, then append the remaining carry. */
  method PushNibble(digits: seq<nat>, nib: nat) returns (dec: seq<nat>)
    ensures dec == Times16(digits, nib)
  {
    dec := digits;
    var carry, i := nib, 0;
    while i < |dec|
      invariant 0 <= i <= |dec| == |digits|
      invariant dec[i..] == digits[i..]
      invariant dec[..i] + Times16(digits[i..], carry) == Times16(digits, nib)
    {
      var val := dec[i] * 16 + carry;
      assert dec[i] == dec[i..][0] == digits[i];
      assert digits[i..][1..] == digits[i + 1..];
      assert dec[i + 1..] == dec[i..][1..];
      ghost var was := dec[..i];
      dec := dec[i := val % 10];
      assert dec[..i + 1] == was + [val % 10];
      carry := val / 10;
      i := i + 1;
    }
    assert digits[i..] == [] && dec[..i] == dec;
    while carry > 0
      invariant dec + CarryDigits(carry) == Times16(digits, nib)
    {
      dec := dec + [carry % 10];
      carry := carry / 10;
    }
  }

  function DigitChar(d: nat): char
    requires d < 10
  {
    '0' + d as char
  }

  /** The number a decimal text denotes. */
  function DecimalValue(s: string): nat
    requires forall i :: 0 <= i < |s| ==> '0' <= s[i] <= '9'
  {
    if s == [] then 0 else 10 * DecimalValue(s[..|s| - 1]) + (s[|s| - 1] - '0') as nat
  }

  predicate IsDecimal(s: string) {
    && |s| >= 1
    && (forall i :: 0 <= i < |s| ==> '0' <= s[i] <= '9')
    && (|s| == 1 || s[0] != '0')
  }

  function Rendered(d: seq<nat>): (s: string)
    requires forall i :: 0 <= i < |d| ==> d[i] < 10
    ensures |s| == |d| && forall i :: 0 <= i < |d| ==> s[i] == DigitChar(d[|d| - 1 - i])
  {
    seq(|d|, i requires 0 <= i < |d| => DigitChar(d[|d| - 1 - i]))
  }

  lemma {:induction false} RenderedValue(d: seq<nat>)
    requires forall i :: 0 <= i < |d| ==> d[i] < 10
    ensures DecimalValue(Rendered(d)) == LeValue(d)
    decreases |d|
  {
    if d != [] {
      RenderedValue(d[1..]);
      assert Rendered(d)[..|d| - 1] == Rendered(d[1..]);
    }
  }

  /** `hexToDecimalString`: the exact value, in decimal, without a leading zero. */
  method HexToDecimalString(s: string) returns (r: string)
    ensures IsDecimal(r) && DecimalValue(r) == HexValue(Digits(s))
  {
    var h := Digits(s);
    var dec: seq<nat> := [0];
    for k := 0 to |h|
      invariant Canonical(dec) && LeValue(dec) == HexValue(h[..k])
    {
      assert h[..k + 1][..k] == h[..k];
      var nib := HexDigit(h[k]);
      if nib.None? {
        continue;
      }
      Times16Value(dec, nib.value);
      Times16Canonical(dec, nib.value);
      dec := PushNibble(dec, nib.value);
    }
    assert h[..|h|] == h;
    r := Rendered(dec);
    RenderedValue(dec);
  }

  /** The text without its last digit, and that digit. */
  lemma Peel(s: string)
    requires IsDecimal(s) && |s| > 1
    ensures IsDecimal(s[..|s| - 1]) && s[..|s| - 1][0] == s[0]
    ensures DecimalValue(s) / 10 == DecimalValue(s[..|s| - 1])
    ensures DecimalValue(s) % 10 == (s[|s| - 1] - '0') as nat
  {
  }

  lemma {:induction false} LongIsLarge(s: string)
    requires IsDecimal(s)
    ensures DecimalValue(s) >= 10 <==> |s| > 1
    ensures DecimalValue(s) > 0 <==> s[0] != '0'
    decreases |s|
  {
    if |s| > 1 {
      Peel(s);
      LongIsLarge(s[..|s| - 1]);
    } else {
      assert s[..0] == [];
    }
  }

  /** Decimal texts without leading zeros are determined by their value, so the specification of
      `HexToDecimalString` leaves no freedom at all. */
  lemma {:induction false} DecimalIsUnique(s: string, t: string)
    requires IsDecimal(s) && IsDecimal(t) && DecimalValue(s) == DecimalValue(t)
    ensures s == t
    decreases |s|
  {
    LongIsLarge(s);
    LongIsLarge(t);
    if |s| > 1 {
      Peel(s);
      Peel(t);
      DecimalIsUnique(s[..|s| - 1], t[..|t| - 1]);
      assert s == s[..|s| - 1] + [s[|s| - 1]];
      assert t == t[..|t| - 1] + [t[|t| - 1]];
    } else {
      assert s[..0] == [] && t[..0] == [];
    }
  }

  // ----- the clamped reading -----

  /** The first `k` characters are hex digits. */
  predicate HexUpTo(h: string, k: nat)
    requires k <= |h|
  {
    forall i :: 0 <= i < k ==> HexDigit(h[i]).Some?
  }

  /** How many hex digits the text starts with. */
  function HexRun(h: string): (k: nat)
    ensures k <= |h| && HexUpTo(h, k) && (k < |h| ==> HexDigit(h[k]).None?)
  {
    if h == [] then 0
    else
      var n := |h| - 1;
      var k := HexRun(h[..n]);
      if k < n || HexDigit(h[n]).None? then k else n + 1
  }

  lemma HexRunAtLeast(h: string, k: nat)
    requires k <= |h| && HexUpTo(h, k)
    ensures k <= HexRun(h)
  {
  }

  lemma {:induction false} HexValueGrows(h: string, k: nat, m: nat)
    requires k <= m <= |h| && HexUpTo(h, m)
    ensures HexValue(h[..k]) <= HexValue(h[..m])
    decreases m
  {
    if k < m {
      HexValueGrows(h, k, m - 1);
      assert h[..m][..m - 1] == h[..m - 1];
    }
  }

  /** The value of the leading hex digits, cut at 2^63 - 1; a foreign character after them makes it zero,
      unless they already overflow 64 bits. */
  function Clamped(h: string): nat {
    var v := HexValue(h[..HexRun(h)]);
    if HexRun(h) < |h| && v <= U64_MAX then 0 else Min(v, I64_MAX)
  }

  /** On a text of hex digits only, the clamped reading is the lesser of its value and 2^63 - 1. */
  lemma ClampedOnHex(h: string)
    requires AllHex(h)
    ensures Clamped(h) == Min(HexValue(h), I64_MAX) && Clamped(Digits("0x" + h)) == Min(HexValue(h), I64_MAX)
  {
    HexRunAtLeast(h, |h|);
    assert h[..|h|] == h;
    assert ("0x" + h)[..2] == "0x" && ("0x" + h)[2..] == h;
  }

  /** One 64-bit multiply-and-add with the two overflow flags of the original. */
  method ShiftIn(v: u64, d: nat) returns (a: u64, overflow: bool)
    requires d < 16
    ensures overflow <==> v * 16 + d > U64_MAX
    ensures !overflow ==> a == v * 16 + d
  {
    var m, o1 := (v * 16) % (U64_MAX + 1), v * 16 > U64_MAX;
    var o2 := m + d > U64_MAX;
    a := (m + d) % (U64_MAX + 1);
    overflow := o1 || o2;
  }

  lemma HexStep(h: string, k: nat)
    requires k < |h| && HexUpTo(h, k) && HexDigit(h[k]).Some?
    ensures HexUpTo(h, k + 1) && HexValue(h[..k + 1]) == HexValue(h[..k]) * 16 + HexDigit(h[k]).value
  {
    assert h[..k + 1][..k] == h[..k];
  }

  lemma ClampedOverflow(h: string, k: nat)
    requires k <= |h| && HexUpTo(h, k) && HexValue(h[..k]) > U64_MAX
    ensures Clamped(h) == I64_MAX
  {
    HexRunAtLeast(h, k);
    HexValueGrows(h, k, HexRun(h));
  }

  method ClampedHex(s: string) returns (r: nat)
    ensures r == Clamped(Digits(s))
  {
    var h := Digits(s);
    var v: u64 := 0;
    for k := 0 to |h|
      invariant HexUpTo(h, k) && v == HexValue(h[..k])
    {
      var d := HexDigit(h[k]);
      if d.None? {
        HexRunAtLeast(h, k);
        assert HexRun(h) == k;
        return 0;
      }
      HexStep(h, k);
      var a, overflow := ShiftIn(v, d.value);
      if overflow {
        ClampedOverflow(h, k + 1);
        return I64_MAX;
      }
      v := a;
    }
    HexRunAtLeast(h, |h|);
    return if v > I64_MAX then I64_MAX else v;
  }
}
