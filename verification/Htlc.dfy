/** The Bitcoin leg of a swap (`btc.rs`): the HTLC redeem script as bytes, a script interpreter with
    the consensus rules the script meets (BIP 65, BIP 141), and the proof that the script accepts
    exactly the two-branch contract. */
module Htlc {
  import opened Bytes

  const HASH_LEN: nat := 32
  const PUBKEY_LEN: nat := 33
  const MAX_ELEMENT: nat := 520
  const LOCKTIME_THRESHOLD: nat := 500_000_000
  const FINAL_SEQUENCE: u32 := 0xFFFF_FFFF

  type Hash = s: seq<byte> | |s| == HASH_LEN witness seq(HASH_LEN, i => 0)
  type Pubkey = s: seq<byte> | |s| == PUBKEY_LEN witness seq(PUBKEY_LEN, i => 0)
  type i64 = n: int | -0x8000_0000_0000_0000 <= n <= 0x7FFF_FFFF_FFFF_FFFF

  /** What a spend takes and where it pays: the funded output and its value, the payout and its script. */
  datatype Transfer = Transfer(txid: seq<byte>, vout: u32, valueSat: u64, payoutSat: u64, dest: seq<byte>)

  /** The unsigned one-input spend: the two fields the script can see, and what else a signature covers. */
  datatype TxContext = TxContext(lockTime: u32, sequence: u32, transfer: Transfer)

  /** The hash and the signature check, uninterpreted. */
  datatype Crypto = Crypto(
    sha256: seq<byte> -> seq<byte>,
    validSig: (seq<byte>, seq<byte>, TxContext) -> bool)

  datatype Params = Params(hashRoot: Hash, recipient: Pubkey, sender: Pubkey, cltv: i64)

  // ----- script numbers -----

  function Magnitude(n: nat): (m: seq<byte>)
    ensures m == [] <==> n == 0
  {
    if n == 0 then [] else [n % 256] + Magnitude(n / 256)
  }

  function FromLE(b: seq<byte>): nat {
    if b == [] then 0 else b[0] + 256 * FromLE(b[1..])
  }

  function EncodeNum(n: int): seq<byte> {
    var m := Magnitude(if n < 0 then -n else n);
    if m == [] then []
    else
      var last := m[|m| - 1];
      if last >= 128 then m + [if n < 0 then 0x80 else 0]
      else m[|m| - 1 := if n < 0 then last + 128 else last]
  }

  function DecodeNum(b: seq<byte>): int {
    if b == [] then 0
    else
      var last := b[|b| - 1];
      if last >= 128 then -(FromLE(b[|b| - 1 := last - 128]) as int) else FromLE(b)
  }

  lemma {:induction false} MagnitudeValue(n: nat)
    ensures FromLE(Magnitude(n)) == n
  {
    if n > 0 {
      MagnitudeValue(n / 256);
      assert Magnitude(n)[1..] == Magnitude(n / 256);
    }
  }

  lemma {:induction false} TrailingZero(b: seq<byte>)
    ensures FromLE(b + [0]) == FromLE(b)
    decreases |b|
  {
    if b == [] {
      assert b + [0] == [0] && [0][1..] == [];
      assert FromLE([0]) == 0 + 256 * FromLE([0][1..]);
    } else {
      assert (b + [0])[1..] == b[1..] + [0];
      TrailingZero(b[1..]);
    }
  }

  lemma NumRoundTrip(n: int)
    ensures DecodeNum(EncodeNum(n)) == n
  {
    var a := if n < 0 then -n else n;
    var m := Magnitude(a);
    MagnitudeValue(a);
    if m != [] {
      var last := m[|m| - 1];
      var e := EncodeNum(n);
      if last >= 128 {
        TrailingZero(m);
        assert e[|e| - 1 := 0] == m + [0];
      } else {
        assert e[|e| - 1 := last] == m && m[|m| - 1 := last] == m;
      }
    }
  }

  lemma {:induction false} MagnitudeLength(n: nat, k: nat)
    requires n < Pow256(k)
    ensures |Magnitude(n)| <= k
    decreases k
  {
    if n > 0 {
      MagnitudeLength(n / 256, k - 1);
    }
  }

  // ----- scripts as bytes -----

  datatype Op = If | Else | EndIf | Sha256 | EqualVerify | CheckSig | Cltv | Drop
              | SmallNum(num: int) | Push(data: seq<byte>)

  predicate WellFormed(op: Op) {
    match op
    case SmallNum(n) => n == -1 || 1 <= n <= 16
    case Push(d) => |d| <= 75
    case _ => true
  }

  function OpBytes(op: Op): (s: seq<byte>)
    requires WellFormed(op)
    ensures s != []
  {
    match op
    case If => [0x63]
    case Else => [0x67]
    case EndIf => [0x68]
    case Sha256 => [0xa8]
    case EqualVerify => [0x88]
    case CheckSig => [0xac]
    case Cltv => [0xb1]
    case Drop => [0x75]
    case SmallNum(n) => [0x50 + n]
    case Push(d) => [|d|] + d
  }

  function Serialise(ops: seq<Op>): seq<byte>
    requires forall i :: 0 <= i < |ops| ==> WellFormed(ops[i])
  {
    if ops == [] then [] else OpBytes(ops[0]) + Serialise(ops[1..])
  }

  /** The operation at the front of a script, if it is one of those used here. */
  function FirstOp(b: seq<byte>): Option<Op>
    requires b != []
  {
    var t: int := b[0];
    if t <= 75 then (if |b| < 1 + t then None else Some(Push(b[1..1 + t])))
    else if t == 0x4f || 0x51 <= t <= 0x60 then Some(SmallNum(t - 0x50))
    else match t
         case 0x63 => Some(If)
         case 0x67 => Some(Else)
         case 0x68 => Some(EndIf)
         case 0xa8 => Some(Sha256)
         case 0x88 => Some(EqualVerify)
         case 0xac => Some(CheckSig)
         case 0xb1 => Some(Cltv)
         case 0x75 => Some(Drop)
         case _ => None
  }

  function OpLen(op: Op): nat { if op.Push? then 1 + |op.data| else 1 }

  function Parse(b: seq<byte>): Option<seq<Op>>
    decreases |b|
  {
    if b == [] then Some([])
    else
      var op := FirstOp(b);
      if op.None? || OpLen(op.value) > |b| then None
      else
        var rest := Parse(b[OpLen(op.value)..]);
        if rest.None? then None else Some([op.value] + rest.value)
  }

  lemma FirstOpOf(op: Op, rest: seq<byte>)
    requires WellFormed(op)
    ensures var b := OpBytes(op) + rest;
            FirstOp(b) == Some(op) && OpLen(op) == |OpBytes(op)| && b[OpLen(op)..] == rest
  {
    var b := OpBytes(op) + rest;
    if op.Push? {
      assert b[1..1 + |op.data|] == op.data;
    }
  }

  /** Parsing a serialised script gives back its operations. */
  lemma {:induction false} ParseSerialise(ops: seq<Op>)
    requires forall i :: 0 <= i < |ops| ==> WellFormed(ops[i])
    ensures Parse(Serialise(ops)) == Some(ops)
    decreases |ops|
  {
    if ops != [] {
      ParseSerialise(ops[1..]);
      FirstOpOf(ops[0], Serialise(ops[1..]));
      assert ops == [ops[0]] + ops[1..];
    }
  }

  /** `push_int`: the shortest push of a number. */
  function PushInt(n: i64): Op {
    if n == -1 || 1 <= n <= 16 then SmallNum(n) else Push(EncodeNum(n))
  }

  function RedeemOps(p: Params): seq<Op> {
    ClaimHead(p) + RefundTail(p)
  }

  function ClaimHead(p: Params): seq<Op> {
    [If, Sha256, Push(p.hashRoot), EqualVerify, Push(p.recipient), CheckSig]
  }

  function RefundTail(p: Params): seq<Op> {
    [Else, PushInt(p.cltv), Cltv, Drop, Push(p.sender), CheckSig, EndIf]
  }

  lemma NumFitsPush(n: i64)
    ensures |EncodeNum(n)| <= 9 && WellFormed(PushInt(n))
  {
    Pow256Values();
    var k: int := n;
    MagnitudeLength(if k < 0 then -k else k, 8);
  }

  lemma RedeemWellFormed(p: Params)
    ensures forall i :: 0 <= i < |RedeemOps(p)| ==> WellFormed(RedeemOps(p)[i])
  {
    NumFitsPush(p.cltv);
  }

  function RedeemScript(p: Params): seq<byte> {
    RedeemWellFormed(p);
    Serialise(RedeemOps(p))
  }

  lemma {:induction false} SerialiseFront(ops: seq<Op>, rest: seq<Op>)
    requires forall i :: 0 <= i < |ops| ==> WellFormed(ops[i])
    requires forall i :: 0 <= i < |rest| ==> WellFormed(rest[i])
    ensures Serialise(ops + rest) == Serialise(ops) + Serialise(rest)
    decreases |ops|
  {
    if ops == [] {
      assert ops + rest == rest;
    } else {
      assert (ops + rest)[1..] == ops[1..] + rest;
      SerialiseFront(ops[1..], rest);
    }
  }

  lemma SerialiseOne(op: Op)
    requires WellFormed(op)
    ensures Serialise([op]) == OpBytes(op)
  {
    assert [op][1..] == [];
  }

  lemma SerialiseTwo(a: Op, b: Op)
    requires WellFormed(a) && WellFormed(b)
    ensures Serialise([a, b]) == OpBytes(a) + OpBytes(b)
  {
    assert [a, b][1..] == [b];
    SerialiseOne(b);
  }

  lemma SerialiseThree(a: Op, b: Op, c: Op)
    requires WellFormed(a) && WellFormed(b) && WellFormed(c)
    ensures Serialise([a, b, c]) == OpBytes(a) + OpBytes(b) + OpBytes(c)
  {
    assert [a, b, c][1..] == [b, c];
    SerialiseTwo(b, c);
    var x, y, z := OpBytes(a), OpBytes(b), OpBytes(c);
    assert x + (y + z) == x + y + z;
  }

  /** The redeem script byte for byte: OP_IF OP_SHA256 <32> OP_EQUALVERIFY <33> OP_CHECKSIG OP_ELSE, the pushed
      locktime, OP_CHECKLOCKTIMEVERIFY OP_DROP <33> OP_CHECKSIG OP_ENDIF. */
  lemma RedeemBytes(p: Params)
    ensures WellFormed(PushInt(p.cltv))
    ensures RedeemScript(p) == ([0x63] + [0xa8] + ([0x20] + p.hashRoot)) + ([0x88] + ([0x21] + p.recipient) + [0xac])
                             + ([0x67] + OpBytes(PushInt(p.cltv)) + [0xb1])
                             + ([0x75] + ([0x21] + p.sender) + [0xac]) + [0x68]
  {
    NumFitsPush(p.cltv);
    RedeemWellFormed(p);
    var a := [If, Sha256, Push(p.hashRoot)];
    var b := [EqualVerify, Push(p.recipient), CheckSig];
    var c := [Else, PushInt(p.cltv), Cltv];
    var d := [Drop, Push(p.sender), CheckSig];
    assert RedeemOps(p) == a + b + c + d + [EndIf];
    SerialiseFront(a + b + c + d, [EndIf]);
    SerialiseFront(a + b + c, d);
    SerialiseFront(a + b, c);
    SerialiseFront(a, b);
    SerialiseThree(If, Sha256, Push(p.hashRoot));
    SerialiseThree(EqualVerify, Push(p.recipient), CheckSig);
    SerialiseThree(Else, PushInt(p.cltv), Cltv);
    SerialiseThree(Drop, Push(p.sender), CheckSig);
    SerialiseOne(EndIf);
  }

  // ----- the interpreter -----

  /** The stack, top last, and the pending conditionals, innermost last. */
  datatype Machine = Machine(stack: seq<seq<byte>>, conds: seq<bool>)

  predicate Executing(m: Machine) { forall i :: 0 <= i < |m.conds| ==> m.conds[i] }

  /** False is any encoding of zero, including negative zero. */
  predicate Truthy(v: seq<byte>) {
    exists i :: 0 <= i < |v| && v[i] != 0 && (i == |v| - 1 ==> v[i] != 0x80)
  }

  const TRUE: seq<byte> := [1]
  const FALSE: seq<byte> := []

  /** BIP 65: a non-negative locktime of the same kind as the transaction's, reached by it, on an
      input that is not final. */
  predicate LockSatisfied(ctx: TxContext, lock: int) {
    && 0 <= lock <= ctx.lockTime
    && (lock < LOCKTIME_THRESHOLD <==> ctx.lockTime < LOCKTIME_THRESHOLD)
    && ctx.sequence != FINAL_SEQUENCE
  }

  function Step(c: Crypto, ctx: TxContext, op: Op, m: Machine): Option<Machine> {
    var s, n := m.stack, |m.stack|;
    match op
    case If =>
      if !Executing(m) then Some(m.(conds := m.conds + [false]))
      else if n < 1 then None
      else Some(Machine(s[..n - 1], m.conds + [Truthy(s[n - 1])]))
    case Else =>
      if m.conds == [] then None
      else Some(m.(conds := m.conds[|m.conds| - 1 := !m.conds[|m.conds| - 1]]))
    case EndIf =>
      if m.conds == [] then None else Some(m.(conds := m.conds[..|m.conds| - 1]))
    case _ => if Executing(m) then Run(c, ctx, op, m) else Some(m)
  }

  /** An operation that is not a conditional, in an executing branch. */
  function Run(c: Crypto, ctx: TxContext, op: Op, m: Machine): Option<Machine> {
    var s, n := m.stack, |m.stack|;
    match op
    case SmallNum(k) => Some(m.(stack := s + [EncodeNum(k)]))
    case Push(d) => Some(m.(stack := s + [d]))
    case Sha256 => if n < 1 then None else Some(m.(stack := s[..n - 1] + [c.sha256(s[n - 1])]))
    case EqualVerify =>
      if n < 2 || s[n - 1] != s[n - 2] then None else Some(m.(stack := s[..n - 2]))
    case CheckSig =>
      if n < 2 then None
      else Some(m.(stack := s[..n - 2] + [if c.validSig(s[n - 2], s[n - 1], ctx) then TRUE else FALSE]))
    case Drop => if n < 1 then None else Some(m.(stack := s[..n - 1]))
    case Cltv =>
      if n < 1 || |s[n - 1]| > 5 || !LockSatisfied(ctx, DecodeNum(s[n - 1])) then None else Some(m)
    case _ => None
  }

  function Exec(c: Crypto, ctx: TxContext, ops: seq<Op>, m: Machine): Option<Machine>
    decreases |ops|
  {
    if ops == [] then Some(m)
    else
      var m' := Step(c, ctx, ops[0], m);
      if m'.None? then None else Exec(c, ctx, ops[1..], m'.value)
  }

  predicate SmallElements(stack: seq<seq<byte>>) {
    forall i :: 0 <= i < |stack| ==> |stack[i]| <= MAX_ELEMENT
  }

  /** BIP 141: the witness script must leave exactly one element, and a true one. */
  predicate Accepts(c: Crypto, ctx: TxContext, script: seq<byte>, stack: seq<seq<byte>>) {
    var ops := Parse(script);
    && SmallElements(stack) && ops.Some?
    && var r := Exec(c, ctx, ops.value, Machine(stack, []));
       r.Some? && r.value.conds == [] && |r.value.stack| == 1 && Truthy(r.value.stack[0])
  }

  // ----- the contract -----

  predicate ClaimTerms(c: Crypto, ctx: TxContext, p: Params, stack: seq<seq<byte>>) {
    && |stack| == 3 && Truthy(stack[2])
    && c.sha256(stack[1]) == p.hashRoot
    && c.validSig(stack[0], p.recipient, ctx)
  }

  predicate RefundTerms(c: Crypto, ctx: TxContext, p: Params, stack: seq<seq<byte>>) {
    && |stack| == 2 && !Truthy(stack[1])
    && LockSatisfied(ctx, p.cltv)
    && c.validSig(stack[0], p.sender, ctx)
  }

  /** The pushed locktime passes the five-byte and BIP 65 checks exactly when the agreed locktime is
      satisfied: longer encodings only ever denote locktimes no transaction can reach. */
  lemma CltvMeansLock(ctx: TxContext, n: i64)
    ensures |EncodeNum(n)| <= 5 && LockSatisfied(ctx, DecodeNum(EncodeNum(n))) <==> LockSatisfied(ctx, n)
  {
    NumRoundTrip(n);
    if LockSatisfied(ctx, n) {
      Pow256Values();
      MagnitudeLength(n, 4);
    }
  }

  lemma ExecCons(c: Crypto, ctx: TxContext, op: Op, rest: seq<Op>, m: Machine)
    ensures Exec(c, ctx, [op] + rest, m)
            == var m' := Step(c, ctx, op, m); if m'.None? then None else Exec(c, ctx, rest, m'.value)
  {
    assert ([op] + rest)[1..] == rest;
  }

  lemma {:induction false} ExecAppend(c: Crypto, ctx: TxContext, xs: seq<Op>, ys: seq<Op>, m: Machine)
    ensures Exec(c, ctx, xs + ys, m)
            == var r := Exec(c, ctx, xs, m); if r.None? then None else Exec(c, ctx, ys, r.value)
    decreases |xs|
  {
    if xs == [] {
      assert xs + ys == ys;
    } else {
      assert (xs + ys)[1..] == xs[1..] + ys;
      var m' := Step(c, ctx, xs[0], m);
      if m'.Some? {
        ExecAppend(c, ctx, xs[1..], ys, m'.value);
      }
    }
  }

  predicate Conditional(op: Op) { op.If? || op.Else? || op.EndIf? }

  /** A branch not taken leaves the machine alone. */
  lemma {:induction false} Skipped(c: Crypto, ctx: TxContext, ops: seq<Op>, m: Machine)
    requires !Executing(m) && forall i :: 0 <= i < |ops| ==> !Conditional(ops[i])
    ensures Exec(c, ctx, ops, m) == Some(m)
    decreases |ops|
  {
    if ops != [] {
      Skipped(c, ctx, ops[1..], m);
    }
  }

  function ClaimBody(p: Params): seq<Op> {
    [Sha256, Push(p.hashRoot), EqualVerify, Push(p.recipient), CheckSig]
  }

  function RefundBody(p: Params): seq<Op> {
    [PushInt(p.cltv), Cltv, Drop, Push(p.sender), CheckSig]
  }

  /** `<hash> OP_EQUALVERIFY` on a stack whose top is an image. */
  lemma ImageCheck(c: Crypto, ctx: TxContext, h: Hash, below: seq<seq<byte>>, image: seq<byte>)
    ensures Exec(c, ctx, [Push(h), EqualVerify], Machine(below + [image], [true]))
            == if image != h then None else Some(Machine(below, [true]))
  {
    var s := below + [image];
    assert [Push(h), EqualVerify] == [Push(h)] + [EqualVerify] && [EqualVerify] == [EqualVerify] + [];
    ExecCons(c, ctx, Push(h), [EqualVerify], Machine(s, [true]));
    ExecCons(c, ctx, EqualVerify, [], Machine(s + [h], [true]));
    assert (s + [h])[..|below|] == below;
  }

  /** `OP_SHA256 <hash> OP_EQUALVERIFY`: consumes a preimage of the hash, fails on anything else. */
  lemma HashLock(c: Crypto, ctx: TxContext, h: Hash, s: seq<seq<byte>>)
    ensures var n := |s|;
            Exec(c, ctx, [Sha256, Push(h), EqualVerify], Machine(s, [true]))
            == if n < 1 || c.sha256(s[n - 1]) != h then None else Some(Machine(s[..n - 1], [true]))
  {
    assert [Sha256, Push(h), EqualVerify] == [Sha256] + [Push(h), EqualVerify];
    ExecCons(c, ctx, Sha256, [Push(h), EqualVerify], Machine(s, [true]));
    if |s| >= 1 {
      ImageCheck(c, ctx, h, s[..|s| - 1], c.sha256(s[|s| - 1]));
    }
  }

  /** The claim branch, taken on a stack `below + [sig, preimage]`. */
  lemma ClaimBranch(c: Crypto, ctx: TxContext, p: Params, s: seq<seq<byte>>)
    ensures var n := |s|;
            Exec(c, ctx, ClaimBody(p), Machine(s, [true]))
            == if n < 2 || c.sha256(s[n - 1]) != p.hashRoot then None
               else Some(Machine(s[..n - 2] + [if c.validSig(s[n - 2], p.recipient, ctx) then TRUE else FALSE], [true]))
  {
    var n := |s|;
    assert ClaimBody(p) == [Sha256, Push(p.hashRoot), EqualVerify] + [Push(p.recipient), CheckSig];
    ExecAppend(c, ctx, [Sha256, Push(p.hashRoot), EqualVerify], [Push(p.recipient), CheckSig], Machine(s, [true]));
    HashLock(c, ctx, p.hashRoot, s);
    if n >= 1 {
      SignedBy(c, ctx, p.recipient, s[..n - 1]);
      assert n >= 2 ==> s[..n - 1][..n - 2] == s[..n - 2];
    }
  }

  /** `<pubkey> OP_CHECKSIG` on a stack whose top is the signature. */
  lemma SignedBy(c: Crypto, ctx: TxContext, pk: Pubkey, s: seq<seq<byte>>)
    ensures var r := Exec(c, ctx, [Push(pk), CheckSig], Machine(s, [true]));
            var n := |s|;
            if n < 1 then r.None?
            else r == Some(Machine(s[..n - 1] + [if c.validSig(s[n - 1], pk, ctx) then TRUE else FALSE], [true]))
  {
    var m := Machine(s, [true]);
    var m1 := Machine(s + [pk], [true]);
    assert [Push(pk), CheckSig] == [Push(pk)] + [CheckSig] && [CheckSig] == [CheckSig] + [];
    ExecCons(c, ctx, Push(pk), [CheckSig], m);
    ExecCons(c, ctx, CheckSig, [], m1);
    assert |s| >= 1 ==> (s + [pk])[..|s| - 1] == s[..|s| - 1];
  }

  /** `<locktime> OP_CHECKLOCKTIMEVERIFY OP_DROP`: passes exactly when the lock is satisfied. */
  lemma TimeLock(c: Crypto, ctx: TxContext, n: i64, s: seq<seq<byte>>)
    ensures Exec(c, ctx, [PushInt(n), Cltv, Drop], Machine(s, [true]))
            == if LockSatisfied(ctx, n) then Some(Machine(s, [true])) else None
  {
    var num := EncodeNum(n);
    var m1 := Machine(s + [num], [true]);
    assert [PushInt(n), Cltv, Drop] == [PushInt(n)] + [Cltv, Drop] && [Cltv, Drop] == [Cltv] + [Drop];
    assert [Drop] == [Drop] + [];
    ExecCons(c, ctx, PushInt(n), [Cltv, Drop], Machine(s, [true]));
    assert Step(c, ctx, PushInt(n), Machine(s, [true])) == Some(m1);
    ExecCons(c, ctx, Cltv, [Drop], m1);
    CltvMeansLock(ctx, n);
    ExecCons(c, ctx, Drop, [], m1);
    assert (s + [num])[..|s|] == s;
  }

  /** The refund branch, taken on a stack `below + [sig]`. */
  lemma RefundBranch(c: Crypto, ctx: TxContext, p: Params, s: seq<seq<byte>>)
    ensures var n := |s|;
            Exec(c, ctx, RefundBody(p), Machine(s, [true]))
            == if !LockSatisfied(ctx, p.cltv) || n < 1 then None
               else Some(Machine(s[..n - 1] + [if c.validSig(s[n - 1], p.sender, ctx) then TRUE else FALSE], [true]))
  {
    assert RefundBody(p) == [PushInt(p.cltv), Cltv, Drop] + [Push(p.sender), CheckSig];
    ExecAppend(c, ctx, [PushInt(p.cltv), Cltv, Drop], [Push(p.sender), CheckSig], Machine(s, [true]));
    TimeLock(c, ctx, p.cltv, s);
    SignedBy(c, ctx, p.sender, s);
  }

  /** The whole script after its selector has been read. */
  lemma AfterSelector(c: Crypto, ctx: TxContext, p: Params, s: seq<seq<byte>>, taken: bool)
    requires var r := Exec(c, ctx, if taken then ClaimBody(p) else RefundBody(p), Machine(s, [true]));
             r.Some? ==> r.value.conds == [true]
    ensures var body := if taken then ClaimBody(p) else RefundBody(p);
            var r := Exec(c, ctx, body, Machine(s, [true]));
            Exec(c, ctx, ClaimBody(p) + RefundTail(p), Machine(s, [taken]))
            == (if r.None? then None else Some(Machine(r.value.stack, [])))
  {
    var m := Machine(s, [taken]);
    assert RefundTail(p) == [Else] + RefundBody(p) + [EndIf];
    ExecAppend(c, ctx, ClaimBody(p), RefundTail(p), m);
    if taken {
      var r := Exec(c, ctx, ClaimBody(p), m);
      if r.Some? {
        TailSkipped(c, ctx, p, r.value);
      }
    } else {
      assert !Executing(m) by { assert !m.conds[0]; }
      Skipped(c, ctx, ClaimBody(p), m);
      TailRuns(c, ctx, p, m);
    }
  }

  lemma TailSkipped(c: Crypto, ctx: TxContext, p: Params, m: Machine)
    requires m.conds == [true]
    ensures Exec(c, ctx, RefundTail(p), m) == Some(Machine(m.stack, []))
  {
    var m1 := Machine(m.stack, [false]);
    assert RefundTail(p) == [Else] + (RefundBody(p) + [EndIf]);
    ExecCons(c, ctx, Else, RefundBody(p) + [EndIf], m);
    assert m.conds[0 := false] == [false];
    ExecAppend(c, ctx, RefundBody(p), [EndIf], m1);
    assert !Executing(m1) by { assert !m1.conds[0]; }
    assert !Conditional(PushInt(p.cltv));
    Skipped(c, ctx, RefundBody(p), m1);
    EndOfIf(c, ctx, m1);
  }

  lemma TailRuns(c: Crypto, ctx: TxContext, p: Params, m: Machine)
    requires m.conds == [false]
    ensures var r := Exec(c, ctx, RefundBody(p), Machine(m.stack, [true]));
            r.None? || r.value.conds == [true] ==>
              Exec(c, ctx, RefundTail(p), m) == if r.None? then None else Some(Machine(r.value.stack, []))
  {
    var m1 := Machine(m.stack, [true]);
    assert RefundTail(p) == [Else] + (RefundBody(p) + [EndIf]);
    ExecCons(c, ctx, Else, RefundBody(p) + [EndIf], m);
    assert m.conds[0 := true] == [true];
    assert Step(c, ctx, Else, m) == Some(m1);
    ExecAppend(c, ctx, RefundBody(p), [EndIf], m1);
    var r := Exec(c, ctx, RefundBody(p), m1);
    if r.Some? && r.value.conds == [true] {
      EndOfIf(c, ctx, r.value);
    }
  }

  lemma EndOfIf(c: Crypto, ctx: TxContext, m: Machine)
    requires |m.conds| == 1
    ensures Exec(c, ctx, [EndIf], m) == Some(Machine(m.stack, []))
  {
    assert [EndIf] == [EndIf] + [];
    ExecCons(c, ctx, EndIf, [], m);
    assert m.conds[..0] == [];
  }

  lemma TruthValues()
    ensures Truthy(TRUE) && !Truthy(FALSE)
  {
    assert TRUE[0] == 1 && |TRUE| == 1;
    assert 0 <= 0 < |TRUE| && TRUE[0] != 0 && TRUE[0] != 0x80;
  }

  /** What running the whole script leaves behind. */
  function Verdict(c: Crypto, ctx: TxContext, p: Params, stack: seq<seq<byte>>): Option<seq<seq<byte>>> {
    if stack == [] then None
    else
      var n := |stack| - 1;
      var s := stack[..n];
      if Truthy(stack[n]) then
        if n < 2 || c.sha256(s[n - 1]) != p.hashRoot then None
        else Some(s[..n - 2] + [if c.validSig(s[n - 2], p.recipient, ctx) then TRUE else FALSE])
      else if !LockSatisfied(ctx, p.cltv) || n < 1 then None
      else Some(s[..n - 1] + [if c.validSig(s[n - 1], p.sender, ctx) then TRUE else FALSE])
  }

  lemma ScriptRuns(c: Crypto, ctx: TxContext, p: Params, stack: seq<seq<byte>>)
    ensures var v := Verdict(c, ctx, p, stack);
            Exec(c, ctx, RedeemOps(p), Machine(stack, [])) == if v.None? then None else Some(Machine(v.value, []))
  {
    var m := Machine(stack, []);
    assert ClaimHead(p) == [If] + ClaimBody(p);
    assert RedeemOps(p) == [If] + (ClaimBody(p) + RefundTail(p));
    ExecCons(c, ctx, If, ClaimBody(p) + RefundTail(p), m);
    if stack != [] {
      var n := |stack| - 1;
      var s, taken := stack[..n], Truthy(stack[n]);
      assert [] + [taken] == [taken];
      assert Step(c, ctx, If, m) == Some(Machine(s, [taken]));
      if taken {
        ClaimBranch(c, ctx, p, s);
      } else {
        RefundBranch(c, ctx, p, s);
      }
      AfterSelector(c, ctx, p, s, taken);
    }
  }

  lemma VerdictMeansContract(c: Crypto, ctx: TxContext, p: Params, stack: seq<seq<byte>>)
    ensures var v := Verdict(c, ctx, p, stack);
            v.Some? && |v.value| == 1 && Truthy(v.value[0])
            <==> ClaimTerms(c, ctx, p, stack) || RefundTerms(c, ctx, p, stack)
  {
    TruthValues();
  }

  /** The redeem script means the contract: it accepts a witness stack in a transaction exactly when
      the claim terms or the refund terms hold. */
  lemma ScriptMeansContract(c: Crypto, ctx: TxContext, p: Params, stack: seq<seq<byte>>)
    ensures Accepts(c, ctx, RedeemScript(p), stack)
            <==> SmallElements(stack) && (ClaimTerms(c, ctx, p, stack) || RefundTerms(c, ctx, p, stack))
  {
    RedeemWellFormed(p);
    ParseSerialise(RedeemOps(p));
    ScriptRuns(c, ctx, p, stack);
    VerdictMeansContract(c, ctx, p, stack);
  }

  // ----- building and reading spends -----

  datatype BtcError = BadLocktime | Sighash | BadSignature

  /** The signing seam: the sighash over a spend and its script, the key behind it, and how DER signatures
      are read, brought to low-S form and written; all uninterpreted. */
  datatype Signing = Signing(
    sighash: (TxContext, seq<byte>) -> Option<seq<byte>>,
    sign: seq<byte> -> seq<byte>,
    fromDer: seq<byte> -> Option<seq<byte>>,
    lowS: seq<byte> -> seq<byte>,
    toDer: seq<byte> -> seq<byte>)

  const SIGHASH_ALL: byte := 1

  /** The signature item of a spend: what the key says about its sighash, normalised, with the sighash type. */
  function SignatureItem(k: Signing, p: Params, ctx: TxContext): Result<seq<byte>, BtcError> {
    match k.sighash(ctx, RedeemScript(p))
    case None => Err(Sighash)
    case Some(hash) =>
      match k.fromDer(k.sign(hash))
      case None => Err(BadSignature)
      case Some(sig) => Ok(k.toDer(k.lowS(sig)) + [SIGHASH_ALL])
  }

  /** A one-input spend of the funded output: what the script sees, and the witness. */
  datatype Spend = Spend(ctx: TxContext, items: seq<seq<byte>>)

  /** The P2WSH rule: the last witness item is the script the program commits to, the rest its stack. */
  predicate Spends(c: Crypto, program: seq<byte>, t: Spend) {
    var n := |t.items|;
    && n >= 1 && c.sha256(t.items[n - 1]) == program
    && Accepts(c, t.ctx, t.items[n - 1], t.items[..n - 1])
  }

  function Witness(p: Params, sig: seq<byte>, branch: seq<seq<byte>>): seq<seq<byte>> {
    [sig] + branch + [RedeemScript(p)]
  }

  /** `sign_spend`: sign the spend through the seam and assemble signature, branch items and script. */
  method SignSpend(k: Signing, p: Params, ctx: TxContext, branch: seq<seq<byte>>) returns (r: Result<Spend, BtcError>)
    ensures match SignatureItem(k, p, ctx)
            case Err(e) => r == Err(e)
            case Ok(sig) => r == Ok(Spend(ctx, Witness(p, sig, branch)))
  {
    var redeem := RedeemScript(p);
    var hash := k.sighash(ctx, redeem);
    if hash.None? {
      return Err(Sighash);
    }
    var sig := k.fromDer(k.sign(hash.value));
    if sig.None? {
      return Err(BadSignature);
    }
    var items := [k.toDer(k.lowS(sig.value)) + [SIGHASH_ALL]];
    var i := 0;
    while i < |branch|
      invariant 0 <= i <= |branch| && items == [k.toDer(k.lowS(sig.value)) + [SIGHASH_ALL]] + branch[..i]
    {
      items := items + [branch[i]];
      i := i + 1;
    }
    assert branch[..i] == branch;
    items := items + [redeem];
    return Ok(Spend(ctx, items));
  }

  method ClaimTx(k: Signing, p: Params, transfer: Transfer, preimage: Hash) returns (r: Result<Spend, BtcError>)
    ensures match SignatureItem(k, p, ClaimContext(transfer))
            case Err(e) => r == Err(e)
            case Ok(sig) => r == Ok(ClaimSpend(p, transfer, preimage, sig))
  {
    r := SignSpend(k, p, TxContext(0, FINAL_SEQUENCE, transfer), [preimage, [0x01]]);
  }

  method RefundTx(k: Signing, p: Params, transfer: Transfer) returns (r: Result<Spend, BtcError>)
    ensures !(0 <= p.cltv <= U32_MAX) ==> r == Err(BadLocktime)
    ensures 0 <= p.cltv <= U32_MAX ==>
              match SignatureItem(k, p, RefundContext(p, transfer))
              case Err(e) => r == Err(e)
              case Ok(sig) => r == Ok(RefundSpend(p, transfer, sig))
  {
    if p.cltv < 0 || p.cltv > U32_MAX {
      return Err(BadLocktime);
    }
    r := SignSpend(k, p, TxContext(p.cltv, FINAL_SEQUENCE - 1, transfer), [[]]);
  }

  function ClaimContext(transfer: Transfer): TxContext { TxContext(0, FINAL_SEQUENCE, transfer) }

  function RefundContext(p: Params, transfer: Transfer): TxContext
    requires 0 <= p.cltv <= U32_MAX
  {
    TxContext(p.cltv, FINAL_SEQUENCE - 1, transfer)
  }

  function ClaimSpend(p: Params, transfer: Transfer, preimage: Hash, sig: seq<byte>): Spend {
    Spend(ClaimContext(transfer), Witness(p, sig, [preimage, [0x01]]))
  }

  function RefundSpend(p: Params, transfer: Transfer, sig: seq<byte>): Spend
    requires 0 <= p.cltv <= U32_MAX
  {
    Spend(RefundContext(p, transfer), Witness(p, sig, [[]]))
  }

  function Program(c: Crypto, p: Params): seq<byte> { c.sha256(RedeemScript(p)) }

  lemma SpendIffContract(c: Crypto, p: Params, ctx: TxContext, sig: seq<byte>, branch: seq<seq<byte>>)
    ensures Spends(c, Program(c, p), Spend(ctx, Witness(p, sig, branch)))
            <==> SmallElements([sig] + branch)
                 && (ClaimTerms(c, ctx, p, [sig] + branch) || RefundTerms(c, ctx, p, [sig] + branch))
  {
    var w := Witness(p, sig, branch);
    assert w[..|w| - 1] == [sig] + branch;
    ScriptMeansContract(c, ctx, p, [sig] + branch);
  }

  /** The built claim spends the output exactly when the preimage opens the hashlock and the signature
      is the recipient's: no other branch can accept it. */
  lemma ClaimSpends(c: Crypto, p: Params, transfer: Transfer, preimage: Hash, sig: seq<byte>)
    requires |sig| <= MAX_ELEMENT
    ensures var t := ClaimSpend(p, transfer, preimage, sig);
            Spends(c, Program(c, p), t)
            <==> c.sha256(preimage) == p.hashRoot && c.validSig(sig, p.recipient, t.ctx)
  {
    var t := ClaimSpend(p, transfer, preimage, sig);
    SpendIffContract(c, p, t.ctx, sig, [preimage, [0x01]]);
    assert [0x01] == TRUE;
    TruthValues();
    var stack := [sig] + [preimage, [0x01]];
    assert stack[0] == sig && stack[1] == preimage && stack[2] == TRUE;
  }

  /** The built refund spends the output exactly when the signature is the sender's: its locktime and
      sequence satisfy BIP 65 by construction. */
  lemma RefundSpends(c: Crypto, p: Params, transfer: Transfer, sig: seq<byte>)
    requires 0 <= p.cltv <= U32_MAX && |sig| <= MAX_ELEMENT
    ensures var t := RefundSpend(p, transfer, sig);
            Spends(c, Program(c, p), t) <==> c.validSig(sig, p.sender, t.ctx)
  {
    var t := RefundSpend(p, transfer, sig);
    SpendIffContract(c, p, t.ctx, sig, [[]]);
    var stack := [sig] + [[]];
    assert stack[0] == sig && stack[1] == FALSE;
    TruthValues();
  }

  /** The refund builder fails for a bad locktime exactly when no transaction at all could take the
      refund branch. */
  lemma RefundBuildableIffReachable(p: Params)
    ensures 0 <= p.cltv <= U32_MAX <==> exists ctx :: LockSatisfied(ctx, p.cltv)
  {
    if 0 <= p.cltv <= U32_MAX {
      assert LockSatisfied(TxContext(p.cltv, 0, Transfer([], 0, 0, 0, [])), p.cltv);
    }
  }

  /** `extract_preimage`: witness item 1, if it is 32 bytes. */
  function ExtractPreimage(t: Spend): Option<Hash> {
    if |t.items| < 2 || |t.items[1]| != HASH_LEN then None else Some(t.items[1])
  }

  /** The preimage is readable from every built claim and from no built refund. */
  lemma PreimageIsRevealed(p: Params, transfer: Transfer, preimage: Hash, sig: seq<byte>)
    ensures ExtractPreimage(ClaimSpend(p, transfer, preimage, sig)) == Some(preimage)
    ensures 0 <= p.cltv <= U32_MAX ==> ExtractPreimage(RefundSpend(p, transfer, sig)) == None
  {
  }

  /** What `extract_preimage` yields on every accepted spend of this output. An accepted spend is a claim of
      four items or a refund of three. Item 1 of a claim always opens the hashlock, and of a refund is its
      false selector; the script checks the size of neither, and only 32 bytes are extracted. */
  lemma ExtractionIsExact(c: Crypto, p: Params, t: Spend)
    requires Spends(c, Program(c, p), t) && t.items[|t.items| - 1] == RedeemScript(p)
    ensures |t.items| == 4 || |t.items| == 3
    ensures ExtractPreimage(t).Some? <==> |t.items[1]| == HASH_LEN
    ensures ExtractPreimage(t).Some? ==> ExtractPreimage(t).value == t.items[1]
    ensures |t.items| == 4 ==> c.sha256(t.items[1]) == p.hashRoot
    ensures |t.items| == 3 ==> !Truthy(t.items[1])
  {
    var n := |t.items| - 1;
    ScriptMeansContract(c, t.ctx, p, t.items[..n]);
  }

  /** A claim reveals its preimage to the counterparty exactly when that preimage is 32 bytes long. */
  lemma ClaimRevealsIff(c: Crypto, p: Params, t: Spend)
    requires Spends(c, Program(c, p), t) && |t.items| == 4 && t.items[3] == RedeemScript(p)
    ensures ExtractPreimage(t).Some? && c.sha256(ExtractPreimage(t).value) == p.hashRoot <==> |t.items[1]| == HASH_LEN
  {
    ExtractionIsExact(c, p, t);
  }

  /** A refund yields nothing exactly when its false selector is not 32 bytes long; otherwise it yields that
      selector, which is zero but for a possible sign bit. */
  lemma RefundRevealsIff(c: Crypto, p: Params, t: Spend)
    requires Spends(c, Program(c, p), t) && |t.items| == 3 && t.items[2] == RedeemScript(p)
    ensures ExtractPreimage(t).None? <==> |t.items[1]| != HASH_LEN
    ensures ExtractPreimage(t).Some? ==>
              var x := ExtractPreimage(t).value;
              (forall i :: 0 <= i < HASH_LEN - 1 ==> x[i] == 0) && (x[HASH_LEN - 1] == 0 || x[HASH_LEN - 1] == 0x80)
  {
    ExtractionIsExact(c, p, t);
  }

  /** A preimage of any other size claims the output and is never extracted. */
  lemma OddSizedPreimageIsMissed(c: Crypto, p: Params, ctx: TxContext, sig: seq<byte>, x: seq<byte>)
    requires |sig| <= MAX_ELEMENT && |x| <= MAX_ELEMENT && |x| != HASH_LEN
    requires c.sha256(x) == p.hashRoot && c.validSig(sig, p.recipient, ctx)
    ensures var t := Spend(ctx, Witness(p, sig, [x, [0x01]]));
            Spends(c, Program(c, p), t) && ExtractPreimage(t) == None
  {
    SpendIffContract(c, p, ctx, sig, [x, [0x01]]);
    TruthValues();
    var stack := [sig] + [x, [0x01]];
    assert stack[0] == sig && stack[1] == x && stack[2] == TRUE;
    assert ClaimTerms(c, ctx, p, stack);
    assert Witness(p, sig, [x, [0x01]])[1] == x;
  }

  /** A refund whose selector is 32 zero bytes is accepted and reads as if it revealed them. */
  lemma ZeroSelectorReadsAsPreimage(c: Crypto, p: Params, ctx: TxContext, sig: seq<byte>)
    requires |sig| <= MAX_ELEMENT && LockSatisfied(ctx, p.cltv) && c.validSig(sig, p.sender, ctx)
    ensures var zeros: seq<byte> := seq(HASH_LEN, _ => 0);
            var t := Spend(ctx, Witness(p, sig, [zeros]));
            Spends(c, Program(c, p), t) && ExtractPreimage(t) == Some(zeros)
  {
    var zeros: seq<byte> := seq(HASH_LEN, _ => 0);
    SpendIffContract(c, p, ctx, sig, [zeros]);
    var stack := [sig] + [zeros];
    assert stack[0] == sig && stack[1] == zeros && !Truthy(zeros);
    assert RefundTerms(c, ctx, p, stack);
    assert Witness(p, sig, [zeros])[1] == zeros;
  }

  // ----- own spends -----

  /** How signatures are checked on chain, in terms of the signing seam: the item ends in the sighash type, the
      rest reads as a signature, and that signature is low-S and good for the spend's sighash and this key. */
  ghost predicate ChecksLike(c: Crypto, k: Signing, p: Params, key: Pubkey,
                             lowAndGood: (seq<byte>, seq<byte>) -> bool)
  {
    forall item, ctx :: c.validSig(item, key, ctx) <==>
      && |item| >= 1 && item[|item| - 1] == 0x01
      && k.sighash(ctx, RedeemScript(p)).Some? && k.fromDer(item[..|item| - 1]).Some?
      && lowAndGood(k.sighash(ctx, RedeemScript(p)).value, k.fromDer(item[..|item| - 1]).value)
  }

  /** The key behind the seam signs every sighash so that the low-S form of its signature is good, and DER
      reads back what it writes, in at most 72 bytes. */
  ghost predicate SignsWell(k: Signing, lowAndGood: (seq<byte>, seq<byte>) -> bool) {
    && (forall hash :: k.fromDer(k.sign(hash)).Some? && lowAndGood(hash, k.lowS(k.fromDer(k.sign(hash)).value)))
    && (forall sig :: k.fromDer(k.toDer(sig)) == Some(sig) && |k.toDer(sig)| <= 72)
  }

  /** The signature item of a spend made with the right key is accepted on chain: normalised to low-S and ending
      in the sighash type it covers. */
  lemma OwnSignatureIsValid(c: Crypto, k: Signing, p: Params, key: Pubkey, ctx: TxContext,
                            lowAndGood: (seq<byte>, seq<byte>) -> bool)
    requires ChecksLike(c, k, p, key, lowAndGood) && SignsWell(k, lowAndGood)
    ensures SignatureItem(k, p, ctx).Ok? <==> k.sighash(ctx, RedeemScript(p)).Some?
    ensures SignatureItem(k, p, ctx).Ok? ==>
              var item := SignatureItem(k, p, ctx).value; c.validSig(item, key, ctx) && |item| <= MAX_ELEMENT
  {
    var hash := k.sighash(ctx, RedeemScript(p));
    if hash.Some? {
      var sig := k.lowS(k.fromDer(k.sign(hash.value)).value);
      var item := SignatureItem(k, p, ctx).value;
      assert item[..|item| - 1] == k.toDer(sig);
    }
  }

  /** A claim made with the recipient's key and the preimage spends the output and reveals the preimage; a refund
      made with the sender's key spends it too. */
  lemma OwnSpendsAreAccepted(c: Crypto, k: Signing, p: Params, transfer: Transfer, preimage: Hash,
                             lowAndGood: (seq<byte>, seq<byte>) -> bool)
    requires SignsWell(k, lowAndGood)
    ensures ChecksLike(c, k, p, p.recipient, lowAndGood) && c.sha256(preimage) == p.hashRoot
            && SignatureItem(k, p, ClaimContext(transfer)).Ok? ==>
              var t := ClaimSpend(p, transfer, preimage, SignatureItem(k, p, ClaimContext(transfer)).value);
              Spends(c, Program(c, p), t) && ExtractPreimage(t) == Some(preimage)
    ensures ChecksLike(c, k, p, p.sender, lowAndGood) && 0 <= p.cltv <= U32_MAX
            && SignatureItem(k, p, RefundContext(p, transfer)).Ok? ==>
              Spends(c, Program(c, p), RefundSpend(p, transfer, SignatureItem(k, p, RefundContext(p, transfer)).value))
  {
    if ChecksLike(c, k, p, p.recipient, lowAndGood) && SignatureItem(k, p, ClaimContext(transfer)).Ok? {
      var sig := SignatureItem(k, p, ClaimContext(transfer)).value;
      OwnSignatureIsValid(c, k, p, p.recipient, ClaimContext(transfer), lowAndGood);
      ClaimSpends(c, p, transfer, preimage, sig);
      PreimageIsRevealed(p, transfer, preimage, sig);
    }
    if ChecksLike(c, k, p, p.sender, lowAndGood) && 0 <= p.cltv <= U32_MAX
       && SignatureItem(k, p, RefundContext(p, transfer)).Ok? {
      OwnSignatureIsValid(c, k, p, p.sender, RefundContext(p, transfer), lowAndGood);
      RefundSpends(c, p, transfer, SignatureItem(k, p, RefundContext(p, transfer)).value);
    }
  }
}
