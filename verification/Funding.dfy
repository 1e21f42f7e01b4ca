/** What a funding verifier reports (`swap_funding_verify.rs`). */
module Funding {
  import opened Bytes

  datatype MismatchReason = Hashlock | Recipient

  datatype Observation =
    | Found(amount: u64, timeout: u64, confirmations: u32)
    | Absent
    | Mismatch(reason: MismatchReason)

  const FINALIZED_CONFIRMATIONS: u32 := U32_MAX

  /** `head - block + 1` with saturating steps, clamped to 32 bits. */
  function Depth(head: u64, block: u64): (d: u32)
    ensures d >= 1
    ensures block <= head && head - block < U32_MAX ==> d == head - block + 1
  {
    Min(Min(SatSub(head, block) + 1, U64_MAX), U32_MAX)
  }

  lemma DepthMonotone(lower: u64, higher: u64, block: u64)
    requires lower <= higher
    ensures Depth(lower, block) <= Depth(higher, block)
  {
  }
}
