/** A completion queue (JFC) context and the index arithmetic of its ring. */
module Cq {
  import opened Words

  /** Ring indices are exchanged as 22-bit numbers. */
  const INDEX: nat := 0x40_0000

  type Depth = x: nat | x > 0 witness 1

  /** `producer` counts without bound; `consumer` is the last index read from the guest.
      `writing` is the entry of `jfc_cqe_dma_in_flight_`. */
  datatype Jfc = Jfc(depth: Depth, producer: nat, consumer: nat, moderation: nat, period: nat,
                     completions: nat, deadline: nat, writing: nat)

  function Masked(x: int): (m: nat)
    ensures m < INDEX
  {
    x % INDEX
  }

  /** Entries in the ring, as far as the cached consumer tells. */
  function Held(j: Jfc): nat { Masked(j.producer - j.consumer) }

  /** A notification is owed when the moderation timer runs out. */
  predicate Timed(j: Jfc) { j.completions != 0 && j.deadline != 0 }

  predicate Expired(j: Jfc, now: nat) { Timed(j) && j.deadline <= now }

  /** Moderation periods in picoseconds. */
  function Period(code: nat): nat {
    match code
    case 0 => 0
    case 1 => 4_000_000
    case 2 => 16_000_000
    case 3 => 64_000_000
    case 4 => 256_000_000
    case 5 => 1024_000_000
    case 6 => 4096_000_000
    case _ => 16384_000_000
  }

  /** `publish` gives up when the consumer index it has leaves no room. */
  predicate NoRoom(j: Jfc, consumer: nat) { Masked(Masked(j.producer) - consumer) >= j.depth }

  /** The ring slot is taken; in pipelined mode the next publication may take another. */
  function Taken(j: Jfc, consumer: nat, pipelined: bool): Jfc {
    if pipelined then j.(consumer := consumer, producer := j.producer + 1, writing := j.writing + 1)
    else j.(consumer := consumer)
  }

  /** What a CQE write means for the JFC: it failed, it is moderated, or a notification is due. */
  datatype Verdict = Failed | Moderated | Due

  function Committed(j: Jfc, pipelined: bool, ok: bool, now: nat): (Jfc, Verdict)
    requires pipelined ==> j.writing > 0
  {
    var k := if pipelined then j.(writing := j.writing - 1) else j;
    if !ok then (k, Failed)
    else
      var n := k.(producer := if pipelined then k.producer else k.producer + 1, completions := k.completions + 1);
      if n.completions >= n.moderation then (n.(completions := 0, deadline := 0), Due)
      else if n.deadline == 0 && n.period != 0 then (n.(deadline := now + Period(n.period)), Moderated)
      else (n, Moderated)
  }

  function Pow2(n: nat): Depth { if n == 0 then 1 else 2 * Pow2(n - 1) }

  lemma {:induction false} PowMonotone(m: nat, n: nat)
    requires m <= n
    ensures Pow2(m) <= Pow2(n)
  {
    if m < n {
      PowMonotone(m, n - 1);
    }
  }

  lemma PowValues()
    ensures Pow2(6) == 64 && Pow2(21) == 0x20_0000 && Pow2(22) == INDEX && Pow2(23) == 0x80_0000
  {
    assert Pow2(5) == 32;
    assert Pow2(10) == 1024;
    assert Pow2(15) == 0x8000;
    assert Pow2(20) == 0x10_0000;
  }

  /** Rings hold at least 64 entries: a CEQ at most 2^23, a JFC at most 2^21. */
  function CeqDepth(shift: nat): (d: u32)
    requires shift < 18
    ensures 64 <= d <= 0x80_0000
  {
    PowValues();
    PowMonotone(shift + 6, 23);
    PowMonotone(6, shift + 6);
    Pow2(shift + 6)
  }

  function JfcDepth(shift: nat): (d: Depth)
    requires shift < 16
    ensures 64 <= d <= 0x20_0000
  {
    PowValues();
    PowMonotone(shift + 6, 21);
    PowMonotone(6, shift + 6);
    Pow2(shift + 6)
  }
}
