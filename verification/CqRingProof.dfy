/** The completion ring is safe: nothing unread is overwritten, no stale lap is taken for a new one, and
    the guest receives the completions in the order their positions were reserved. */
module CqRingProof {
  import opened Cq
  import opened CqRing
  import opened Modular
  import opened Optional
  import opened Words

  // ------------------------------------------------------------------ indices of 22 bits

  lemma {:induction false} PowAdd(m: nat, n: nat)
    ensures Pow2(m + n) == Pow2(m) * Pow2(n)
  {
    if m > 0 {
      PowAdd(m - 1, n);
      assert Pow2(m + n) == 2 * (Pow2(m - 1) * Pow2(n)) == (2 * Pow2(m - 1)) * Pow2(n);
    }
  }

  /** A ring of at most 2^21 entries fits the 22-bit index space an even number of times, so neither the
      slot nor the lap parity is lost by keeping 22 bits of an index. */
  lemma MaskedIsEnough(n: nat, shift: nat)
    requires shift < 16
    ensures var d := JfcDepth(shift);
            Slot(Masked(n), d) == Slot(n, d) && Owner(Masked(n), d) == Owner(n, d)
  {
    var d, k := JfcDepth(shift), Pow2(15 - shift);
    IndexSpace(shift);
    hide JfcDepth, Pow2;
    FewerBits(n, d, k);
  }

  lemma FewerBits(n: nat, d: Depth, k: nat)
    requires INDEX == k * (2 * d)
    ensures Slot(Masked(n), d) == Slot(n, d) && Owner(Masked(n), d) == Owner(n, d)
  {
    var q, r := n / INDEX, Masked(n);
    assert n == r + q * INDEX;
    Regroup(q, k, d);
    SameSlot(n, r, q * k, d);
  }

  lemma SameSlot(n: nat, r: nat, m: nat, d: Depth)
    requires n == r + (m * 2) * d
    ensures Slot(r, d) == Slot(n, d) && Owner(r, d) == Owner(n, d)
  {
    AddMultiple(r, m * 2, d);
    Even(r / d, m);
  }

  lemma IndexSpace(shift: nat)
    requires shift < 16
    ensures INDEX == Pow2(15 - shift) * (2 * JfcDepth(shift))
  {
    PowValues();
    PowAdd(15 - shift, shift + 7);
    assert Pow2(shift + 7) == 2 * JfcDepth(shift);
  }

  lemma Regroup(q: nat, k: nat, d: nat)
    ensures q * (k * (2 * d)) == (q * k * 2) * d
  {
  }

  lemma Even(a: nat, k: nat)
    ensures (a + k * 2) % 2 == a % 2
  {
  }

  lemma NextLap(n: nat, d: Depth)
    ensures Slot(n + d, d) == Slot(n, d) && Owner(n + d, d) != Owner(n, d)
  {
    OneMore(n, d);
  }

  /** Positions less than a lap apart have different slots. */
  lemma SlotsDiffer(m: nat, n: nat, d: Depth)
    requires m < n < m + d
    ensures Slot(m, d) != Slot(n, d)
  {
    RemaindersDiffer(m, n, d);
  }

  // ------------------------------------------------------------------ what every reachable state satisfies

  ghost predicate Indices(s: Ring) {
    && s.known <= s.posted <= s.next <= |s.taken| <= s.posted + s.j.depth
    && s.j.consumer == Masked(s.known)
    && |s.received| == s.next
    && s.j.producer <= |s.taken|
    && (s.pipelined ==> |s.taken| == s.j.producer && s.j.producer - s.known < INDEX)
    && (!s.pipelined ==> |s.taken| == s.j.producer + |s.writes| && |s.writes| + |s.reading| <= s.inFlight <= 1)
    && |s.reading| + |s.writes| <= s.inFlight
  }

  /** A read will return an index that leaves the producer less than the index space ahead. */
  predicate ReadOk(s: Ring, r: Read) { r.posted <= s.posted && r.producer <= s.j.producer
                                      && r.producer <= r.posted + s.j.depth }

  ghost predicate Reads(s: Ring) {
    && (forall t :: t in s.reading ==> ReadOk(s, s.reading[t]))
    && (s.query.Some? ==> ReadOk(s, s.query.value))
  }

  ghost predicate Writes(s: Ring) {
    forall n :: n in s.writes ==>
      n < |s.taken| && s.taken[n] == s.writes[n].ticket && (!s.pipelined ==> n == s.j.producer)
  }

  function Past(s: Ring, n: nat): Cell
    requires n < |s.taken|
  {
    Entry(n, Owner(n, s.j.depth), s.taken[n])
  }

  /** The slot of position `n` still holds the previous lap. */
  predicate Stale(s: Ring, n: nat)
    requires |s.memory| == s.j.depth
  {
    if n < s.j.depth then s.memory[Slot(n, s.j.depth)] == Blank
    else n - s.j.depth < |s.taken| && s.memory[Slot(n, s.j.depth)] == Past(s, n - s.j.depth)
  }

  predicate Visible(s: Ring, n: nat)
    requires |s.memory| == s.j.depth
  {
    n < |s.taken| && s.memory[Slot(n, s.j.depth)] == Past(s, n)
  }

  /** The slots of the next lap: each holds its new completion or still the one of the lap before, which
      the guest has taken. */
  ghost predicate Slots(s: Ring)
    requires |s.memory| == s.j.depth
  {
    && (forall n {:trigger Visible(s, n)} {:trigger Stale(s, n)} :: s.next <= n < s.next + s.j.depth ==>
          if n in s.writes && !s.writes[n].landed then Stale(s, n) else Visible(s, n) || Stale(s, n))
    && (forall n :: n in s.writes && s.writes[n].landed && s.next <= n ==> Visible(s, n))
    && (forall n :: n in s.writes && !s.writes[n].landed ==> s.next <= n)
  }

  ghost predicate Received(s: Ring) {
    s.next <= |s.taken| && |s.received| == s.next && forall n :: 0 <= n < s.next ==> s.received[n] == Past(s, n)
  }

  ghost predicate Inv(s: Ring)
    requires |s.memory| == s.j.depth
  {
    64 <= s.j.depth <= 0x20_0000 && Indices(s) && Reads(s) && Writes(s) && Slots(s) && Received(s)
  }

  // ------------------------------------------------------------------ steps

  /** The masked distance is the true one while the producer is less than the index space ahead. */
  lemma TrueDistance(j: Jfc, index: nat)
    requires 0 <= j.producer - index < INDEX
    ensures Masked(j.producer - index) == j.producer - index
    ensures Masked(j.producer - Masked(index)) == j.producer - index
    ensures NoRoom(j, Masked(index)) <==> j.producer - index >= j.depth
  {
    MaskedDifference(j.producer, index);
  }

  lemma MaskedDifference(p: nat, c: nat)
    requires 0 <= p - c < INDEX
    ensures Masked(p - Masked(c)) == p - c && Masked(Masked(p) - Masked(c)) == p - c
  {
    var qp, qc := p / INDEX, c / INDEX;
    assert p == qp * INDEX + Masked(p) && c == qc * INDEX + Masked(c);
    assert qp == qc || qp == qc + 1;
  }

  lemma PublishSlots(s: Ring, t: Ring, ticket: nat)
    requires |s.memory| == s.j.depth == t.j.depth && Slots(s) && Writes(s) && |s.taken| == s.j.producer
    requires s.next <= s.j.producer < s.next + s.j.depth
    requires t.memory == s.memory && t.next == s.next && t.taken == s.taken + [ticket]
    requires t.writes == s.writes[s.j.producer := Write(ticket, false)]
    ensures Slots(t)
  {
    hide Slot, Owner;
    var p := s.j.producer;
    assert p !in s.writes;
    forall n | t.next <= n < t.next + t.j.depth
      ensures if n in t.writes && !t.writes[n].landed then Stale(t, n) else Visible(t, n) || Stale(t, n)
    {
      assert Visible(s, n) || Stale(s, n);
      assert Visible(s, n) ==> n < p && Visible(t, n);
      assert Stale(s, n) ==> Stale(t, n);
    }
    forall n | n in t.writes && t.writes[n].landed && t.next <= n
      ensures Visible(t, n)
    {
      assert Visible(s, n);
    }
  }

  lemma PublishIndices(s: Ring, ticket: nat, index: nat)
    requires Indices(s) && Writes(s) && index <= s.posted && s.j.producer - index < s.j.depth <= 0x20_0000
        && index <= s.j.producer
    requires s.inFlight > |s.reading| + |s.writes| && (!s.pipelined ==> s.writes == map[])
    ensures Indices(Publish(s, ticket, index)) && Writes(Publish(s, ticket, index))
  {
    assert s.j.producer !in s.writes;
    hide Masked;
  }

  /** Publishing at a sample that leaves room takes the position after the last, within a lap of what the
      guest has passed. */
  lemma PublishKeeps(s: Ring, ticket: nat, index: nat)
    requires |s.memory| == s.j.depth && Inv(s) && index <= s.posted && s.j.producer - index < s.j.depth
        && index <= s.j.producer
    requires s.inFlight > |s.reading| + |s.writes| && (!s.pipelined ==> s.writes == map[])
    ensures Inv(Publish(s, ticket, index))
  {
    var t := Publish(s, ticket, index);
    PublishIndices(s, ticket, index);
    PublishSlots(s, t, ticket);
    hide Slots, Indices, Writes, Owner, Masked;
  }

  lemma AdmitKeeps(s: Ring)
    requires |s.memory| == s.j.depth && Inv(s) && Enabled(s, Admit)
    ensures Inv(AdmitOne(s))
  {
    hide Inv, Publish, Held;
    if s.pipelined && Held(s.j) < s.j.depth {
      AdmitCached(s);
    } else {
      AdmitReads(s);
    }
  }

  lemma AdmitCached(s: Ring)
    requires |s.memory| == s.j.depth && Inv(s) && s.pipelined && Held(s.j) < s.j.depth
    ensures Inv(Publish(s.(admitted := s.admitted + 1, inFlight := s.inFlight + 1), s.admitted, s.known))
  {
    var t := s.(admitted := s.admitted + 1, inFlight := s.inFlight + 1);
    HeldIsTrue(s);
    assert t.known <= t.j.producer && t.known <= t.posted && t.inFlight > |t.reading| + |t.writes|;
    hide Held, Masked;
    assert Indices(t) && Reads(t) && Writes(t);
    OtherFields(s, t);
    hide Inv, Publish;
    PublishKeeps(t, s.admitted, s.known);
  }

  lemma HeldIsTrue(s: Ring)
    requires Indices(s) && s.pipelined
    ensures Held(s.j) == s.j.producer - s.known
  {
    MaskedDifference(s.j.producer, s.known);
  }

  lemma AdmitReads(s: Ring)
    requires |s.memory| == s.j.depth && Inv(s) && (!s.pipelined ==> s.inFlight == 0)
    ensures Inv(s.(admitted := s.admitted + 1, inFlight := s.inFlight + 1,
                   reading := s.reading[s.admitted := Read(s.posted, s.j.producer)]))
  {
    var t := s.(admitted := s.admitted + 1, inFlight := s.inFlight + 1,
                reading := s.reading[s.admitted := Read(s.posted, s.j.producer)]);
    hide Masked;
    assert Indices(t);
    assert Reads(t);
    OtherFields(s, t);
  }

  /** Steps that leave the ring itself alone. */
  lemma OtherFields(s: Ring, t: Ring)
    requires |s.memory| == s.j.depth && Inv(s)
    requires t.j.depth == s.j.depth && t.memory == s.memory && t.next == s.next && t.taken == s.taken
        && t.writes == s.writes
    requires t.received == s.received && Indices(t) && Reads(t) && Writes(t)
    ensures Inv(t)
  {
    hide Slot, Owner, Indices, Reads, Writes;
    assert Slots(t) by {
      forall n
        ensures Visible(t, n) <==> Visible(s, n)
        ensures Stale(t, n) <==> Stale(s, n)
      {
      }
      hide Visible, Stale;
    }
  }

  /** A sample is never so old that its residue misleads. */
  lemma SampleBehind(s: Ring, r: Read, sample: nat)
    requires Indices(s) && ReadOk(s, r) && Returns(s, r, sample) && Timely(s, r)
    ensures s.j.producer - sample < INDEX
  {
  }

  lemma RefreshKeeps(s: Ring, ticket: nat, ok: bool, sample: nat)
    requires |s.memory| == s.j.depth && Inv(s) && Enabled(s, ReadDone(ticket, ok, sample))
        && Timely(s, s.reading[ticket])
    ensures Inv(Refreshed(s, ticket, ok, sample))
  {
    var t := s.(reading := s.reading - {ticket});
    DropOne(s.reading, ticket);
    assert ReadOk(s, s.reading[ticket]);
    SampleBehind(s, s.reading[ticket], sample);
    assert sample <= s.j.producer;
    TrueDistance(s.j, sample);
    assert Indices(t) && Reads(t) && Writes(t);
    OtherFields(s, t);
    hide NoRoom;
    if !ok || NoRoom(s.j, Masked(sample)) {
    } else {
      assert !s.pipelined ==> |s.writes| == 0;
      hide Inv;
      PublishKeeps(t, ticket, sample);
    }
  }

  lemma DropOne<T>(m: map<nat, T>, k: nat)
    requires k in m
    ensures |m - {k}| == |m| - 1
  {
    assert (m - {k}).Keys == m.Keys - {k};
    assert |(m - {k}).Keys| == |m - {k}| && |m.Keys| == |m|;
  }

  /** Where a write lands nothing unread is lost: the slot was blank, or its entry has been taken. */
  lemma LandsOnStale(s: Ring, n: nat)
    requires |s.memory| == s.j.depth && Inv(s) && n in s.writes && !s.writes[n].landed
    ensures Stale(s, n) && s.next <= n < s.next + s.j.depth && n < |s.taken| && s.taken[n] == s.writes[n].ticket
  {
  }

  lemma LandKeeps(s: Ring, n: nat)
    requires |s.memory| == s.j.depth && Inv(s) && Enabled(s, Land(n))
    ensures Inv(Next(s, Land(n)))
  {
    LandsOnStale(s, n);
    var t := Next(s, Land(n));
    assert t.writes.Keys == s.writes.Keys;
    assert |t.writes| == |t.writes.Keys| == |s.writes.Keys| == |s.writes|;
    LandSlots(s, t, n);
    hide Slots, Slot, Owner;
  }

  lemma LandSlots(s: Ring, t: Ring, n: nat)
    requires |s.memory| == s.j.depth && Slots(s) && Writes(s) && n in s.writes && !s.writes[n].landed
    requires s.next <= n < s.next + s.j.depth && |s.taken| <= s.next + s.j.depth && n < |s.taken|
    requires t == s.(writes := s.writes[n := s.writes[n].(landed := true)],
                     memory := s.memory[Slot(n, s.j.depth) := Past(s, n)])
    ensures Slots(t)
  {
    forall m | s.next <= m < s.next + s.j.depth
      ensures m == n ==> Visible(t, m)
      ensures m != n ==> (Visible(t, m) <==> Visible(s, m)) && (Stale(t, m) <==> Stale(s, m))
    {
      if m < n {
        SlotsDiffer(m, n, s.j.depth);
      } else if n < m {
        SlotsDiffer(n, m, s.j.depth);
      }
    }
    hide Slot, Owner, Past;
    forall m | m in t.writes && t.writes[m].landed && t.next <= m
      ensures Visible(t, m)
    {
      assert m < |s.taken|;
    }
    hide Visible, Stale;
  }

  lemma WrittenKeeps(s: Ring, n: nat, ok: bool)
    requires |s.memory| == s.j.depth && Inv(s) && Enabled(s, WriteDone(n, ok))
    ensures Inv(Written(s, n, ok))
  {
    var t := Written(s, n, ok);
    DropOne(s.writes, n);
    assert t.writes == s.writes - {n};
    if !s.pipelined {
      assert |s.writes| == 1 && n == s.j.producer == |s.taken| - 1;
      assert t.writes == map[];
    }
    assert !ok ==> s.next <= n;
    WrittenSlots(s, t, n, ok);
    assert Indices(t) && Reads(t) && Writes(t) && Received(t);
    hide Slots, Indices, Reads, Writes, Received;
  }

  lemma WrittenSlots(s: Ring, t: Ring, n: nat, ok: bool)
    requires |s.memory| == s.j.depth && Slots(s) && Writes(s) && n in s.writes && s.writes[n].landed == ok
    requires s.next <= |s.taken|
    requires t.j.depth == s.j.depth && t.memory == s.memory && t.next == s.next && t.writes == s.writes - {n}
    requires t.taken == s.taken || (!ok && |s.taken| == n + 1 && s.next <= n && t.taken == s.taken[..n])
    ensures Slots(t)
  {
    hide Slot, Owner;
    forall m | s.next <= m < s.next + s.j.depth
      ensures Stale(s, m) ==> Stale(t, m)
      ensures Visible(s, m) && (t.taken == s.taken || m != n) ==> Visible(t, m)
    {
    }
    forall m | m in t.writes && t.writes[m].landed && t.next <= m
      ensures Visible(t, m)
    {
      assert Visible(s, m);
    }
    hide Visible, Stale;
  }

  /** The guest takes an entry exactly when it is the completion of its own position. */
  lemma PollIsExact(s: Ring, shift: nat)
    requires |s.memory| == s.j.depth && Inv(s) && shift < 16 && s.j.depth == JfcDepth(shift)
    ensures Accepts(s) <==> Visible(s, s.next)
    ensures Polled(s) == s.memory[Slot(s.next, s.j.depth)]
  {
    MaskedIsEnough(s.next, shift);
    assert Visible(s, s.next) || Stale(s, s.next);
    OwnerTells(s);
    hide JfcDepth, Slot, Owner, Masked, Inv, Visible;
  }

  /** The owner bit tells the completion of this lap from what the slot held before. */
  lemma OwnerTells(s: Ring)
    requires |s.memory| == s.j.depth && (Visible(s, s.next) || Stale(s, s.next))
    ensures OwnerOf(s.memory[Slot(s.next, s.j.depth)]) == Owner(s.next, s.j.depth) <==> Visible(s, s.next)
  {
    var n, d := s.next, s.j.depth;
    if n >= d {
      NextLap(n - d, d);
    } else {
      assert n / d == 0;
    }
    hide Slot;
  }

  lemma PollKeeps(s: Ring, shift: nat)
    requires |s.memory| == s.j.depth && Inv(s) && shift < 16 && s.j.depth == JfcDepth(shift) && Accepts(s)
    ensures Inv(Next(s, Poll)) && Polled(s) == Past(s, s.next)
  {
    PollIsExact(s, shift);
    var t := Next(s, Poll);
    NextLap(s.next, s.j.depth);
    PollSlots(s, t);
    hide Slots, Slot, Owner, JfcDepth;
  }

  lemma PollSlots(s: Ring, t: Ring)
    requires |s.memory| == s.j.depth && Slots(s) && Writes(s) && Visible(s, s.next) && |s.taken| <= s.next + s.j.depth
    requires Slot(s.next + s.j.depth, s.j.depth) == Slot(s.next, s.j.depth)
    requires t == s.(next := s.next + 1, received := t.received)
    ensures Slots(t)
  {
    hide Slot, Owner;
    forall n
      ensures Visible(t, n) <==> Visible(s, n)
      ensures Stale(t, n) <==> Stale(s, n)
    {
    }
    assert Stale(s, s.next + s.j.depth);
    assert s.next in s.writes ==> s.writes[s.next].landed by {
      assert Visible(s, s.next) ==> !Stale(s, s.next);
    }
    hide Visible, Stale;
  }

  lemma StepKeeps(s: Ring, a: Action, shift: nat)
    requires |s.memory| == s.j.depth && Inv(s) && shift < 16 && s.j.depth == JfcDepth(shift)
    requires Enabled(s, a) && Prompt(s, a)
    ensures Inv(Next(s, a)) && Next(s, a).j.depth == s.j.depth
  {
    hide JfcDepth, Slot, Owner, Inv, Masked, NoRoom, Received;
    match a
    case Admit => AdmitKeeps(s);
    case ReadDone(ticket, ok, sample) => RefreshKeeps(s, ticket, ok, sample);
    case Land(index) => LandKeeps(s, index);
    case WriteDone(index, ok) => WrittenKeeps(s, index, ok);
    case Poll => PollKeeps(s, shift);
    case QueryDone(ok, sample) => QueryKeeps(s, ok, sample);
    case _ => OthersKeep(s, a);
  }

  lemma OthersKeep(s: Ring, a: Action)
    requires |s.memory| == s.j.depth && Inv(s) && Enabled(s, a)
    requires !a.Admit? && !a.ReadDone? && !a.Land? && !a.WriteDone? && !a.Poll? && !a.QueryDone?
    ensures Inv(Next(s, a)) && Next(s, a).j.depth == s.j.depth
  {
    hide Slots, Slot, Owner, Masked, Received;
    OtherFields(s, Next(s, a));
  }

  lemma QueryKeeps(s: Ring, ok: bool, sample: nat)
    requires |s.memory| == s.j.depth && Inv(s) && Enabled(s, QueryDone(ok, sample)) && Timely(s, s.query.value)
    ensures Inv(Next(s, QueryDone(ok, sample)))
  {
    SampleBehind(s, s.query.value, sample);
    hide Slots, Slot, Owner, Masked, Received;
    OtherFields(s, Next(s, QueryDone(ok, sample)));
  }

  lemma {:induction false} RunInv(pipelined: bool, shift: nat, acts: seq<Action>)
    requires shift < 16 && Run(pipelined, shift, acts).Some?
    ensures Inv(Run(pipelined, shift, acts).value) && Run(pipelined, shift, acts).value.j.depth == JfcDepth(shift)
  {
    hide Next, Enabled, Prompt, Inv;
    if acts == [] {
      CreatedInv(pipelined, shift);
    } else {
      RunInv(pipelined, shift, acts[..|acts| - 1]);
      StepKeeps(Run(pipelined, shift, acts[..|acts| - 1]).value, acts[|acts| - 1], shift);
    }
  }

  lemma CreatedInv(pipelined: bool, shift: nat)
    requires shift < 16
    ensures Inv(Created(pipelined, shift)) && Created(pipelined, shift).j.depth == JfcDepth(shift)
  {
  }
}
