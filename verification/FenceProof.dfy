/** Proof that no frame crosses a fence and that all participants commit the same fences. */
module FenceProof {
  import opened Optional
  import opened Fence

  // ------------------------------------------------------------------ ring contents

  /** Frames of kind `k` at position `from` or later. */
  function CountFrom(items: seq<Msg>, from: nat, k: Kind): nat
    decreases |items| - from
  {
    if from >= |items| then 0
    else (if items[from].Data? && items[from].kind == k then 1 else 0) + CountFrom(items, from + 1, k)
  }

  function CountKindFrom(items: seq<Kind>, from: nat, k: Kind): nat
    decreases |items| - from
  {
    if from >= |items| then 0 else (if items[from] == k then 1 else 0) + CountKindFrom(items, from + 1, k)
  }

  function Count(q: Ring<Msg>, k: Kind): nat { CountFrom(q.items, q.read, k) }

  function CountKind(q: Ring<Kind>, k: Kind): nat { CountKindFrom(q.items, q.read, k) }

  lemma CountAppend(items: seq<Msg>, from: nat, m: Msg, k: Kind)
    requires from <= |items|
    ensures CountFrom(items + [m], from, k)
            == CountFrom(items, from, k) + (if m.Data? && m.kind == k then 1 else 0)
    decreases |items| - from
  {
    if from < |items| {
      CountAppend(items, from + 1, m, k);
    }
  }

  lemma CountKindAppend(items: seq<Kind>, from: nat, m: Kind, k: Kind)
    requires from <= |items|
    ensures CountKindFrom(items + [m], from, k) == CountKindFrom(items, from, k) + (if m == k then 1 else 0)
    decreases |items| - from
  {
    if from < |items| {
      CountKindAppend(items, from + 1, m, k);
    }
  }

  /** What a ring may carry at some point of the protocol. */
  datatype Traffic = ToDevice | Answers | ToHost | Interrupts | ToFabric | Completions | FromFabric | Unanswered

  predicate Allows(c: Traffic, k: Kind) {
    match c
    case ToDevice => k == Mmio || k == DmaDone
    case Answers => k == DmaDone
    case ToHost => k == Dma || k == Irq
    case Interrupts => k == Irq
    case ToFabric => k.Chunk? || k.Request? || k == TargetDone
    case Completions => k == TargetDone
    case FromFabric => k == Execute || k == Deliver || k == Result
    case Unanswered => k == Deliver || k == Result
  }

  predicate Fits(m: Msg, e: nat, c: Traffic) { m.Data? && m.epoch == e && Allows(c, m.kind) }

  /** Only data of the given epoch and sort. */
  ghost predicate Only(q: Ring<Msg>, e: nat, c: Traffic) {
    forall i :: q.read <= i < |q.items| ==> Fits(q.items[i], e, c)
  }

  ghost predicate OnlyKinds(q: Ring<Kind>, c: Traffic) {
    forall i :: q.read <= i < |q.items| ==> Allows(c, q.items[i])
  }

  /** Data of one epoch, then the marker, then data of a possibly different epoch. */
  ghost predicate MarkedAt(q: Ring<Msg>, at: nat, e: nat, before: Traffic, m: Msg, e': nat, after: Traffic) {
    && q.read <= at < |q.items|
    && q.items[at] == m
    && (forall i :: q.read <= i < at ==> Fits(q.items[i], e, before))
    && (forall i :: at < i < |q.items| ==> Fits(q.items[i], e', after))
  }

  ghost predicate Marked(q: Ring<Msg>, e: nat, before: Traffic, m: Msg, e': nat, after: Traffic) {
    exists at: nat :: MarkedAt(q, at, e, before, m, e', after)
  }

  lemma MarkedAppend(q: Ring<Msg>, e: nat, before: Traffic, m: Msg, e': nat, after: Traffic, x: Kind)
    requires Marked(q, e, before, m, e', after) && Allows(after, x)
    ensures Marked(q.Push(Data(e', x)), e, before, m, e', after)
  {
    var at: nat :| MarkedAt(q, at, e, before, m, e', after);
    assert MarkedAt(q.Push(Data(e', x)), at, e, before, m, e', after);
  }

  lemma MarkerAppend(q: Ring<Msg>, e: nat, before: Traffic, m: Msg, e': nat, after: Traffic)
    requires Only(q, e, before) && !m.Data? && q.read <= |q.items|
    ensures Marked(q.Push(m), e, before, m, e', after)
  {
    assert MarkedAt(q.Push(m), |q.items|, e, before, m, e', after);
  }

  lemma MarkedPop(q: Ring<Msg>, e: nat, before: Traffic, m: Msg, e': nat, after: Traffic)
    requires Marked(q, e, before, m, e', after) && !m.Data?
    ensures !q.Empty()
    ensures q.Head() == m || Fits(q.Head(), e, before)
    ensures q.Head() == m ==> Only(q.Pop(), e', after)
    ensures q.Head() != m ==> Marked(q.Pop(), e, before, m, e', after)
  {
    var at: nat :| MarkedAt(q, at, e, before, m, e', after);
    if at > q.read {
      assert MarkedAt(q.Pop(), at, e, before, m, e', after);
    }
  }

  lemma CountZero(items: seq<Msg>, from: nat, k: Kind)
    requires CountFrom(items, from, k) == 0
    ensures forall i :: from <= i < |items| && items[i].Data? ==> items[i].kind != k
    decreases |items| - from
  {
    if from < |items| {
      CountZero(items, from + 1, k);
    }
  }

  lemma CountKindZero(items: seq<Kind>, from: nat, k: Kind)
    requires CountKindFrom(items, from, k) == 0
    ensures forall i :: from <= i < |items| ==> items[i] != k
    decreases |items| - from
  {
    if from < |items| {
      CountKindZero(items, from + 1, k);
    }
  }

  // ------------------------------------------------------------------ the lane invariant

  datatype Phase = Open | Announced | Seen | Forwarded | Prepared | Decided | Polled | Returning

  /** Where the lane stands between two fences, read off its flags. */
  function PhaseOf(l: Lane, fabric: nat): Phase {
    if fabric != |l.dev.commits| then if l.dev.commitSeen then Polled else Decided
    else if |l.dev.commits| != |l.host.commits| then Returning
    else if !l.host.silent then Open
    else if !l.dev.prepareSeen then Announced
    else if !l.dev.forwarded then Seen
    else if !l.ep.prepared then Forwarded
    else Prepared
  }

  /** The three commit histories and what the host has prepared. */
  ghost predicate Histories(host: Host, commits: seq<Fence>, fabric: seq<Fence>) {
    && Lengths(host, commits, fabric)
    && commits == fabric[..|commits|]
    && host.commits == fabric[..|host.commits|]
    && fabric == host.prepares[..|fabric|]
  }

  predicate Lengths(host: Host, commits: seq<Fence>, fabric: seq<Fence>) {
    && |host.commits| <= |commits| <= |fabric| <= |host.commits| + 1
    && |fabric| <= |host.prepares| == |host.commits| + (if host.silent then 1 else 0)
  }

  /** Every DMA request is on its way to the host or its answer is on its way back. */
  ghost predicate DmaOwed(dma: nat, d2h: Ring<Msg>, h2d: Ring<Msg>) {
    dma == Count(d2h, Dma) + Count(h2d, DmaDone)
  }

  /** Every execution the fabric waits for is in exactly one place. */
  ghost predicate TargetsOwed(ep: Endpoint, f2d: Ring<Msg>, serving: nat, outgoing: Ring<Kind>, d2f: Ring<Msg>) {
    && ep.targets == CountKind(ep.outgoing, Execute) + Count(f2d, Execute) + serving
                   + CountKind(outgoing, TargetDone) + Count(d2f, TargetDone)
    && OnlyKinds(outgoing, ToFabric) && OnlyKinds(ep.outgoing, FromFabric)
  }

  ghost predicate Owed(l: Lane) {
    && DmaOwed(l.dev.dma, l.d2h, l.h2d)
    && TargetsOwed(l.ep, l.f2d, l.dev.serving, l.dev.outgoing, l.d2f)
  }

  ghost predicate Flags(l: Lane, seen: bool, forwarded: bool, prepared: bool) {
    && l.dev.prepareSeen == seen && l.dev.forwarded == forwarded && l.ep.prepared == prepared
    && (seen ==> l.host.prepares != [] && l.dev.fence == l.host.prepares[|l.host.prepares| - 1])
    && (forwarded ==> l.dev.sent == l.dev.fence && l.dev.work == 0)
    && (prepared ==> l.ep.fence == l.dev.fence)
  }

  ghost predicate InPhase(l: Lane, fabric: seq<Fence>)
    requires Lengths(l.host, l.dev.commits, fabric)
  {
    var e := |fabric|;
    var h := |l.host.commits|;
    match PhaseOf(l, e)
    case Open =>
      && Flags(l, false, false, false) && !l.dev.commitSeen
      && Only(l.h2d, e, ToDevice) && Only(l.d2h, e, ToHost) && Only(l.d2f, e, ToFabric) && Only(l.f2d, e, FromFabric)
    case Announced =>
      && Flags(l, false, false, false) && !l.dev.commitSeen
      && Marked(l.h2d, e, ToDevice, Prepare(l.host.prepares[e]), e, Answers)
      && Only(l.d2h, e, ToHost) && Only(l.d2f, e, ToFabric) && Only(l.f2d, e, FromFabric)
    case Seen =>
      && Flags(l, true, false, false) && !l.dev.commitSeen
      && Only(l.h2d, e, Answers) && Only(l.d2h, e, ToHost) && Only(l.d2f, e, ToFabric) && Only(l.f2d, e, FromFabric)
    case Forwarded =>
      && Flags(l, true, true, false) && !l.dev.commitSeen
      && Marked(l.d2f, e, ToFabric, Prepare(l.dev.fence), e, Completions) && OnlyKinds(l.dev.outgoing, Completions)
      && Only(l.h2d, e, Answers) && Only(l.d2h, e, ToHost) && Only(l.f2d, e, FromFabric)
    case Prepared =>
      && Flags(l, true, true, true) && !l.dev.commitSeen
      && Only(l.d2f, e, Completions) && OnlyKinds(l.dev.outgoing, Completions)
      && Only(l.h2d, e, Answers) && Only(l.d2h, e, ToHost) && Only(l.f2d, e, FromFabric)
    case Decided =>
      && Flags(l, true, true, false) && l.dev.serving == 0 && l.dev.outgoing.Empty() && l.d2f.Empty()
      && Marked(l.f2d, h, Unanswered, Commit(fabric[h]), e, FromFabric)
      && Only(l.h2d, h, Answers) && Only(l.d2h, h, ToHost)
    case Polled =>
      && Flags(l, true, true, false) && l.dev.serving == 0 && l.dev.outgoing.Empty() && l.d2f.Empty()
      && l.dev.seen == fabric[h] && Only(l.f2d, e, FromFabric)
      && Only(l.h2d, h, Answers) && Only(l.d2h, h, ToHost)
    case Returning =>
      && Flags(l, false, false, false) && !l.dev.commitSeen && l.dev.work == 0 && l.host.silent
      && l.h2d.Empty() && Marked(l.d2h, h, Interrupts, Commit(fabric[h]), e, ToHost)
      && Only(l.d2f, e, ToFabric) && Only(l.f2d, e, FromFabric)
  }

  /** The device remembers a generation at least as new as the last committed one. */
  ghost predicate Advancing(d: Device, fabric: seq<Fence>) {
    && (d.prepareSeen ==> d.generationSeen)
    && (fabric != [] ==>
          && d.generationSeen
          && d.fence.generation >= fabric[|fabric| - 1].generation
          && (d.prepareSeen && |d.commits| == |fabric| ==> d.fence.generation > fabric[|fabric| - 1].generation))
  }

  predicate Bounded(l: Lane) {
    && l.h2d.read <= |l.h2d.items| && l.d2h.read <= |l.d2h.items|
    && l.d2f.read <= |l.d2f.items| && l.f2d.read <= |l.f2d.items|
    && l.dev.outgoing.read <= |l.dev.outgoing.items| && l.ep.outgoing.read <= |l.ep.outgoing.items|
  }

  ghost predicate LaneInv(l: Lane, fabric: seq<Fence>) {
    Bounded(l) && Histories(l.host, l.dev.commits, fabric) && Owed(l) && InPhase(l, fabric) && Advancing(l.dev, fabric)
  }

  // ------------------------------------------------------------------ every step keeps it

  lemma HostSends(l: Lane, fabric: seq<Fence>, a: LaneAction)
    requires LaneInv(l, fabric) && (a.HostMmio? || a.HostPrepare?)
    requires LaneApply(l, a, |fabric|).Some?
    ensures LaneInv(LaneApply(l, a, |fabric|).value, fabric)
  {
    var m := if a.HostPrepare? then Prepare(a.f) else Data(|l.host.commits|, Mmio);
    CountAppend(l.h2d.items, l.h2d.read, m, DmaDone);
    if a.HostPrepare? {
      MarkerAppend(l.h2d, |fabric|, ToDevice, m, |fabric|, Answers);
    }
  }

  /** What is owed stays owed, wherever a poll takes it. */
  lemma HostPollOwed(l: Lane)
    requires Bounded(l) && Owed(l) && HostPollStep(l).Some?
    ensures Owed(HostPollStep(l).value)
  {
    hide TargetsOwed;
    CountAppend(l.h2d.items, l.h2d.read, Data(|l.host.commits|, DmaDone), DmaDone);
  }

  lemma DevicePollHostOwed(l: Lane)
    requires Bounded(l) && Owed(l) && DevPollHostStep(l).Some?
    ensures Owed(DevPollHostStep(l).value)
  {
    var d, m := DevPollHostStep(l).value.dev, l.h2d.Head();
    assert d.dma == l.dev.dma - if m.Data? && m.kind == DmaDone then 1 else 0;
    assert d.serving == l.dev.serving && d.outgoing == l.dev.outgoing;
    hide TargetsOwed, Hears;
  }

  lemma DevicePollNetOwed(l: Lane)
    requires Bounded(l) && Owed(l) && DevPollNetStep(l).Some?
    ensures Owed(DevPollNetStep(l).value)
  {
    var d, m := DevPollNetStep(l).value.dev, l.f2d.Head();
    assert d.serving == l.dev.serving + if m.Data? && m.kind == Execute then 1 else 0;
    assert d.dma == l.dev.dma && d.outgoing == l.dev.outgoing;
    hide DmaOwed, CountKind, OnlyKinds, Gets;
  }

  lemma EndpointPollOwed(l: Lane)
    requires Bounded(l) && Owed(l) && EpPollStep(l).Some?
    ensures Owed(EpPollStep(l).value)
  {
    var e, m := EpPollStep(l).value.ep, l.d2f.Head();
    assert e.targets == l.ep.targets - if m.Data? && m.kind == TargetDone then 1 else 0;
    assert e.outgoing == l.ep.outgoing;
    hide DmaOwed, CountKind, OnlyKinds, Takes;
  }

  /** Everything the host polls belongs to its own epoch, and the commit it polls leaves nothing old behind. */
  lemma HostPolls(l: Lane, fabric: seq<Fence>)
    requires LaneInv(l, fabric) && HostPollStep(l).Some?
    ensures LaneInv(HostPollStep(l).value, fabric)
    ensures l.d2h.Head().Data? ==> l.d2h.Head().epoch == |l.host.commits|
    ensures l.d2h.Head().Commit? ==> Only(l.d2h.Pop(), |l.host.commits| + 1, ToHost)
  {
    HostPollOwed(l);
    hide LaneInv, Owed;
    match l.d2h.Head() {
      case Data(_, k) =>
        if k == Dma {
          HostPollsDma(l, fabric);
        } else {
          HostPollsOther(l, fabric);
        }
      case Commit(f) => HostPollsCommit(l, fabric, f);
      case Prepare(_) =>
    }
  }

  lemma HostPollsDma(l: Lane, fabric: seq<Fence>)
    requires LaneInv(l, fabric) && !l.d2h.Empty() && l.d2h.Head().Data? && l.d2h.Head().kind == Dma
    requires Owed(l.(d2h := l.d2h.Pop(), h2d := l.h2d.Push(Data(|l.host.commits|, DmaDone))))
    ensures LaneInv(l.(d2h := l.d2h.Pop(), h2d := l.h2d.Push(Data(|l.host.commits|, DmaDone))), fabric)
    ensures l.d2h.Head().epoch == |l.host.commits|
  {
    assert Lengths(l.host, l.dev.commits, fabric);
    hide Histories, Marked, Owed, OnlyKinds;
    var h := |l.host.commits|;
    if PhaseOf(l, |fabric|).Returning? {
      MarkedPop(l.d2h, h, Interrupts, Commit(fabric[h]), |fabric|, ToHost);
    } else if PhaseOf(l, |fabric|).Announced? {
      MarkedAppend(l.h2d, h, ToDevice, Prepare(l.host.prepares[h]), h, Answers, DmaDone);
    }
  }

  lemma HostPollsOther(l: Lane, fabric: seq<Fence>)
    requires LaneInv(l, fabric) && !l.d2h.Empty() && l.d2h.Head().Data? && Owed(l.(d2h := l.d2h.Pop()))
    ensures LaneInv(l.(d2h := l.d2h.Pop()), fabric)
    ensures l.d2h.Head().epoch == |l.host.commits|
  {
    assert Lengths(l.host, l.dev.commits, fabric);
    hide Histories, Marked, Owed, OnlyKinds;
    var h := |l.host.commits|;
    if PhaseOf(l, |fabric|).Returning? {
      MarkedPop(l.d2h, h, Interrupts, Commit(fabric[h]), |fabric|, ToHost);
    }
  }

  lemma HostPollsCommit(l: Lane, fabric: seq<Fence>, f: Fence)
    requires LaneInv(l, fabric) && HostPollStep(l).Some? && l.d2h.Head() == Commit(f) && Owed(HostPollStep(l).value)
    ensures LaneInv(HostPollStep(l).value, fabric)
    ensures Only(l.d2h.Pop(), |l.host.commits| + 1, ToHost)
  {
    hide Marked, Owed, OnlyKinds;
    var h := |l.host.commits|;
    if PhaseOf(l, |fabric|).Returning? {
      MarkedPop(l.d2h, h, Interrupts, Commit(fabric[h]), |fabric|, ToHost);
    }
  }

  lemma DevicePollsHost(l: Lane, fabric: seq<Fence>)
    requires LaneInv(l, fabric) && DevPollHostStep(l).Some?
    ensures LaneInv(DevPollHostStep(l).value, fabric)
    ensures l.h2d.Head().Data? ==> l.h2d.Head().epoch == |l.dev.commits|
  {
    DevicePollHostOwed(l);
    var d := DevPollHostStep(l).value.dev;
    hide LaneInv, Owed;
    match l.h2d.Head() {
      case Data(_, _) => DevicePollsWork(l, fabric, d.work, d.dma);
      case Prepare(f) => DevicePollsPrepare(l, fabric, f);
      case Commit(_) =>
    }
  }

  lemma DevicePollsWork(l: Lane, fabric: seq<Fence>, work: nat, dma: nat)
    requires LaneInv(l, fabric) && !l.h2d.Empty() && l.h2d.Head().Data?
    requires l.h2d.Head().kind == Mmio || work == l.dev.work
    requires Owed(l.(h2d := l.h2d.Pop(), dev := l.dev.(work := work, dma := dma)))
    ensures LaneInv(l.(h2d := l.h2d.Pop(), dev := l.dev.(work := work, dma := dma)), fabric)
    ensures l.h2d.Head().epoch == |l.dev.commits|
  {
    assert Lengths(l.host, l.dev.commits, fabric);
    hide Histories, Marked, Owed, OnlyKinds;
    if PhaseOf(l, |fabric|).Announced? {
      MarkedPop(l.h2d, |fabric|, ToDevice, Prepare(l.host.prepares[|fabric|]), |fabric|, Answers);
    }
  }

  lemma DevicePollsPrepare(l: Lane, fabric: seq<Fence>, f: Fence)
    requires LaneInv(l, fabric) && !l.h2d.Empty() && l.h2d.Head() == Prepare(f)
    requires !l.dev.prepareSeen && (l.dev.generationSeen ==> f.generation > l.dev.fence.generation)
    requires Owed(l.(h2d := l.h2d.Pop(), dev := l.dev.(prepareSeen := true, generationSeen := true, fence := f)))
    ensures LaneInv(l.(h2d := l.h2d.Pop(), dev := l.dev.(prepareSeen := true, generationSeen := true, fence := f)),
                    fabric)
  {
    hide Marked, Owed, OnlyKinds;
    if PhaseOf(l, |fabric|).Announced? {
      MarkedPop(l.h2d, |fabric|, ToDevice, Prepare(l.host.prepares[|fabric|]), |fabric|, Answers);
    }
  }

  lemma DevicePollsNet(l: Lane, fabric: seq<Fence>)
    requires LaneInv(l, fabric) && DevPollNetStep(l).Some?
    ensures LaneInv(DevPollNetStep(l).value, fabric)
    ensures l.f2d.Head().Data? ==> l.f2d.Head().epoch == |l.dev.commits|
  {
    DevicePollNetOwed(l);
    var d := DevPollNetStep(l).value.dev;
    hide LaneInv, Owed;
    match l.f2d.Head() {
      case Data(_, _) => DevicePollsData(l, fabric, d.serving, d.receiving);
      case Commit(f) => DevicePollsCommit(l, fabric, f);
      case Prepare(_) => NoPrepare(l, fabric);
    }
  }

  /** The fabric sends no PREPARE. */
  lemma NoPrepare(l: Lane, fabric: seq<Fence>)
    requires LaneInv(l, fabric) && !l.dev.commitSeen && !l.f2d.Empty()
    ensures !l.f2d.Head().Prepare?
    ensures l.f2d.Head().Commit? ==> PhaseOf(l, |fabric|).Decided?
  {
    hide Owed, Marked;
    if PhaseOf(l, |fabric|).Decided? {
      MarkedPop(l.f2d, |l.host.commits|, Unanswered, Commit(fabric[|l.host.commits|]), |fabric|, FromFabric);
    }
  }

  lemma DevicePollsData(l: Lane, fabric: seq<Fence>, serving: nat, receiving: nat)
    requires LaneInv(l, fabric) && !l.dev.commitSeen && !l.f2d.Empty() && l.f2d.Head().Data?
    requires l.f2d.Head().kind == Execute || serving == l.dev.serving
    requires Owed(l.(f2d := l.f2d.Pop(), dev := l.dev.(serving := serving, receiving := receiving)))
    ensures LaneInv(l.(f2d := l.f2d.Pop(), dev := l.dev.(serving := serving, receiving := receiving)), fabric)
    ensures l.f2d.Head().epoch == |l.dev.commits|
  {
    assert Lengths(l.host, l.dev.commits, fabric);
    hide Histories, Marked, Owed, OnlyKinds;
    if PhaseOf(l, |fabric|).Decided? {
      var h := |l.host.commits|;
      MarkedPop(l.f2d, h, Unanswered, Commit(fabric[h]), |fabric|, FromFabric);
    }
  }

  lemma DevicePollsCommit(l: Lane, fabric: seq<Fence>, f: Fence)
    requires LaneInv(l, fabric) && !l.dev.commitSeen && !l.f2d.Empty() && l.f2d.Head() == Commit(f)
    requires Owed(l.(f2d := l.f2d.Pop(), dev := l.dev.(commitSeen := true, seen := f)))
    ensures LaneInv(l.(f2d := l.f2d.Pop(), dev := l.dev.(commitSeen := true, seen := f)), fabric)
  {
    NoPrepare(l, fabric);
    var h := |l.host.commits|;
    MarkedPop(l.f2d, h, Unanswered, Commit(fabric[h]), |fabric|, FromFabric);
    hide Histories, Marked, Owed, OnlyKinds;
  }

  lemma DeviceQueueOwed(l: Lane, a: LaneAction, epoch: nat)
    requires Bounded(l) && Owed(l) && (a.DevChunk? || a.DevRequest? || a.DevAnswer?) && LaneApply(l, a, epoch).Some?
    ensures Owed(LaneApply(l, a, epoch).value)
  {
    hide DmaOwed, Count;
    var k := if a.DevChunk? then Chunk else if a.DevRequest? then Request(a.to) else TargetDone;
    CountKindAppend(l.dev.outgoing.items, l.dev.outgoing.read, k, TargetDone);
  }

  lemma DeviceQueues(l: Lane, fabric: seq<Fence>, a: LaneAction)
    requires LaneInv(l, fabric) && (a.DevChunk? || a.DevRequest? || a.DevAnswer?) && LaneApply(l, a, |fabric|).Some?
    ensures LaneInv(LaneApply(l, a, |fabric|).value, fabric)
  {
    DeviceQueueOwed(l, a, |fabric|);
    hide LaneInv, Owed;
    if a.DevChunk? {
      FrameQueued(l, fabric, Chunk, true, l.dev.serving);
    } else if a.DevRequest? {
      FrameQueued(l, fabric, Request(a.to), false, l.dev.serving);
    } else {
      FrameQueued(l, fabric, TargetDone, l.dev.cutting, l.dev.serving - 1);
    }
  }

  lemma FrameQueued(l: Lane, fabric: seq<Fence>, k: Kind, cutting: bool, serving: nat)
    requires LaneInv(l, fabric) && serving <= l.dev.serving
    requires if k == TargetDone then l.dev.serving > 0 else (k.Chunk? || k.Request?) && l.dev.work > 0
    requires Owed(l.(dev := l.dev.(serving := serving, cutting := cutting, outgoing := l.dev.outgoing.Push(k))))
    ensures LaneInv(l.(dev := l.dev.(serving := serving, cutting := cutting, outgoing := l.dev.outgoing.Push(k))),
                    fabric)
  {
    hide Histories, Marked, Only, Owed;
  }

  lemma DeviceFinishes(l: Lane, fabric: seq<Fence>, a: LaneAction)
    requires LaneInv(l, fabric) && (a.DevFinishWork? || a.DevFinishReceive?) && LaneApply(l, a, |fabric|).Some?
    ensures LaneInv(LaneApply(l, a, |fabric|).value, fabric)
  {
    hide Histories, Marked, Only, OnlyKinds, Count, CountKind;
  }

  lemma DeviceSignalsHost(l: Lane, fabric: seq<Fence>, a: LaneAction)
    requires LaneInv(l, fabric) && (a.DevDma? || a.DevIrq?)
    requires LaneApply(l, a, |fabric|).Some?
    ensures LaneInv(LaneApply(l, a, |fabric|).value, fabric)
  {
    hide Marked, CountKind, OnlyKinds;
    var k := if a.DevDma? then Dma else Irq;
    CountAppend(l.d2h.items, l.d2h.read, Data(|l.dev.commits|, k), Dma);
    if PhaseOf(l, |fabric|).Returning? {
      var h := |l.host.commits|;
      MarkedAppend(l.d2h, h, Interrupts, Commit(fabric[h]), |fabric|, ToHost, k);
    }
  }

  lemma DeviceFlushOwed(l: Lane)
    requires Bounded(l) && Owed(l) && DevFlushStep(l).Some?
    ensures Owed(DevFlushStep(l).value)
  {
    hide DmaOwed;
    CountAppend(l.d2f.items, l.d2f.read, Data(|l.dev.commits|, l.dev.outgoing.Head()), TargetDone);
  }

  lemma DeviceFlushes(l: Lane, fabric: seq<Fence>)
    requires LaneInv(l, fabric) && DevFlushStep(l).Some?
    ensures LaneInv(DevFlushStep(l).value, fabric)
  {
    DeviceFlushOwed(l);
    var k := l.dev.outgoing.Head();
    assert Allows(ToFabric, k);
    hide Histories, Marked, Owed;
    if PhaseOf(l, |fabric|).Forwarded? {
      MarkedAppend(l.d2f, |fabric|, ToFabric, Prepare(l.dev.fence), |fabric|, Completions, k);
    }
  }

  lemma DeviceForwards(l: Lane, fabric: seq<Fence>)
    requires LaneInv(l, fabric) && DevForwardStep(l).Some?
    ensures LaneInv(DevForwardStep(l).value, fabric)
  {
    CountAppend(l.d2f.items, l.d2f.read, Prepare(l.dev.fence), TargetDone);
    MarkerAppend(l.d2f, |fabric|, ToFabric, Prepare(l.dev.fence), |fabric|, Completions);
  }

  /** A committing device leaves no frame of the closing epoch behind on either ring. */
  lemma DeviceCommits(l: Lane, fabric: seq<Fence>)
    requires LaneInv(l, fabric) && DevCommitStep(l).Some?
    ensures LaneInv(DevCommitStep(l).value, fabric)
    ensures l.h2d.Empty() && Only(l.f2d, |l.dev.commits| + 1, FromFabric)
  {
    var h := |l.host.commits|;
    assert PhaseOf(l, |fabric|).Polled?;
    CountZero(l.d2h.items, l.d2h.read, Dma);
    CountZero(l.h2d.items, l.h2d.read, DmaDone);
    CountAppend(l.d2h.items, l.d2h.read, Commit(fabric[h]), Dma);
    MarkerAppend(l.d2h, h, Interrupts, Commit(fabric[h]), |fabric|, ToHost);
  }

  lemma EndpointQueueOwed(l: Lane, a: LaneAction, epoch: nat)
    requires Bounded(l) && Owed(l) && NeedsTask(a)
    ensures Owed(LaneApply(l, a, epoch).value)
  {
    hide DmaOwed, Count;
    var k := if a.EpExecute? then Execute else if a.EpDeliver? then Deliver else Result;
    CountKindAppend(l.ep.outgoing.items, l.ep.outgoing.read, k, Execute);
  }

  lemma EndpointQueues(l: Lane, fabric: seq<Fence>, a: LaneAction)
    requires LaneInv(l, fabric) && NeedsTask(a)
    ensures LaneInv(LaneApply(l, a, |fabric|).value, fabric)
  {
    EndpointQueueOwed(l, a, |fabric|);
    hide Histories, Marked, Only, OnlyKinds, Owed;
  }

  lemma EndpointFlushOwed(l: Lane, epoch: nat)
    requires Bounded(l) && Owed(l) && EpFlushStep(l, epoch).Some?
    ensures Owed(EpFlushStep(l, epoch).value)
  {
    hide DmaOwed;
    CountAppend(l.f2d.items, l.f2d.read, Data(epoch, l.ep.outgoing.Head()), Execute);
  }

  lemma EndpointFlushes(l: Lane, fabric: seq<Fence>)
    requires LaneInv(l, fabric) && EpFlushStep(l, |fabric|).Some?
    ensures LaneInv(EpFlushStep(l, |fabric|).value, fabric)
  {
    EndpointFlushOwed(l, |fabric|);
    var k := l.ep.outgoing.Head();
    assert Allows(FromFabric, k);
    hide Histories, Marked, Owed;
    if PhaseOf(l, |fabric|).Decided? {
      var h := |l.host.commits|;
      MarkedAppend(l.f2d, h, Unanswered, Commit(fabric[h]), |fabric|, FromFabric, k);
    }
  }

  lemma EndpointPolls(l: Lane, fabric: seq<Fence>)
    requires LaneInv(l, fabric) && EpPollStep(l).Some?
    ensures LaneInv(EpPollStep(l).value, fabric)
    ensures l.d2f.Head().Data? ==> l.d2f.Head().epoch == |fabric|
  {
    EndpointPollOwed(l);
    hide Histories, Marked, Owed;
    if PhaseOf(l, |fabric|).Forwarded? {
      MarkedPop(l.d2f, |fabric|, ToFabric, Prepare(l.dev.fence), |fabric|, Completions);
    }
  }

  /** What the fabric tests before it commits leaves the ring from the device empty. */
  lemma FabricCommits(l: Lane, fabric: seq<Fence>)
    requires LaneInv(l, fabric)
    requires l.ep.targets == 0 && l.ep.outgoing.Empty() && l.ep.prepared
    ensures LaneInv(Committed(l, l.ep.fence), fabric + [l.ep.fence])
    ensures l.d2f.Empty() && l.dev.outgoing.Empty()
    ensures l.host.silent && |fabric| < |l.host.prepares| && l.ep.fence == l.host.prepares[|fabric|]
    ensures fabric != [] ==> l.ep.fence.generation > fabric[|fabric| - 1].generation
  {
    var e := |fabric|;
    assert PhaseOf(l, e).Prepared?;
    NoneToAnswer(l.f2d, e);
    NoneAnswered(l.d2f, l.dev.outgoing, e);
    CountAppend(l.f2d.items, l.f2d.read, Commit(l.ep.fence), Execute);
    MarkerAppend(l.f2d, e, Unanswered, Commit(l.ep.fence), e + 1, FromFabric);
    hide Marked, Only, OnlyKinds;
  }

  lemma NoneToAnswer(q: Ring<Msg>, e: nat)
    requires Only(q, e, FromFabric) && q.read <= |q.items| && Count(q, Execute) == 0
    ensures Only(q, e, Unanswered)
  {
    CountZero(q.items, q.read, Execute);
  }

  lemma NoneAnswered(q: Ring<Msg>, outgoing: Ring<Kind>, e: nat)
    requires Only(q, e, Completions) && q.read <= |q.items| && Count(q, TargetDone) == 0
    requires OnlyKinds(outgoing, Completions) && outgoing.read <= |outgoing.items|
    requires CountKind(outgoing, TargetDone) == 0
    ensures q.Empty() && outgoing.Empty()
  {
    CountZero(q.items, q.read, TargetDone);
    CountKindZero(outgoing.items, outgoing.read, TargetDone);
  }

  lemma LaneStep(l: Lane, fabric: seq<Fence>, a: LaneAction)
    requires LaneInv(l, fabric) && LaneApply(l, a, |fabric|).Some?
    ensures LaneInv(LaneApply(l, a, |fabric|).value, fabric)
  {
    hide LaneInv;
    match a {
      case HostMmio => HostSends(l, fabric, a);
      case HostPrepare(_) => HostSends(l, fabric, a);
      case HostPoll => HostPolls(l, fabric);
      case DevPollHost => DevicePollsHost(l, fabric);
      case DevPollNet => DevicePollsNet(l, fabric);
      case DevDma => DeviceSignalsHost(l, fabric, a);
      case DevIrq => DeviceSignalsHost(l, fabric, a);
      case DevFlush => DeviceFlushes(l, fabric);
      case DevForward => DeviceForwards(l, fabric);
      case DevCommit => DeviceCommits(l, fabric);
      case EpFlush => EndpointFlushes(l, fabric);
      case EpPoll => EndpointPolls(l, fabric);
      case EpExecute(_) => EndpointQueues(l, fabric, a);
      case EpDeliver(_) => EndpointQueues(l, fabric, a);
      case EpResult(_) => EndpointQueues(l, fabric, a);
      case DevFinishWork => DeviceFinishes(l, fabric, a);
      case DevFinishReceive => DeviceFinishes(l, fabric, a);
      case _ => DeviceQueues(l, fabric, a);
    }
  }

  // ------------------------------------------------------------------ the system invariant

  ghost predicate Inv(s: System) {
    && (forall i :: 0 <= i < |s.lanes| ==> LaneInv(s.lanes[i], s.commits))
    && Increasing(s.commits) && Alternating(s.commits)
    && s.active == (s.commits != [] && s.commits[|s.commits| - 1].target)
  }

  lemma NothingOwed(l: Lane)
    requires l.h2d.Empty() && l.d2h.Empty() && l.d2f.Empty() && l.f2d.Empty()
    requires l.dev.outgoing.Empty() && l.ep.outgoing.Empty()
    requires l.dev.dma == 0 && l.ep.targets == 0 && l.dev.serving == 0
    ensures Owed(l)
  {
  }

  lemma InitialLane(l: Lane)
    requires l == INITIAL_LANE
    ensures LaneInv(l, [])
  {
    hide Marked, Owed;
    NothingOwed(l);
    assert PhaseOf(l, 0).Open?;
  }

  lemma InitialInv(n: nat)
    ensures Inv(Initial(n))
  {
    hide LaneInv;
    InitialLane(INITIAL_LANE);
  }

  /** A lane that passes the fabric's test takes the commit. */
  lemma EveryLaneCommits(s: System, i: nat)
    requires Inv(s) && ReadyToCommit(s) && i < |s.lanes|
    ensures var f := s.lanes[0].ep.fence;
            && LaneInv(Committed(s.lanes[i], f), s.commits + [f]) && s.lanes[i].d2f.Empty()
            && (s.commits != [] ==> f.generation > s.commits[|s.commits| - 1].generation)
  {
    hide LaneInv, Committed;
    assert LaneInv(s.lanes[i], s.commits);
    FabricCommits(s.lanes[i], s.commits);
  }

  lemma CommitPassKeeps(s: System, reached: set<nat>)
    requires Inv(s) && Apply(s, CommitPass(reached)).Some? && AllOrNone(s, CommitPass(reached))
    ensures Inv(Apply(s, CommitPass(reached)).value)
  {
    forall i | 0 <= i < |s.lanes|
      ensures var f := s.lanes[0].ep.fence;
              && LaneInv(Committed(s.lanes[i], f), s.commits + [f])
              && (s.commits != [] ==> f.generation > s.commits[|s.commits| - 1].generation)
    {
      EveryLaneCommits(s, i);
    }
    hide LaneInv, Committed, Inv;
    if forall i :: 0 <= i < |s.lanes| ==> i in reached {
      FullPassKeeps(s, reached);
    } else {
      EmptyPass(s, reached);
    }
  }

  /** A pass that reaches nobody changes nothing. */
  lemma EmptyPass(s: System, reached: set<nat>)
    requires Apply(s, CommitPass(reached)).Some? && forall i :: 0 <= i < |s.lanes| ==> i !in reached
    ensures Apply(s, CommitPass(reached)) == Some(s)
  {
    hide Committed;
    var lanes := seq(|s.lanes|, i requires 0 <= i < |s.lanes| =>
                       if i in reached then s.lanes[i].(f2d := s.lanes[i].f2d.Push(Commit(s.lanes[0].ep.fence)))
                       else s.lanes[i]);
    assert lanes == s.lanes;
    assert ReadyToCommit(s);
    assert 0 !in reached;
    hide ReadyToCommit;
  }

  lemma CommitPassClean(s: System, reached: set<nat>)
    requires Inv(s) && Apply(s, CommitPass(reached)).Some?
    ensures ClosesCleanly(s, CommitPass(reached))
  {
    hide LaneInv, Committed;
    forall i | 0 <= i < |s.lanes|
      ensures Drained(s.lanes[i].d2f, |s.commits|)
    {
      EveryLaneCommits(s, i);
    }
  }

  lemma FullPassKeeps(s: System, reached: set<nat>)
    requires Inv(s) && Apply(s, CommitPass(reached)).Some? && forall i :: 0 <= i < |s.lanes| ==> i in reached
    requires var f := s.lanes[0].ep.fence;
             && (forall i :: 0 <= i < |s.lanes| ==> LaneInv(Committed(s.lanes[i], f), s.commits + [f]))
             && (s.commits != [] ==> f.generation > s.commits[|s.commits| - 1].generation)
    ensures Inv(Apply(s, CommitPass(reached)).value)
  {
    hide LaneInv, Committed;
    var f := s.lanes[0].ep.fence;
    assert Apply(s, CommitPass(reached)).value.commits == s.commits + [f];
  }

  lemma StepKeeps(s: System, a: Action)
    requires Inv(s) && Apply(s, a).Some? && AllOrNone(s, a)
    ensures Inv(Apply(s, a).value)
  {
    hide LaneInv;
    match a {
      case On(i, la) => LaneStep(s.lanes[i], s.commits, la);
      case FinishTask(_) =>
      case CommitPass(reached) => CommitPassKeeps(s, reached);
    }
  }

  lemma {:induction false} RunInv(n: nat, acts: seq<Action>)
    requires Exec(n, acts).Some? && AllOrNoneRun(n, acts)
    ensures Inv(Exec(n, acts).value)
  {
    if acts == [] {
      InitialInv(n);
    } else {
      RunInv(n, acts[..|acts| - 1]);
      StepKeeps(Exec(n, acts[..|acts| - 1]).value, acts[|acts| - 1]);
    }
  }

  // ------------------------------------------------------------------ the theorems

  /** Whatever is polled anywhere, at any point of any run, was sent in the receiver's epoch. */
  lemma NoFrameCrossesAFence(n: nat, acts: seq<Action>, a: Action)
    requires Exec(n, acts).Some? && AllOrNoneRun(n, acts)
    requires Apply(Exec(n, acts).value, a).Some?
    ensures !Crosses(Exec(n, acts).value, a)
  {
    hide LaneInv, Exec;
    RunInv(n, acts);
    var s := Exec(n, acts).value;
    if a.On? {
      var l := s.lanes[a.lane];
      match a.a {
        case HostPoll => HostPolls(l, s.commits);
        case DevPollHost => DevicePollsHost(l, s.commits);
        case DevPollNet => DevicePollsNet(l, s.commits);
        case EpPoll => EndpointPolls(l, s.commits);
        case _ =>
      }
    }
  }

  /** Every frame sent before the sender committed a fence is taken in before the receiver commits it. */
  lemma EveryCommitClosesCleanly(n: nat, acts: seq<Action>, a: Action)
    requires Exec(n, acts).Some? && AllOrNoneRun(n, acts)
    requires Apply(Exec(n, acts).value, a).Some? && AllOrNone(Exec(n, acts).value, a)
    ensures ClosesCleanly(Exec(n, acts).value, a)
  {
    hide LaneInv, Exec;
    RunInv(n, acts);
    var s := Exec(n, acts).value;
    match a {
      case On(i, la) =>
        match la {
          case HostPoll => HostPolls(s.lanes[i], s.commits);
          case DevCommit => DeviceCommits(s.lanes[i], s.commits);
          case _ =>
        }
      case FinishTask(_) =>
      case CommitPass(reached) => CommitPassClean(s, reached);
    }
  }

  lemma FenceAgreement(n: nat, acts: seq<Action>)
    requires Exec(n, acts).Some? && AllOrNoneRun(n, acts)
    ensures Agreement(Exec(n, acts).value)
  {
    RunInv(n, acts);
    var s := Exec(n, acts).value;
    forall i | 0 <= i < |s.lanes|
      ensures Histories(s.lanes[i].host, s.lanes[i].dev.commits, s.commits)
    {
      assert LaneInv(s.lanes[i], s.commits);
    }
  }

  // ------------------------------------------------------------------ work requests in the making

  /** Whether a WQE is in the making after one more frame. */
  function After(partial: bool, k: Kind): bool { if k.Chunk? then true else if k.Request? then false else partial }

  function AfterAll(partial: bool, q: seq<Kind>, from: nat): bool
    decreases |q| - from
  {
    if from >= |q| then partial else AfterAll(After(partial, q[from]), q, from + 1)
  }

  function AfterSent(partial: bool, q: seq<Msg>, from: nat): bool
    decreases |q| - from
  {
    if from >= |q| then partial
    else AfterSent(if q[from].Data? then After(partial, q[from].kind) else partial, q, from + 1)
  }

  lemma {:induction false} AfterAllAppend(partial: bool, q: seq<Kind>, from: nat, k: Kind)
    requires from <= |q|
    ensures AfterAll(partial, q + [k], from) == After(AfterAll(partial, q, from), k)
    decreases |q| - from
  {
    if from < |q| {
      AfterAllAppend(After(partial, q[from]), q, from + 1, k);
    } else {
      assert AfterAll(partial, q + [k], from) == AfterAll(After(partial, k), q + [k], from + 1);
    }
  }

  lemma {:induction false} AfterSentAppend(partial: bool, q: seq<Msg>, from: nat, m: Msg)
    requires from <= |q|
    ensures AfterSent(partial, q + [m], from) ==
            if m.Data? then After(AfterSent(partial, q, from), m.kind) else AfterSent(partial, q, from)
    decreases |q| - from
  {
    if from < |q| {
      AfterSentAppend(if q[from].Data? then After(partial, q[from].kind) else partial, q, from + 1, m);
    } else {
      var p := if m.Data? then After(partial, m.kind) else partial;
      assert AfterSent(partial, q + [m], from) == AfterSent(p, q + [m], from + 1);
    }
  }

  /** What the fabric holds of a WQE, and what is still to come of it. */
  predicate WholeInTheEnd(l: Lane) {
    && l.d2f.read <= |l.d2f.items| && l.dev.outgoing.read <= |l.dev.outgoing.items|
    && (l.dev.cutting ==> l.dev.work > 0)
    && l.dev.cutting == AfterAll(AfterSent(l.ep.partial, l.d2f.items, l.d2f.read), l.dev.outgoing.items,
                                 l.dev.outgoing.read)
  }

  lemma WholeStep(l: Lane, a: LaneAction, epoch: nat)
    requires WholeInTheEnd(l) && LaneApply(l, a, epoch).Some?
    ensures WholeInTheEnd(LaneApply(l, a, epoch).value)
  {
    hide AfterAll, AfterSent;
    if a.DevChunk? || a.DevRequest? || a.DevAnswer? {
      hide LaneApply, WholeInTheEnd;
      WholeQueued(l, a, epoch);
    } else if a.DevFlush? || a.DevForward? {
      hide LaneApply, WholeInTheEnd;
      WholeSent(l, a, epoch);
    } else if a.EpPoll? {
      hide LaneApply, WholeInTheEnd;
      WholePolled(l, epoch);
    } else {
      ElseUntouched(l, a, epoch);
      hide LaneApply;
      SameWhole(l, LaneApply(l, a, epoch).value);
    }
  }

  /** What the other steps leave alone; work ends only when its frame is queued as a whole. */
  predicate Untouched(l: Lane, r: Option<Lane>) {
    r.Some? ==>
      var t := r.value;
      && t.d2f == l.d2f && t.dev.outgoing == l.dev.outgoing && t.ep.partial == l.ep.partial
      && t.dev.cutting == l.dev.cutting && (l.dev.cutting && l.dev.work > 0 ==> t.dev.work > 0)
  }

  lemma HostPollUntouched(l: Lane)
    ensures Untouched(l, HostPollStep(l))
  {
  }

  lemma DevPollHostUntouched(l: Lane)
    ensures Untouched(l, DevPollHostStep(l))
  {
  }

  lemma DevPollNetUntouched(l: Lane)
    ensures Untouched(l, DevPollNetStep(l))
  {
  }

  lemma CommitUntouched(l: Lane, epoch: nat)
    ensures Untouched(l, DevCommitStep(l))
    ensures Untouched(l, EpFlushStep(l, epoch))
  {
  }

  lemma ElseUntouched(l: Lane, a: LaneAction, epoch: nat)
    requires !a.DevChunk? && !a.DevRequest? && !a.DevAnswer? && !a.DevFlush? && !a.DevForward? && !a.EpPoll?
    ensures Untouched(l, LaneApply(l, a, epoch))
  {
    HostPollUntouched(l);
    DevPollHostUntouched(l);
    DevPollNetUntouched(l);
    CommitUntouched(l, epoch);
    hide HostPollStep, DevPollHostStep, DevPollNetStep, DevCommitStep, EpFlushStep;
  }

  lemma SameWhole(l: Lane, t: Lane)
    requires WholeInTheEnd(l) && t.d2f == l.d2f && t.dev.outgoing == l.dev.outgoing && t.ep.partial == l.ep.partial
    requires t.dev.cutting == l.dev.cutting && (l.dev.cutting ==> t.dev.work > 0)
    ensures WholeInTheEnd(t)
  {
    hide AfterAll, AfterSent;
  }

  lemma WholePolled(l: Lane, epoch: nat)
    requires WholeInTheEnd(l) && LaneApply(l, EpPoll, epoch).Some?
    ensures WholeInTheEnd(LaneApply(l, EpPoll, epoch).value)
  {
    hide AfterAll;
  }

  lemma WholeQueued(l: Lane, a: LaneAction, epoch: nat)
    requires WholeInTheEnd(l) && LaneApply(l, a, epoch).Some? && (a.DevChunk? || a.DevRequest? || a.DevAnswer?)
    ensures WholeInTheEnd(LaneApply(l, a, epoch).value)
  {
    var k := if a.DevChunk? then Chunk else if a.DevRequest? then Request(a.to) else TargetDone;
    AfterAllAppend(AfterSent(l.ep.partial, l.d2f.items, l.d2f.read), l.dev.outgoing.items, l.dev.outgoing.read, k);
    hide AfterAll, AfterSent;
  }

  lemma WholeSent(l: Lane, a: LaneAction, epoch: nat)
    requires WholeInTheEnd(l) && LaneApply(l, a, epoch).Some? && (a.DevFlush? || a.DevForward?)
    ensures WholeInTheEnd(LaneApply(l, a, epoch).value)
  {
    var m := if a.DevForward? then Prepare(l.dev.fence) else Data(|l.dev.commits|, l.dev.outgoing.Head());
    AfterSentAppend(l.ep.partial, l.d2f.items, l.d2f.read, m);
    hide AfterSent;
  }

  lemma {:induction false} RunWhole(n: nat, acts: seq<Action>, i: nat)
    requires Exec(n, acts).Some? && i < |Exec(n, acts).value.lanes|
    ensures WholeInTheEnd(Exec(n, acts).value.lanes[i])
  {
    hide LaneApply, WholeInTheEnd;
    if acts == [] {
      InitialWhole();
    } else {
      var s, a := Exec(n, acts[..|acts| - 1]).value, acts[|acts| - 1];
      RunWhole(n, acts[..|acts| - 1], i);
      match a {
        case On(j, la) =>
          if i == j {
            WholeStep(s.lanes[i], la, |s.commits|);
          }
        case FinishTask(_) =>
        case CommitPass(_) => PassKeepsWhole(s.lanes[i], s.lanes[0].ep.fence);
      }
    }
  }

  lemma InitialWhole()
    ensures WholeInTheEnd(INITIAL_LANE)
  {
  }

  lemma PassKeepsWhole(l: Lane, f: Fence)
    requires WholeInTheEnd(l)
    ensures WholeInTheEnd(Committed(l, f)) && WholeInTheEnd(l.(f2d := l.f2d.Push(Commit(f))))
  {
  }

  /** The fabric's test for work requests in the making never delays a commit: an endpoint that is prepared and
      owns no target DMA and no frame has none, since its device had sent all of them before PREPARE. */
  lemma NoPartialRequestWhenPrepared(n: nat, acts: seq<Action>, i: nat)
    requires Exec(n, acts).Some? && AllOrNoneRun(n, acts) && i < |Exec(n, acts).value.lanes|
    requires var e := Exec(n, acts).value.lanes[i].ep; e.prepared && e.targets == 0 && e.outgoing.Empty()
    ensures !Exec(n, acts).value.lanes[i].ep.partial
  {
    RunInv(n, acts);
    RunWhole(n, acts, i);
    hide Exec, LaneInv;
    var s := Exec(n, acts).value;
    assert LaneInv(s.lanes[i], s.commits);
    FabricCommits(s.lanes[i], s.commits);
    NothingForwarded(s.lanes[i], s.commits);
  }

  lemma NothingForwarded(l: Lane, fabric: seq<Fence>)
    requires LaneInv(l, fabric) && l.ep.prepared
    ensures l.dev.work == 0
  {
    hide Marked, Only, Owed;
  }

  // ------------------------------------------------------------------ a partial commit pass

  lemma {:induction false} Extend(n: nat, acts: seq<Action>, s: System, i: nat, a: LaneAction, l': Lane)
    requires Exec(n, acts) == Some(s) && i < |s.lanes|
    requires LaneApply(s.lanes[i], a, |s.commits|) == Some(l')
    requires !NeedsTask(a) && Submits(s.lanes[i], a).None?
    ensures Exec(n, acts + [On(i, a)]) == Some(s.(lanes := s.lanes[i := l']))
  {
    hide LaneApply;
    assert (acts + [On(i, a)])[..|acts|] == acts;
  }

  /** Both lanes are ready for the fence and the fabric owns nothing. */
  function ReadyLane(f: Fence): Lane {
    INITIAL_LANE.(
      host := Host(true, [f], []),
      h2d := Ring([Prepare(f)], 1),
      dev := INITIAL_LANE.dev.(prepareSeen := true, generationSeen := true, fence := f, forwarded := true, sent := f),
      d2f := Ring([Prepare(f)], 1),
      ep := INITIAL_LANE.ep.(prepared := true, fence := f))
  }

  /** The lane while PREPARE is on its way: on the ring to the device, seen, on the ring to the fabric. */
  function AnnouncedLane(f: Fence): Lane { INITIAL_LANE.(host := Host(true, [f], []), h2d := Ring([Prepare(f)], 0)) }

  function SeenLane(f: Fence): Lane {
    AnnouncedLane(f).(h2d := Ring([Prepare(f)], 1),
                      dev := INITIAL_LANE.dev.(prepareSeen := true, generationSeen := true, fence := f))
  }

  function ForwardedLane(f: Fence): Lane {
    SeenLane(f).(dev := SeenLane(f).dev.(forwarded := true, sent := f), d2f := Ring([Prepare(f)], 0))
  }

  lemma ApproachSteps(f: Fence, epoch: nat)
    ensures LaneApply(INITIAL_LANE, HostPrepare(f), epoch) == Some(AnnouncedLane(f))
    ensures LaneApply(AnnouncedLane(f), DevPollHost, epoch) == Some(SeenLane(f))
    ensures LaneApply(SeenLane(f), DevForward, epoch) == Some(ForwardedLane(f))
    ensures LaneApply(ForwardedLane(f), EpPoll, epoch) == Some(ReadyLane(f))
    ensures Submits(ForwardedLane(f), EpPoll).None?
  {
    var l := INITIAL_LANE;
    assert l.host.prepares + [f] == [f] && l.h2d.items + [Prepare(f)] == [Prepare(f)];
    assert SeenLane(f).d2f.items + [Prepare(f)] == [Prepare(f)];
  }

  /** The steps that bring lane `i` there. */
  lemma Approaches(n: nat, acts: seq<Action>, s: System, i: nat, f: Fence) returns (acts': seq<Action>)
    requires Exec(n, acts) == Some(s) && i < |s.lanes| && s.lanes[i] == INITIAL_LANE
    ensures Exec(n, acts') == Some(s.(lanes := s.lanes[i := ReadyLane(f)]))
  {
    ApproachSteps(f, |s.commits|);
    hide Exec, LaneApply, INITIAL_LANE, AnnouncedLane, SeenLane, ForwardedLane, ReadyLane;
    acts' := acts;
    var s1 := s.(lanes := s.lanes[i := AnnouncedLane(f)]);
    var s2 := s.(lanes := s.lanes[i := SeenLane(f)]);
    var s3 := s.(lanes := s.lanes[i := ForwardedLane(f)]);
    assert s1.lanes[i := SeenLane(f)] == s2.lanes && s2.lanes[i := ForwardedLane(f)] == s3.lanes;
    assert s3.lanes[i := ReadyLane(f)] == s.lanes[i := ReadyLane(f)];
    Extend(n, acts', s, i, HostPrepare(f), AnnouncedLane(f));
    acts' := acts' + [On(i, HostPrepare(f))];
    Extend(n, acts', s1, i, DevPollHost, SeenLane(f));
    acts' := acts' + [On(i, DevPollHost)];
    Extend(n, acts', s2, i, DevForward, ForwardedLane(f));
    acts' := acts' + [On(i, DevForward)];
    Extend(n, acts', s3, i, EpPoll, ReadyLane(f));
    acts' := acts' + [On(i, EpPoll)];
  }

  lemma PassReaches(s: System, l: Lane, f: Fence)
    requires s == System(map[], map[], 0, false, [], [l, l]) && f.target
    requires l.ep.fence == f && DrainedEnd(l.ep) && l.f2d == Ring([], 0)
    ensures Apply(s, CommitPass({0})) == Some(System(map[], map[], 0, false, [], [l.(f2d := Ring([Commit(f)], 0)), l]))
  {
    assert ReadyToCommit(s);
    assert l.f2d.items + [Commit(f)] == [Commit(f)];
    var reached: set<nat> := {0};
    assert 0 in reached && 1 !in reached;
    var r := Apply(s, CommitPass(reached)).value.lanes;
    assert |r| == 2 && r[0] == l.(f2d := Ring([Commit(f)], 0)) && r[1] == l;
    assert r == [l.(f2d := Ring([Commit(f)], 0)), l];
  }

  lemma PartialPass(n: nat, acts: seq<Action>, f: Fence)
    requires Exec(n, acts) == Some(System(map[], map[], 0, false, [], [ReadyLane(f), ReadyLane(f)])) && f.target
    ensures Exec(n, acts + [CommitPass({0})])
            == Some(System(map[], map[], 0, false, [], [ReadyLane(f).(f2d := Ring([Commit(f)], 0)), ReadyLane(f)]))
  {
    hide Apply;
    PassReaches(System(map[], map[], 0, false, [], [ReadyLane(f), ReadyLane(f)]), ReadyLane(f), f);
    assert (acts + [CommitPass({0})])[..|acts|] == acts;
  }

  /** The lane after its host has seen COMMIT. */
  function ReopenedLane(f: Fence): Lane {
    var l := ReadyLane(f);
    l.(host := Host(false, [f], [f]), f2d := Ring([Commit(f)], 1), d2h := Ring([Commit(f)], 1),
       dev := l.dev.(active := true, prepareSeen := false, forwarded := false, seen := f, commits := [f]))
  }

  lemma Reopens(n: nat, acts: seq<Action>, s: System, f: Fence) returns (acts': seq<Action>, s': System)
    requires Exec(n, acts) == Some(s) && |s.lanes| > 0 && s.commits == [] && f.target
    requires s.lanes[0] == ReadyLane(f).(f2d := Ring([Commit(f)], 0))
    ensures Exec(n, acts') == Some(s') && |s'.lanes| == |s.lanes| && s'.commits == []
    ensures s'.lanes[0] == ReopenedLane(f)
  {
    hide Exec;
    var l := ReadyLane(f);
    var told := l.(f2d := Ring([Commit(f)], 1), dev := l.dev.(commitSeen := true, seen := f));
    var back := ReopenedLane(f).(host := l.host, d2h := Ring([Commit(f)], 0));
    acts', s' := StepOn(n, acts, s, DevPollNet, told);
    assert l.d2h.items + [Commit(f)] == [Commit(f)] && l.dev.commits + [f] == [f];
    acts', s' := StepOn(n, acts', s', DevCommit, back);
    assert back.host.commits + [f] == [f];
    acts', s' := StepOn(n, acts', s', HostPoll, ReopenedLane(f));
  }

  lemma Resumes(n: nat, acts: seq<Action>, s: System, f: Fence) returns (acts': seq<Action>, s': System)
    requires Exec(n, acts) == Some(s) && |s.lanes| > 0 && s.commits == []
    requires s.lanes[0] == ReopenedLane(f)
    ensures Exec(n, acts') == Some(s') && |s'.lanes| == |s.lanes| && s'.commits == []
    ensures !s'.lanes[0].d2f.Empty() && s'.lanes[0].d2f.Head() == Data(1, Request(1))
  {
    hide Exec;
    var l := ReopenedLane(f);
    var told := l.(h2d := Ring([Prepare(f), Data(1, Mmio)], 1));
    var works := l.(h2d := Ring([Prepare(f), Data(1, Mmio)], 2), dev := l.dev.(work := 1));
    var asks := works.(dev := works.dev.(outgoing := Ring([Request(1)], 0)));
    var sent := asks.(dev := works.dev.(outgoing := Ring([Request(1)], 1)),
                      d2f := Ring([Prepare(f), Data(1, Request(1))], 1));
    assert l.h2d.items + [Data(1, Mmio)] == [Prepare(f), Data(1, Mmio)];
    acts', s' := StepOn(n, acts, s, HostMmio, told);
    acts', s' := StepOn(n, acts', s', DevPollHost, works);
    assert works.dev.outgoing.items + [Request(1)] == [Request(1)];
    acts', s' := StepOn(n, acts', s', DevRequest(1), asks);
    assert asks.d2f.items + [Data(1, Request(1))] == [Prepare(f), Data(1, Request(1))];
    acts', s' := StepOn(n, acts', s', DevFlush, sent);
  }

  lemma StepOn(n: nat, acts: seq<Action>, s: System, a: LaneAction, l': Lane) returns (acts': seq<Action>, s': System)
    requires Exec(n, acts) == Some(s) && |s.lanes| > 0
    requires LaneApply(s.lanes[0], a, |s.commits|) == Some(l') && !NeedsTask(a) && !a.EpPoll?
    ensures Exec(n, acts') == Some(s') && |s'.lanes| == |s.lanes| && s'.commits == s.commits && s'.lanes[0] == l'
  {
    hide LaneApply, Exec;
    Extend(n, acts, s, 0, a, l');
    acts', s' := acts + [On(0, a)], s.(lanes := s.lanes[0 := l']);
  }

  lemma BothReady(f: Fence) returns (acts: seq<Action>)
    ensures Exec(2, acts) == Some(System(map[], map[], 0, false, [], [ReadyLane(f), ReadyLane(f)]))
  {
    hide ReadyLane, INITIAL_LANE, Apply;
    var s0 := Initial(2);
    assert Exec(2, []) == Some(s0);
    acts := Approaches(2, [], s0, 0, f);
    var s1 := s0.(lanes := s0.lanes[0 := ReadyLane(f)]);
    acts := Approaches(2, acts, s1, 1, f);
    assert s1.lanes[1 := ReadyLane(f)] == [ReadyLane(f), ReadyLane(f)];
  }

  /** Without all-or-none commit passes the fence does not separate epochs: two endpoints are enough. */
  lemma PartialCommitPassLetsAFrameCross(f: Fence) returns (acts: seq<Action>)
    requires f.target
    ensures Exec(2, acts).Some? && Apply(Exec(2, acts).value, On(0, EpPoll)).Some?
    ensures Crosses(Exec(2, acts).value, On(0, EpPoll))
  {
    hide ReadyLane, ReopenedLane, Exec;
    acts := BothReady(f);
    PartialPass(2, acts, f);
    var s := System(map[], map[], 0, false, [], [ReadyLane(f).(f2d := Ring([Commit(f)], 0)), ReadyLane(f)]);
    acts, s := Reopens(2, acts + [CommitPass({0})], s, f);
    acts, s := Resumes(2, acts, s, f);
  }
}
