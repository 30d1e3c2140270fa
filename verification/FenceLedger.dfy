/** Every frame that is polled is work that has to end: what the processes count, counted over whole runs.  So a fence
    is forwarded and committed only when nothing that was polled is unfinished. */
module FenceLedger {
  import opened Fence
  import opened Optional

  // ------------------------------------------------------------------ counting

  /** A request counts as one whatever endpoint it is for. */
  predicate Alike(j: Kind, k: Kind) { j == k || (j.Request? && k.Request?) }

  predicate Carries(m: Msg, k: Kind) { m.Data? && Alike(m.kind, k) }

  function One(b: bool): nat { if b then 1 else 0 }

  /** Frames of kind `k` among the first `n` ever queued on a ring. */
  function Frames(items: seq<Msg>, n: nat, k: Kind): nat
    requires n <= |items|
  {
    if n == 0 then 0 else Frames(items, n - 1, k) + One(Carries(items[n - 1], k))
  }

  lemma {:induction false} FramesPrefix(items: seq<Msg>, m: Msg, n: nat, k: Kind)
    requires n <= |items|
    ensures Frames(items + [m], n, k) == Frames(items, n, k)
  {
    if n > 0 {
      FramesPrefix(items, m, n - 1, k);
    }
  }

  function Kinds(items: seq<Kind>, n: nat, k: Kind): nat
    requires n <= |items|
  {
    if n == 0 then 0 else Kinds(items, n - 1, k) + One(Alike(items[n - 1], k))
  }

  lemma {:induction false} KindsPrefix(items: seq<Kind>, m: Kind, n: nat, k: Kind)
    requires n <= |items|
    ensures Kinds(items + [m], n, k) == Kinds(items, n, k)
  {
    if n > 0 {
      KindsPrefix(items, m, n - 1, k);
    }
  }

  /** Frames taken out of a ring, and frames ever put on it. */
  function Read(q: Ring<Msg>, k: Kind): nat
    requires q.read <= |q.items|
  {
    Frames(q.items, q.read, k)
  }

  function Put(q: Ring<Msg>, k: Kind): nat { Frames(q.items, |q.items|, k) }

  /** Frames ever handed to a port, and those it has put on its ring. */
  function Queued(q: Ring<Kind>, k: Kind): nat { Kinds(q.items, |q.items|, k) }

  function Flushed(q: Ring<Kind>, k: Kind): nat
    requires q.read <= |q.items|
  {
    Kinds(q.items, q.read, k)
  }

  lemma Pushed(q: Ring<Msg>, m: Msg, k: Kind)
    requires q.read <= |q.items|
    ensures Put(q.Push(m), k) == Put(q, k) + One(Carries(m, k)) && Read(q.Push(m), k) == Read(q, k)
  {
    FramesPrefix(q.items, m, |q.items|, k);
    FramesPrefix(q.items, m, q.read, k);
  }

  lemma Popped(q: Ring<Msg>, k: Kind)
    requires !q.Empty()
    ensures Put(q.Pop(), k) == Put(q, k) && Read(q.Pop(), k) == Read(q, k) + One(Carries(q.Head(), k))
  {
  }

  lemma Handed(q: Ring<Kind>, m: Kind, k: Kind)
    requires q.read <= |q.items|
    ensures Queued(q.Push(m), k) == Queued(q, k) + One(Alike(m, k)) && Flushed(q.Push(m), k) == Flushed(q, k)
  {
    KindsPrefix(q.items, m, |q.items|, k);
    KindsPrefix(q.items, m, q.read, k);
  }

  lemma Taken(q: Ring<Kind>, k: Kind)
    requires !q.Empty()
    ensures Queued(q.Pop(), k) == Queued(q, k) && Flushed(q.Pop(), k) == Flushed(q, k) + One(Alike(q.Head(), k))
  {
  }

  // ------------------------------------------------------------------ one lane

  /** How often a lane has taken a step of each sort. */
  datatype Counts = Counts(starts: nat, ends: nat, receptions: nat, answers: nat, dmas: nat, chunks: nat, requests: nat,
                           executions: nat, deliveries: nat, results: nat)

  const NONE := Counts(0, 0, 0, 0, 0, 0, 0, 0, 0, 0)

  function Counted(c: Counts, a: LaneAction): Counts {
    match a
    case HostMmio => c.(starts := c.starts + 1)
    case DevFinishWork => c.(ends := c.ends + 1)
    case DevFinishReceive => c.(receptions := c.receptions + 1)
    case DevAnswer => c.(answers := c.answers + 1)
    case DevDma => c.(dmas := c.dmas + 1)
    case DevChunk => c.(chunks := c.chunks + 1)
    case DevRequest(_) => c.(requests := c.requests + 1)
    case EpExecute(_) => c.(executions := c.executions + 1)
    case EpDeliver(_) => c.(deliveries := c.deliveries + 1)
    case EpResult(_) => c.(results := c.results + 1)
    case _ => c
  }

  /** The steps of lane `i` in a run. */
  function CountsOf(acts: seq<Action>, i: nat): Counts {
    if acts == [] then NONE
    else
      var c, a := CountsOf(acts[..|acts| - 1], i), acts[|acts| - 1];
      if a.On? && a.lane == i then Counted(c, a.a) else c
  }

  predicate InBounds(l: Lane) {
    && l.h2d.read <= |l.h2d.items| && l.d2h.read <= |l.d2h.items|
    && l.d2f.read <= |l.d2f.items| && l.f2d.read <= |l.f2d.items|
    && l.dev.outgoing.read <= |l.dev.outgoing.items| && l.ep.outgoing.read <= |l.ep.outgoing.items|
  }

  /** Work of the host: what was sent, what the device has taken in, and what of it has ended. */
  predicate HostSide(l: Lane, c: Counts)
    requires InBounds(l)
  {
    && Put(l.h2d, Mmio) == c.starts && Read(l.h2d, Mmio) == c.ends + l.dev.work
    && Put(l.d2h, Dma) == c.dmas == Read(l.h2d, DmaDone) + l.dev.dma && Put(l.h2d, DmaDone) == Read(l.d2h, Dma)
  }

  /** Work of the fabric, likewise. */
  predicate FabricSide(l: Lane, c: Counts)
    requires InBounds(l)
  {
    && Read(l.f2d, Deliver) == c.receptions + l.dev.receiving && Read(l.f2d, Execute) == c.answers + l.dev.serving
    && c.executions == Read(l.d2f, TargetDone) + l.ep.targets
  }

  /** What was handed to the ports. */
  predicate Ports(l: Lane, c: Counts) {
    && Queued(l.dev.outgoing, TargetDone) == c.answers && Queued(l.dev.outgoing, Chunk) == c.chunks
    && Queued(l.dev.outgoing, Request(0)) == c.requests
    && Queued(l.ep.outgoing, Execute) == c.executions && Queued(l.ep.outgoing, Deliver) == c.deliveries
    && Queued(l.ep.outgoing, Result) == c.results
  }

  /** The ports put on their rings what they were handed, and nothing else. */
  ghost predicate Carried(l: Lane)
    requires InBounds(l)
  {
    && (forall k {:trigger Put(l.d2f, k)} {:trigger Flushed(l.dev.outgoing, k)} ::
          Put(l.d2f, k) == Flushed(l.dev.outgoing, k))
    && (forall k {:trigger Put(l.f2d, k)} {:trigger Flushed(l.ep.outgoing, k)} ::
          Put(l.f2d, k) == Flushed(l.ep.outgoing, k))
  }

  ghost predicate Ledger(l: Lane, c: Counts) {
    InBounds(l) && HostSide(l, c) && FabricSide(l, c) && Ports(l, c) && Carried(l)
  }

  lemma HostSteps(l: Lane, a: LaneAction, epoch: nat, c: Counts)
    requires Ledger(l, c) && LaneApply(l, a, epoch).Some? && (a.HostMmio? || a.HostPrepare? || a.HostPoll?)
    ensures Ledger(LaneApply(l, a, epoch).value, Counted(c, a))
  {
    hide Frames, Kinds;
    var t := LaneApply(l, a, epoch).value;
    if a.HostPoll? {
      Popped(l.d2h, Dma);
      Pushed(l.h2d, Data(|l.host.commits|, DmaDone), Mmio);
      Pushed(l.h2d, Data(|l.host.commits|, DmaDone), DmaDone);
    } else {
      var m := if a.HostPrepare? then Prepare(a.f) else Data(|l.host.commits|, Mmio);
      Pushed(l.h2d, m, Mmio);
      Pushed(l.h2d, m, DmaDone);
    }
    assert t.ep == l.ep && t.f2d == l.f2d && t.d2f == l.d2f && t.dev == l.dev;
  }

  lemma DeviceHears(l: Lane, c: Counts)
    requires Ledger(l, c) && DevPollHostStep(l).Some?
    ensures Ledger(DevPollHostStep(l).value, c)
  {
    Popped(l.h2d, Mmio);
    Popped(l.h2d, DmaDone);
    hide Frames, Kinds;
    var t := DevPollHostStep(l).value;
    assert t.ep == l.ep && t.dev.outgoing == l.dev.outgoing;
  }

  lemma DeviceGets(l: Lane, c: Counts)
    requires Ledger(l, c) && DevPollNetStep(l).Some?
    ensures Ledger(DevPollNetStep(l).value, c)
  {
    Popped(l.f2d, Deliver);
    Popped(l.f2d, Execute);
    hide Frames, Kinds;
    var t := DevPollNetStep(l).value;
    assert t.ep == l.ep && t.dev.outgoing == l.dev.outgoing;
    forall k
      ensures Put(t.f2d, k) == Flushed(t.ep.outgoing, k)
    {
      Popped(l.f2d, k);
      assert Put(l.f2d, k) == Flushed(l.ep.outgoing, k);
    }
  }

  lemma DeviceQueues(l: Lane, a: LaneAction, epoch: nat, c: Counts)
    requires Ledger(l, c) && LaneApply(l, a, epoch).Some? && (a.DevChunk? || a.DevRequest? || a.DevAnswer?)
    ensures Ledger(LaneApply(l, a, epoch).value, Counted(c, a))
  {
    var m := if a.DevChunk? then Chunk else if a.DevRequest? then Request(a.to) else TargetDone;
    hide Frames, Kinds;
    forall k
      ensures Queued(l.dev.outgoing.Push(m), k) == Queued(l.dev.outgoing, k) + One(Alike(m, k))
      ensures Flushed(l.dev.outgoing.Push(m), k) == Flushed(l.dev.outgoing, k)
    {
      Handed(l.dev.outgoing, m, k);
    }
  }

  lemma DeviceSends(l: Lane, a: LaneAction, epoch: nat, c: Counts)
    requires Ledger(l, c) && LaneApply(l, a, epoch).Some? && (a.DevFlush? || a.DevForward?)
    ensures Ledger(LaneApply(l, a, epoch).value, Counted(c, a))
  {
    var m := if a.DevForward? then Prepare(l.dev.fence) else Data(|l.dev.commits|, l.dev.outgoing.Head());
    hide Frames, Kinds;
    var t := LaneApply(l, a, epoch).value;
    forall k
      ensures Put(t.d2f, k) == Flushed(t.dev.outgoing, k) && Read(t.d2f, k) == Read(l.d2f, k)
      ensures Queued(t.dev.outgoing, k) == Queued(l.dev.outgoing, k)
    {
      Pushed(l.d2f, m, k);
      if a.DevFlush? {
        Taken(l.dev.outgoing, k);
      }
      assert Put(l.d2f, k) == Flushed(l.dev.outgoing, k);
    }
  }

  lemma DeviceSignals(l: Lane, a: LaneAction, epoch: nat, c: Counts)
    requires Ledger(l, c) && LaneApply(l, a, epoch).Some? && (a.DevDma? || a.DevIrq? || a.DevCommit?)
    ensures Ledger(LaneApply(l, a, epoch).value, Counted(c, a))
  {
    var m := if a.DevCommit? then Commit(l.dev.fence) else Data(|l.dev.commits|, if a.DevDma? then Dma else Irq);
    Pushed(l.d2h, m, Dma);
    hide Frames, Kinds;
    var t := LaneApply(l, a, epoch).value;
    assert t.ep == l.ep && t.dev.outgoing == l.dev.outgoing && t.f2d == l.f2d && t.d2f == l.d2f;
  }

  lemma DeviceEnds(l: Lane, a: LaneAction, epoch: nat, c: Counts)
    requires Ledger(l, c) && LaneApply(l, a, epoch).Some? && (a.DevFinishWork? || a.DevFinishReceive?)
    ensures Ledger(LaneApply(l, a, epoch).value, Counted(c, a))
  {
    hide Frames, Kinds;
    var t := LaneApply(l, a, epoch).value;
    assert t.ep == l.ep && t.dev.outgoing == l.dev.outgoing && t.f2d == l.f2d && t.d2f == l.d2f;
  }

  lemma EndpointQueues(l: Lane, a: LaneAction, epoch: nat, c: Counts)
    requires Ledger(l, c) && (a.EpExecute? || a.EpDeliver? || a.EpResult?)
    ensures Ledger(LaneApply(l, a, epoch).value, Counted(c, a))
  {
    var m := if a.EpExecute? then Execute else if a.EpDeliver? then Deliver else Result;
    hide Frames, Kinds;
    forall k
      ensures Queued(l.ep.outgoing.Push(m), k) == Queued(l.ep.outgoing, k) + One(Alike(m, k))
      ensures Flushed(l.ep.outgoing.Push(m), k) == Flushed(l.ep.outgoing, k)
    {
      Handed(l.ep.outgoing, m, k);
    }
  }

  lemma EndpointSends(l: Lane, epoch: nat, c: Counts)
    requires Ledger(l, c) && EpFlushStep(l, epoch).Some?
    ensures Ledger(EpFlushStep(l, epoch).value, c)
  {
    var m := Data(epoch, l.ep.outgoing.Head());
    hide Frames, Kinds;
    var t := EpFlushStep(l, epoch).value;
    forall k
      ensures Put(t.f2d, k) == Flushed(t.ep.outgoing, k) && Read(t.f2d, k) == Read(l.f2d, k)
      ensures Queued(t.ep.outgoing, k) == Queued(l.ep.outgoing, k)
    {
      Pushed(l.f2d, m, k);
      Taken(l.ep.outgoing, k);
      assert Put(l.f2d, k) == Flushed(l.ep.outgoing, k);
    }
  }

  lemma EndpointPolls(l: Lane, c: Counts)
    requires Ledger(l, c) && EpPollStep(l).Some?
    ensures Ledger(EpPollStep(l).value, c)
  {
    hide Frames, Kinds;
    var t := EpPollStep(l).value;
    forall k
      ensures Put(t.d2f, k) == Flushed(t.dev.outgoing, k)
    {
      Popped(l.d2f, k);
      assert Put(l.d2f, k) == Flushed(l.dev.outgoing, k);
    }
    Popped(l.d2f, TargetDone);
  }

  lemma LaneCounts(l: Lane, a: LaneAction, epoch: nat, c: Counts)
    requires Ledger(l, c) && LaneApply(l, a, epoch).Some?
    ensures Ledger(LaneApply(l, a, epoch).value, Counted(c, a))
  {
    hide Ledger;
    match a {
      case HostMmio => HostSteps(l, a, epoch, c);
      case HostPrepare(_) => HostSteps(l, a, epoch, c);
      case HostPoll => HostSteps(l, a, epoch, c);
      case DevPollHost => DeviceHears(l, c);
      case DevPollNet => DeviceGets(l, c);
      case DevDma => DeviceSignals(l, a, epoch, c);
      case DevIrq => DeviceSignals(l, a, epoch, c);
      case DevCommit => DeviceSignals(l, a, epoch, c);
      case DevFlush => DeviceSends(l, a, epoch, c);
      case DevForward => DeviceSends(l, a, epoch, c);
      case DevFinishWork => DeviceEnds(l, a, epoch, c);
      case DevFinishReceive => DeviceEnds(l, a, epoch, c);
      case EpFlush => EndpointSends(l, epoch, c);
      case EpPoll => EndpointPolls(l, c);
      case EpExecute(_) => EndpointQueues(l, a, epoch, c);
      case EpDeliver(_) => EndpointQueues(l, a, epoch, c);
      case EpResult(_) => EndpointQueues(l, a, epoch, c);
      case _ => DeviceQueues(l, a, epoch, c);
    }
  }

  // ------------------------------------------------------------------ over runs

  /** In every run and on every lane: what was sent arrives or is on its way, and what has been polled has ended or is
      counted as under way. */
  lemma {:induction false} RunLedger(n: nat, acts: seq<Action>, i: nat)
    requires Exec(n, acts).Some? && i < |Exec(n, acts).value.lanes|
    ensures Ledger(Exec(n, acts).value.lanes[i], CountsOf(acts, i))
  {
    hide LaneApply, Ledger, Counted;
    if acts == [] {
      NothingYet();
    } else {
      var s, a := Exec(n, acts[..|acts| - 1]).value, acts[|acts| - 1];
      RunLedger(n, acts[..|acts| - 1], i);
      match a {
        case On(j, la) =>
          if i == j {
            LaneCounts(s.lanes[i], la, |s.commits|, CountsOf(acts[..|acts| - 1], i));
          }
        case FinishTask(_) =>
        case CommitPass(_) => PassCounts(s.lanes[i], s.lanes[0].ep.fence, CountsOf(acts[..|acts| - 1], i));
      }
    }
  }

  lemma NothingYet()
    ensures Ledger(INITIAL_LANE, NONE)
  {
    var l := INITIAL_LANE;
    assert l.h2d == l.d2h == l.d2f == l.f2d == Ring([], 0) && l.dev.outgoing == l.ep.outgoing == Ring([], 0);
    assert l.dev.work == l.dev.serving == l.dev.receiving == l.dev.dma == l.ep.targets == 0;
    hide Ledger, INITIAL_LANE;
    EmptyLedger(l);
  }

  lemma EmptyLedger(l: Lane)
    requires l.h2d == l.d2h == l.d2f == l.f2d == Ring([], 0) && l.dev.outgoing == l.ep.outgoing == Ring([], 0)
    requires l.dev.work == l.dev.serving == l.dev.receiving == l.dev.dma == l.ep.targets == 0
    ensures Ledger(l, NONE)
  {
    forall k
      ensures Put(l.d2f, k) == Read(l.d2f, k) == 0 && Queued(l.ep.outgoing, k) == Flushed(l.ep.outgoing, k) == 0
    {
    }
    hide Frames, Kinds;
  }

  lemma PassCounts(l: Lane, f: Fence, c: Counts)
    requires Ledger(l, c)
    ensures Ledger(l.(f2d := l.f2d.Push(Commit(f))), c) && Ledger(Committed(l, f), c)
  {
    hide Frames, Kinds;
    forall k
      ensures Put(l.f2d.Push(Commit(f)), k) == Put(l.f2d, k) && Read(l.f2d.Push(Commit(f)), k) == Read(l.f2d, k)
    {
      Pushed(l.f2d, Commit(f), k);
    }
  }

  /** Every piece of work the device has polled has ended, its frames are on the ring, and the host has answered all
      its DMA. */
  predicate Finished(l: Lane, c: Counts) {
    && InBounds(l)
    && Read(l.h2d, Mmio) == c.ends && Read(l.f2d, Deliver) == c.receptions && Read(l.f2d, Execute) == c.answers
    && Read(l.h2d, DmaDone) == c.dmas
    && Put(l.d2f, TargetDone) == c.answers && Put(l.d2f, Chunk) == c.chunks && Put(l.d2f, Request(0)) == c.requests
  }

  lemma IdleIsFinished(l: Lane, c: Counts)
    requires Ledger(l, c)
    ensures Idle(l.dev) <==> Finished(l, c) && !l.dev.cutting && l.dev.outgoing.Empty()
  {
    assert Put(l.d2f, TargetDone) == Flushed(l.dev.outgoing, TargetDone);
    assert Put(l.d2f, Chunk) == Flushed(l.dev.outgoing, Chunk);
    assert Put(l.d2f, Request(0)) == Flushed(l.dev.outgoing, Request(0));
    hide Frames, Kinds, Carried;
  }

  lemma FenceNeedsIdle(s: System, i: nat, a: LaneAction)
    requires (a.DevForward? || a.DevCommit?) && Apply(s, On(i, a)).Some?
    ensures Idle(s.lanes[i].dev)
  {
    hide Idle;
  }

  /** A device forwards PREPARE and commits a fence only when all work, deliveries and executions it has polled have
      ended, every frame it made of them is on the ring, and no part of a work request is missing its last. */
  lemma FenceWaitsForWork(n: nat, acts: seq<Action>, i: nat, a: LaneAction)
    requires Exec(n, acts).Some? && (a.DevForward? || a.DevCommit?)
    requires Apply(Exec(n, acts).value, On(i, a)).Some?
    ensures Finished(Exec(n, acts).value.lanes[i], CountsOf(acts, i)) && !Exec(n, acts).value.lanes[i].dev.cutting
  {
    hide Exec, Ledger, Idle, Finished;
    FenceNeedsIdle(Exec(n, acts).value, i, a);
    RunLedger(n, acts, i);
    IdleIsFinished(Exec(n, acts).value.lanes[i], CountsOf(acts, i));
  }

  /** And it is not kept waiting without need: seen, not yet forwarded and finished, PREPARE can go on. */
  lemma FinishedDeviceForwards(n: nat, acts: seq<Action>, i: nat)
    requires Exec(n, acts).Some? && i < |Exec(n, acts).value.lanes|
    requires var l := Exec(n, acts).value.lanes[i];
             && Finished(l, CountsOf(acts, i)) && l.dev.prepareSeen && !l.dev.forwarded && !l.dev.cutting
             && l.dev.outgoing.Empty()
    ensures Apply(Exec(n, acts).value, On(i, DevForward)).Some?
  {
    hide Exec, Ledger, Idle, Finished;
    RunLedger(n, acts, i);
    IdleIsFinished(Exec(n, acts).value.lanes[i], CountsOf(acts, i));
  }

  // ------------------------------------------------------------------ the fabric

  /** Work requests polled from one lane after the other. */
  function Polled(lanes: seq<Lane>): nat
    requires forall i :: 0 <= i < |lanes| ==> InBounds(lanes[i])
  {
    if lanes == [] then 0
    else
      var n := |lanes| - 1;
      assert InBounds(lanes[n]);
      Polled(lanes[..n]) + Read(lanes[n].d2f, Request(0))
  }

  lemma {:induction false} OneLane(lanes: seq<Lane>, i: nat, l: Lane)
    requires i < |lanes| && InBounds(l) && forall j :: 0 <= j < |lanes| ==> InBounds(lanes[j])
    ensures Polled(lanes[i := l]) ==
            Polled(lanes) - Read(lanes[i].d2f, Request(0)) + Read(l.d2f, Request(0))
  {
    var n := |lanes| - 1;
    if i == n {
      assert lanes[i := l][..n] == lanes[..n];
    } else {
      OneLane(lanes[..n], i, l);
      assert lanes[i := l][..n] == lanes[..n][i := l];
    }
  }

  lemma {:induction false} SameRequests(lanes: seq<Lane>, after: seq<Lane>)
    requires |after| == |lanes| && forall i :: 0 <= i < |lanes| ==>
               InBounds(lanes[i]) && InBounds(after[i]) && after[i].d2f == lanes[i].d2f
    ensures Polled(after) == Polled(lanes)
  {
    if lanes != [] {
      SameRequests(lanes[..|lanes| - 1], after[..|lanes| - 1]);
    }
  }

  ghost predicate Submitted(s: System) {
    && (forall i :: 0 <= i < |s.lanes| ==> InBounds(s.lanes[i]))
    && s.nextTask == Polled(s.lanes) == |s.tasks| + |s.ended|
    && (forall t :: t in s.tasks ==> t < s.nextTask && t !in s.ended)
    && (forall t :: t in s.ended ==> t < s.nextTask)
  }

  lemma Joins(m: map<nat, Task>, t: nat, x: Task)
    ensures t !in m ==> |m[t := x]| == |m| + 1
    ensures t in m ==> |m - {t}| == |m| - 1
  {
    assert m[t := x].Keys == m.Keys + {t} && (m - {t}).Keys == m.Keys - {t};
    assert |m[t := x]| == |m[t := x].Keys| && |m - {t}| == |(m - {t}).Keys| && |m| == |m.Keys|;
  }

  lemma TaskEnds(s: System, t: nat)
    requires Submitted(s) && t in s.tasks
    ensures Submitted(Apply(s, FinishTask(t)).value)
  {
    Joins(s.tasks, t, s.tasks[t]);
    Joins(s.ended, t, s.tasks[t]);
    hide Polled, InBounds;
  }

  lemma LaneSubmits(s: System, i: nat, a: LaneAction, c: Counts)
    requires Submitted(s) && Apply(s, On(i, a)).Some? && Ledger(s.lanes[i], c)
    ensures Submitted(Apply(s, On(i, a)).value)
  {
    hide LaneApply, Submitted, Submits, Frames, Polled;
    var l := s.lanes[i];
    var t := LaneApply(l, a, |s.commits|).value;
    assert InBounds(l) && InBounds(t) by {
      LaneCounts(l, a, |s.commits|, c);
    }
    RequestsRead(l, a, |s.commits|);
    OneSubmits(s, i, t, Submits(l, a));
    hide Ledger;
  }

  lemma OneSubmits(s: System, i: nat, t: Lane, to: Option<nat>)
    requires Submitted(s) && i < |s.lanes| && InBounds(t) && InBounds(s.lanes[i])
    requires Read(t.d2f, Request(0)) == Read(s.lanes[i].d2f, Request(0)) + One(to.Some?)
    ensures to.None? ==> Submitted(s.(lanes := s.lanes[i := t]))
    ensures to.Some? ==> Submitted(s.(lanes := s.lanes[i := t], nextTask := s.nextTask + 1,
                                      tasks := s.tasks[s.nextTask := Task(i, to.value, |s.commits|)]))
  {
    OneLane(s.lanes, i, t);
    if to.Some? {
      Joins(s.tasks, s.nextTask, Task(i, to.value, |s.commits|));
    }
    hide Frames, Polled, InBounds;
  }

  lemma RequestsRead(l: Lane, a: LaneAction, epoch: nat)
    requires InBounds(l) && LaneApply(l, a, epoch).Some? && InBounds(LaneApply(l, a, epoch).value)
    ensures Read(LaneApply(l, a, epoch).value.d2f, Request(0)) == Read(l.d2f, Request(0)) + One(Submits(l, a).Some?)
  {
    hide Frames;
    var t := LaneApply(l, a, epoch).value;
    if a.EpPoll? {
      Popped(l.d2f, Request(0));
    } else if a.DevFlush? {
      Pushed(l.d2f, Data(|l.dev.commits|, l.dev.outgoing.Head()), Request(0));
    } else if a.DevForward? {
      Pushed(l.d2f, Prepare(l.dev.fence), Request(0));
    } else {
      RingUntouched(l, a, epoch);
    }
  }

  lemma RingUntouched(l: Lane, a: LaneAction, epoch: nat)
    requires LaneApply(l, a, epoch).Some? && !a.EpPoll? && !a.DevFlush? && !a.DevForward?
    ensures LaneApply(l, a, epoch).value.d2f == l.d2f
  {
    hide Idle, Hears, Gets;
  }

  lemma PassSubmits(s: System, reached: set<nat>)
    requires Submitted(s) && Apply(s, CommitPass(reached)).Some?
    ensures Submitted(Apply(s, CommitPass(reached)).value)
  {
    hide ReadyToCommit, Polled;
    SameRequests(s.lanes, Apply(s, CommitPass(reached)).value.lanes);
  }

  /** Every work request the fabric has polled is open or has ended, and there are no others. */
  lemma {:induction false} EveryRequestIsSubmitted(n: nat, acts: seq<Action>)
    requires Exec(n, acts).Some?
    ensures var s := Exec(n, acts).value;
            && (forall i :: 0 <= i < |s.lanes| ==> InBounds(s.lanes[i]))
            && Polled(s.lanes) == |s.tasks| + |s.ended| == s.nextTask
    ensures Submitted(Exec(n, acts).value)
  {
    hide Apply, Submitted, Ledger;
    if acts == [] {
      NoneSubmitted(n);
    } else {
      var before, a := acts[..|acts| - 1], acts[|acts| - 1];
      EveryRequestIsSubmitted(n, before);
      var s := Exec(n, before).value;
      match a {
        case On(i, la) =>
          OnLane(s, i, la);
          RunLedger(n, before, i);
          LaneSubmits(s, i, la, CountsOf(before, i));
        case FinishTask(t) =>
          WasOpen(s, t);
          TaskEnds(s, t);
        case CommitPass(reached) => PassSubmits(s, reached);
      }
    }
    SaysSubmitted(Exec(n, acts).value);
  }

  lemma OnLane(s: System, i: nat, a: LaneAction)
    requires Apply(s, On(i, a)).Some?
    ensures i < |s.lanes|
  {
  }

  lemma WasOpen(s: System, t: nat)
    requires Apply(s, FinishTask(t)).Some?
    ensures t in s.tasks
  {
  }

  lemma SaysSubmitted(s: System)
    requires Submitted(s)
    ensures (forall i :: 0 <= i < |s.lanes| ==> InBounds(s.lanes[i]))
    ensures Polled(s.lanes) == |s.tasks| + |s.ended| == s.nextTask
  {
  }

  lemma {:induction false} NoneSubmitted(n: nat)
    ensures Submitted(Initial(n))
  {
    var lanes := Initial(n).lanes;
    NothingPolled(lanes);
  }

  lemma {:induction false} NothingPolled(lanes: seq<Lane>)
    requires forall i :: 0 <= i < |lanes| ==> lanes[i] == INITIAL_LANE
    ensures (forall i :: 0 <= i < |lanes| ==> InBounds(lanes[i])) && Polled(lanes) == 0
  {
    if lanes != [] {
      NothingPolled(lanes[..|lanes| - 1]);
    }
  }
}
