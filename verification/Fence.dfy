/** The lifecycle fence that separates two simulation epochs.

    One lane is a host, its device process and the fabric endpoint the device talks to, joined
    by four FIFO rings.  The fabric owns all lanes.  A host announces a fence with PREPARE and
    then starts nothing new; its device forwards PREPARE once it is quiescent; the fabric, once
    every endpoint is prepared and it owns no work, sends COMMIT to all of them; a device that
    has polled COMMIT and is quiescent again commits and tells its host.

    Every data frame carries, as a tag the processes never read, the number of fences its sender
    had committed when the frame entered the ring. */
module Fence {
  import opened Optional

  datatype Fence = Fence(generation: nat, target: bool)

  datatype Kind =
    | Mmio         // host to device: new work
    | DmaDone      // host to device: answer to a DMA request
    | Dma          // device to host: DMA request, answered once
    | Irq          // device to host: interrupt, not answered
    | Chunk        // device to fabric: part of a WQE, not its last
    | Request(to: nat)  // device to fabric: the last part of a WQE for endpoint `to`
    | TargetDone   // device to fabric: answer to an execution request
    | Execute      // fabric to device: target execution that is answered
    | Deliver      // fabric to device: SEND delivery, not answered
    | Result       // fabric to device: response or acknowledgement for an earlier WQE

  datatype Msg = Data(epoch: nat, kind: Kind) | Prepare(fence: Fence) | Commit(fence: Fence)

  /** A FIFO: everything ever queued and how much of it has been taken out. */
  datatype Ring<T> = Ring(items: seq<T>, read: nat) {
    predicate Empty() { read >= |items| }
    function Head(): T requires !Empty() { items[read] }
    function Pop(): Ring<T> { Ring(items, read + 1) }
    function Push(x: T): Ring<T> { Ring(items + [x], read) }
  }

  datatype Host = Host(silent: bool, prepares: seq<Fence>, commits: seq<Fence>)

  datatype Device = Device(
    work: nat,            // operations started by the host, not yet finished
    serving: nat,         // executions accepted from the fabric, not yet answered
    receiving: nat,       // SEND deliveries not yet finished
    dma: nat,             // host DMA requests not yet answered
    cutting: bool,        // part of a WQE is queued and its last part is not
    outgoing: Ring<Kind>,  // frames waiting for ring space
    prepareSeen: bool, generationSeen: bool, fence: Fence,
    forwarded: bool, sent: Fence,
    commitSeen: bool, seen: Fence,
    active: bool, commits: seq<Fence>)

  /** `partial` is a WQE in `partial_wqes_`. */
  datatype Endpoint = Endpoint(outgoing: Ring<Kind>, targets: nat, partial: bool, prepared: bool, fence: Fence)

  datatype Lane = Lane(host: Host, h2d: Ring<Msg>, d2h: Ring<Msg>, dev: Device,
                       d2f: Ring<Msg>, f2d: Ring<Msg>, ep: Endpoint)

  /** A WQE given to the native network; `scheduled_packets_` is the number of those in `tasks`.  One that has ended
      may still be executed.  `epoch` is how many fences the fabric had committed when it was submitted. */
  datatype Task = Task(source: nat, target: nat, epoch: nat)

  datatype System = System(tasks: map<nat, Task>, ended: map<nat, Task>, nextTask: nat, active: bool,
                           commits: seq<Fence>, lanes: seq<Lane>)

  // ------------------------------------------------------------------ steps of one lane

  datatype LaneAction =
    | HostMmio | HostPrepare(f: Fence) | HostPoll
    | DevPollHost | DevPollNet | DevDma | DevIrq | DevChunk | DevRequest(to: nat) | DevFinishWork
    | DevAnswer | DevFinishReceive | DevFlush | DevForward | DevCommit
    | EpExecute(task: nat) | EpDeliver(task: nat) | EpResult(task: nat) | EpFlush | EpPoll

  /** The model and both ports are idle: the test in front of PREPARE and of the commit. */
  predicate Idle(d: Device) {
    d.work == 0 && d.serving == 0 && d.receiving == 0 && d.dma == 0 && !d.cutting && d.outgoing.Empty()
  }

  predicate Busy(d: Device) {
    d.work > 0 || d.serving > 0 || d.receiving > 0
  }

  function HostPollStep(l: Lane): Option<Lane> {
    if l.d2h.Empty() then None
    else
      var l' := l.(d2h := l.d2h.Pop());
      match l.d2h.Head()
      case Data(_, k) => if k == Dma then Some(l'.(h2d := l.h2d.Push(Data(|l.host.commits|, DmaDone)))) else Some(l')
      case Commit(f) => Some(l'.(host := l.host.(silent := false, commits := l.host.commits + [f])))
      case Prepare(_) => None
  }

  /** `HostPort::Poll` on a message; `None` where the process throws: it stops, so nothing follows. */
  function Hears(d: Device, m: Msg): Option<Device> {
    match m
    case Data(_, k) =>
      if k == Mmio then Some(d.(work := d.work + 1))
      else if k != DmaDone then Some(d)
      else if d.dma == 0 then None
      else Some(d.(dma := d.dma - 1))
    case Prepare(f) =>
      if d.prepareSeen || (d.generationSeen && f.generation <= d.fence.generation) then None
      else Some(d.(prepareSeen := true, generationSeen := true, fence := f))
    case Commit(_) => Some(d)
  }

  function DevPollHostStep(l: Lane): Option<Lane> {
    if l.h2d.Empty() then None
    else
      var d := Hears(l.dev, l.h2d.Head());
      if d.None? then None else Some(l.(h2d := l.h2d.Pop(), dev := d.value))
  }

  /** `NetworkPort::Poll` on a message. */
  function Gets(d: Device, m: Msg): Option<Device> {
    match m
    case Data(_, k) =>
      if k == Execute then Some(d.(serving := d.serving + 1))
      else if k == Deliver then Some(d.(receiving := d.receiving + 1))
      else Some(d)
    case Commit(f) => if !d.forwarded || f != d.sent then None else Some(d.(commitSeen := true, seen := f))
    case Prepare(_) => Some(d)
  }

  function DevPollNetStep(l: Lane): Option<Lane> {
    if l.dev.commitSeen || l.f2d.Empty() then None
    else
      var d := Gets(l.dev, l.f2d.Head());
      if d.None? then None else Some(l.(f2d := l.f2d.Pop(), dev := d.value))
  }

  function DevFlushStep(l: Lane): Option<Lane> {
    if l.dev.outgoing.Empty() then None
    else Some(l.(dev := l.dev.(outgoing := l.dev.outgoing.Pop()),
                 d2f := l.d2f.Push(Data(|l.dev.commits|, l.dev.outgoing.Head()))))
  }

  function DevForwardStep(l: Lane): Option<Lane> {
    if l.dev.prepareSeen && !l.dev.forwarded && Idle(l.dev) then
      Some(l.(dev := l.dev.(forwarded := true, sent := l.dev.fence), d2f := l.d2f.Push(Prepare(l.dev.fence))))
    else None
  }

  function DevCommitStep(l: Lane): Option<Lane> {
    var d := l.dev;
    if !(d.forwarded && d.commitSeen && Idle(d)) then None
    else if d.seen != d.fence || d.fence.target == d.active then None
    else Some(l.(dev := d.(active := d.fence.target, prepareSeen := false, forwarded := false, commitSeen := false,
                           commits := d.commits + [d.fence]),
                 d2h := l.d2h.Push(Commit(d.fence))))
  }

  function EpFlushStep(l: Lane, epoch: nat): Option<Lane> {
    if l.ep.outgoing.Empty() then None
    else Some(l.(ep := l.ep.(outgoing := l.ep.outgoing.Pop()), f2d := l.f2d.Push(Data(epoch, l.ep.outgoing.Head()))))
  }

  /** `PollOne` of the fabric on a message. */
  function Takes(e: Endpoint, m: Msg): Option<Endpoint> {
    match m
    case Data(_, k) =>
      if k.Chunk? || k.Request? then Some(e.(partial := k.Chunk?))
      else if k != TargetDone then Some(e)
      else if e.targets == 0 then None
      else Some(e.(targets := e.targets - 1))
    case Prepare(f) => Some(e.(prepared := true, fence := f))
    case Commit(_) => Some(e)
  }

  function EpPollStep(l: Lane): Option<Lane> {
    if l.d2f.Empty() then None
    else
      var e := Takes(l.ep, l.d2f.Head());
      if e.None? then None else Some(l.(d2f := l.d2f.Pop(), ep := e.value))
  }

  /** One step of a lane while the fabric has committed `epoch` fences. */
  function LaneApply(l: Lane, a: LaneAction, epoch: nat): Option<Lane> {
    match a
    case HostMmio => if l.host.silent then None else Some(l.(h2d := l.h2d.Push(Data(|l.host.commits|, Mmio))))
    case HostPrepare(f) =>
      if l.host.silent then None
      else Some(l.(host := l.host.(silent := true, prepares := l.host.prepares + [f]), h2d := l.h2d.Push(Prepare(f))))
    case HostPoll => HostPollStep(l)
    case DevPollHost => DevPollHostStep(l)
    case DevPollNet => DevPollNetStep(l)
    case DevDma =>
      if !Busy(l.dev) then None
      else Some(l.(dev := l.dev.(dma := l.dev.dma + 1), d2h := l.d2h.Push(Data(|l.dev.commits|, Dma))))
    case DevIrq => if !Busy(l.dev) then None else Some(l.(d2h := l.d2h.Push(Data(|l.dev.commits|, Irq))))
    case DevChunk =>
      if l.dev.work == 0 then None
      else Some(l.(dev := l.dev.(cutting := true, outgoing := l.dev.outgoing.Push(Chunk))))
    case DevRequest(to) =>
      if l.dev.work == 0 then None
      else Some(l.(dev := l.dev.(cutting := false, outgoing := l.dev.outgoing.Push(Request(to)))))
    case DevFinishWork =>
      if l.dev.work == 0 || l.dev.cutting then None else Some(l.(dev := l.dev.(work := l.dev.work - 1)))
    case DevAnswer =>
      if l.dev.serving == 0 then None
      else Some(l.(dev := l.dev.(serving := l.dev.serving - 1, outgoing := l.dev.outgoing.Push(TargetDone))))
    case DevFinishReceive =>
      if l.dev.receiving == 0 then None else Some(l.(dev := l.dev.(receiving := l.dev.receiving - 1)))
    case DevFlush => DevFlushStep(l)
    case DevForward => DevForwardStep(l)
    case DevCommit => DevCommitStep(l)
    case EpExecute(_) => Some(l.(ep := l.ep.(outgoing := l.ep.outgoing.Push(Execute), targets := l.ep.targets + 1)))
    case EpDeliver(_) => Some(l.(ep := l.ep.(outgoing := l.ep.outgoing.Push(Deliver))))
    case EpResult(_) => Some(l.(ep := l.ep.(outgoing := l.ep.outgoing.Push(Result))))
    case EpFlush => EpFlushStep(l, epoch)
    case EpPoll => EpPollStep(l)
  }

  // ------------------------------------------------------------------ steps of the system

  /** `CommitPass(reached)` is one pass over the endpoints in which a ring slot could be
      allocated exactly for the lanes in `reached`. */
  datatype Action = On(lane: nat, a: LaneAction) | FinishTask(task: nat) | CommitPass(reached: set<nat>)

  predicate NeedsTask(a: LaneAction) { a.EpExecute? || a.EpDeliver? || a.EpResult? }

  /** Executions and deliveries go to the target of a WQE, open or not, results of an open one back to its source. */
  predicate Belongs(s: System, i: nat, a: LaneAction) {
    match a
    case EpExecute(t) => IsTarget(s.tasks, t, i) || IsTarget(s.ended, t, i)
    case EpDeliver(t) => IsTarget(s.tasks, t, i) || IsTarget(s.ended, t, i)
    case EpResult(t) => t in s.tasks && s.tasks[t].source == i
    case _ => true
  }

  predicate IsTarget(tasks: map<nat, Task>, t: nat, i: nat) { t in tasks && tasks[t].target == i }

  /** The WQE whose last part is polled. */
  function Submits(l: Lane, a: LaneAction): Option<nat> {
    if a.EpPoll? && !l.d2f.Empty() && l.d2f.Head().Data? && l.d2f.Head().kind.Request? then Some(l.d2f.Head().kind.to)
    else None
  }

  /** A WQE for no endpoint, or for the one it comes from, is an exception. */
  predicate Routable(s: System, i: nat, to: Option<nat>) { to.Some? ==> to.value < |s.lanes| && to.value != i }

  /** An endpoint that is prepared and owns nothing. */
  predicate DrainedEnd(e: Endpoint) { e.targets == 0 && !e.partial && e.outgoing.Empty() && e.prepared }

  /** Nothing is left to drain. */
  predicate Quiescent(s: System) {
    |s.lanes| > 0 && s.tasks == map[] && forall i :: 0 <= i < |s.lanes| ==> DrainedEnd(s.lanes[i].ep)
  }

  /** The endpoints were prepared for the same fence, and it leads to the other state. */
  predicate Agreed(s: System)
    requires |s.lanes| > 0
  {
    && (forall i :: 0 <= i < |s.lanes| ==> s.lanes[i].ep.fence == s.lanes[0].ep.fence)
    && s.lanes[0].ep.fence.target != s.active
  }

  predicate ReadyToCommit(s: System) { Quiescent(s) && Agreed(s) }

  function Committed(l: Lane, f: Fence): Lane {
    l.(f2d := l.f2d.Push(Commit(f)), ep := l.ep.(prepared := false))
  }

  function Apply(s: System, a: Action): Option<System> {
    match a
    case On(i, la) =>
      if i >= |s.lanes| || !Belongs(s, i, la) then None
      else
        var r, to := LaneApply(s.lanes[i], la, |s.commits|), Submits(s.lanes[i], la);
        if r.None? || !Routable(s, i, to) then None
        else if to.None? then Some(s.(lanes := s.lanes[i := r.value]))
        else Some(s.(lanes := s.lanes[i := r.value], nextTask := s.nextTask + 1,
                     tasks := s.tasks[s.nextTask := Task(i, to.value, |s.commits|)]))
    case FinishTask(t) =>
      if t !in s.tasks then None else Some(s.(tasks := s.tasks - {t}, ended := s.ended[t := s.tasks[t]]))
    case CommitPass(reached) =>
      if !ReadyToCommit(s) then None
      else
        var f := s.lanes[0].ep.fence;
        if forall i :: 0 <= i < |s.lanes| ==> i in reached then
          Some(s.(lanes := seq(|s.lanes|, i requires 0 <= i < |s.lanes| => Committed(s.lanes[i], f)),
                  active := f.target, commits := s.commits + [f]))
        else
          Some(s.(lanes := seq(|s.lanes|, i requires 0 <= i < |s.lanes| =>
                    if i in reached then s.lanes[i].(f2d := s.lanes[i].f2d.Push(Commit(f))) else s.lanes[i])))
  }

  const INITIAL_LANE: Lane :=
    var none := Fence(0, false);
    var ring := Ring([], 0);
    Lane(Host(false, [], []), ring, ring,
         Device(0, 0, 0, 0, false, Ring([], 0), false, false, none, false, none, false, none, false, []),
         ring, ring, Endpoint(Ring([], 0), 0, false, false, none))

  function Initial(n: nat): System {
    System(map[], map[], 0, false, [], seq(n, _ => INITIAL_LANE))
  }

  /** A commit pass that gets ring space for every endpoint or for none. */
  predicate AllOrNone(s: System, a: Action) {
    a.CommitPass? ==>
      || (forall i :: 0 <= i < |s.lanes| ==> i in a.reached)
      || (forall i :: 0 <= i < |s.lanes| ==> i !in a.reached)
  }

  /** The system after a run of `n` lanes; `None` if some step of it is not possible. */
  function Exec(n: nat, acts: seq<Action>): Option<System> {
    if acts == [] then Some(Initial(n))
    else
      var before := Exec(n, acts[..|acts| - 1]);
      if before.None? then None else Apply(before.value, acts[|acts| - 1])
  }

  predicate AllOrNoneRun(n: nat, acts: seq<Action>) {
    acts != [] ==>
      var before := Exec(n, acts[..|acts| - 1]);
      && AllOrNoneRun(n, acts[..|acts| - 1])
      && (before.Some? ==> AllOrNone(before.value, acts[|acts| - 1]))
  }

  // ------------------------------------------------------------------ exceptions

  /** The device process raises an exception in this step: a DMA answer nobody waits for, a PREPARE that is repeated
      or no newer, a COMMIT that is not for the fence it forwarded, or a fence it cannot carry out. */
  predicate DeviceRaises(l: Lane, a: LaneAction) {
    match a
    case DevPollHost => !l.h2d.Empty() && Hears(l.dev, l.h2d.Head()).None?
    case DevPollNet => !l.dev.commitSeen && !l.f2d.Empty() && Gets(l.dev, l.f2d.Head()).None?
    case DevCommit =>
      && l.dev.forwarded && l.dev.commitSeen && Idle(l.dev)
      && (l.dev.seen != l.dev.fence || l.dev.fence.target == l.dev.active)
    case _ => false
  }

  /** Some process raises an exception in this step; for the fabric, an answer nobody waits for, or endpoints prepared
      for different fences or for the state they are in.  `Routable` is not looked at: the guest names the target. */
  predicate Raises(s: System, a: Action) {
    match a
    case On(i, la) =>
      i < |s.lanes|
      && (DeviceRaises(s.lanes[i], la)
          || (la.EpPoll? && !s.lanes[i].d2f.Empty() && Takes(s.lanes[i].ep, s.lanes[i].d2f.Head()).None?))
    case CommitPass(_) => Quiescent(s) && !Agreed(s)
    case FinishTask(_) => false
  }

  // ------------------------------------------------------------------ what the theorems speak of

  /** The frame a step takes out of a ring, with the number of fences its receiver has committed. */
  function Taken(s: System, a: Action): Option<(Msg, nat)> {
    if !a.On? || a.lane >= |s.lanes| then None
    else
      var l := s.lanes[a.lane];
      match a.a
      case HostPoll => if l.d2h.Empty() then None else Some((l.d2h.Head(), |l.host.commits|))
      case DevPollHost => if l.h2d.Empty() then None else Some((l.h2d.Head(), |l.dev.commits|))
      case DevPollNet => if l.f2d.Empty() then None else Some((l.f2d.Head(), |l.dev.commits|))
      case EpPoll => if l.d2f.Empty() then None else Some((l.d2f.Head(), |s.commits|))
      case _ => None
  }

  /** A frame of one epoch is processed in another. */
  predicate Crosses(s: System, a: Action) {
    var t := Taken(s, a);
    t.Some? && t.value.0.Data? && t.value.0.epoch != t.value.1
  }

  /** No frame of epoch `e` or older is still in the ring. */
  predicate Drained(q: Ring<Msg>, e: nat) {
    forall i :: q.read <= i < |q.items| && q.items[i].Data? ==> q.items[i].epoch > e
  }

  /** Whoever commits a fence in this step has taken in every frame of the epoch it closes. */
  predicate ClosesCleanly(s: System, a: Action) {
    match a
    case On(i, la) =>
      i < |s.lanes| ==>
        var l := s.lanes[i];
        && (la.DevCommit? ==> Drained(l.h2d, |l.dev.commits|) && Drained(l.f2d, |l.dev.commits|))
        && (la.HostPoll? && !l.d2h.Empty() && l.d2h.Head().Commit? ==> Drained(l.d2h.Pop(), |l.host.commits|))
    case FinishTask(_) => true
    case CommitPass(_) => forall i :: 0 <= i < |s.lanes| ==> Drained(s.lanes[i].d2f, |s.commits|)
  }

  predicate Increasing(fs: seq<Fence>) {
    forall i :: 0 < i < |fs| ==> fs[i - 1].generation < fs[i].generation
  }

  predicate Alternating(fs: seq<Fence>) {
    (fs != [] ==> fs[0].target) && forall i :: 0 < i < |fs| ==> fs[i].target != fs[i - 1].target
  }

  predicate IsPrefix(a: seq<Fence>, b: seq<Fence>) { |a| <= |b| && a == b[..|a|] }

  /** All participants commit the fabric's fences in its order, each at most one behind, and no
      fence before every host announced it. */
  predicate Agreement(s: System) {
    && Increasing(s.commits) && Alternating(s.commits)
    && forall i :: 0 <= i < |s.lanes| ==>
         var l := s.lanes[i];
         && IsPrefix(l.dev.commits, s.commits) && |s.commits| <= |l.dev.commits| + 1
         && IsPrefix(l.host.commits, l.dev.commits) && |l.dev.commits| <= |l.host.commits| + 1
         && IsPrefix(s.commits, l.host.prepares)
  }
}
