/** One guest WRITE from end to end: the native transport cuts it into segments, the target device writes each to its
    memory and answers, the adapter returns the acknowledgements in whatever order they complete, and the device
    completes the request with the last of them, or with the report of a failure.

    The environment is the native transport, which sends segments in order, has each executed and completed at most
    once and ends the request once, with success when all segments are completed and with failure at any time before;
    and the target's DMA, which may fail and then leaves the memory as it was. */
module WritePath {
  import opened Optional
  import opened Words
  import opened Rma
  import opened RmaProof
  import opened Native
  import R = ReadPath

  /** A WRITE: `r.contents` is what it carries and `r.before` what the target's memory held; the transport cuts it into
      segments of `cut` bytes. */
  datatype Job = Job(r: R.Request, cut: seq<u32>)

  /** Bytes before segment `k`. */
  function Offset(cut: seq<u32>, k: nat): nat
    requires k <= |cut|
  {
    if k == 0 then 0 else Offset(cut, k - 1) + cut[k - 1]
  }

  predicate Cuts(w: Job) {
    (forall k :: 0 <= k < |w.cut| ==> w.cut[k] > 0) && Offset(w.cut, |w.cut|) == w.r.length
  }

  /** What the send queue lets through; it does not look at the remote address. */
  predicate Wired(w: Job) { 0 < w.r.length == |w.r.contents| && w.r.from < |w.r.net| && Cuts(w) }

  predicate Posted(w: Job) { Wired(w) && Distinct(w.r.net) }

  lemma {:induction false} Before(cut: seq<u32>, k: nat, n: nat)
    requires k < n <= |cut|
    ensures Offset(cut, k) + cut[k] == Offset(cut, k + 1) <= Offset(cut, n)
  {
    if k + 1 < n {
      Before(cut, k, n - 1);
    }
  }

  /** The offset of a segment. */
  function At(w: Job, k: nat): (o: u32)
    requires Wired(w) && k < |w.cut|
    ensures o == Offset(w.cut, k) && o + w.cut[k] <= w.r.length
  {
    Before(w.cut, k, |w.cut|);
    Offset(w.cut, k)
  }

  function Slice(w: Job, k: nat): (bytes: seq<u8>)
    requires Wired(w) && k < |w.cut|
    ensures |bytes| == w.cut[k]
  {
    w.r.contents[At(w, k)..At(w, k) + w.cut[k]]
  }

  function WorkOf(w: Job): Work {
    Work(WRITE, w.r.jetty, w.r.peer, w.r.tpn, w.r.token, w.r.id, w.r.remote, w.r.length)
  }

  /** The packet the native network makes of segment `k`. */
  function PacketOf(w: Job, k: nat): Packet
    requires Wired(w) && k < |w.cut|
  {
    Packet(w.r.net[w.r.from].node, w.r.net[R.To(w.r)].node, w.r.task, WRITE, R.Ssn(w.r, k), At(w, k), w.cut[k],
           (w.r.remote + At(w, k)) % 0x1_0000_0000_0000_0000, w.r.token,
           Some(Context(w.r.task, R.SourceEid(w.r), w.r.remoteEid, WorkOf(w))))
  }

  /** How far the native transport is with a segment; `Faulted` is one whose DMA failed. */
  datatype Stage = Sent | Executing | Written | Faulted | Answered

  datatype Path = Path(
    submitted: bool, task: Task, ended: bool, targets: map<TargetKey, Target>, stage: seq<Stage>, order: seq<nat>,
    replies: seq<Reply>, arrived: nat, device: Transfer, completed: Option<int>, errors: nat, memory: int -> u8)

  datatype Event = Submit | Send | Execute(k: nat) | Serve(k: nat, ok: bool) | Return(k: nat) | Finish | Arrive

  function Fresh(w: Job): Path {
    Path(false, Task(w.r.from, R.To(w.r), WorkOf(w), 0, map[]), false, map[], [], [], [], 0,
         Transfer(Pending(WRITE, w.r.jetty, w.r.length, 0, 0, 0, 0, 0, false, map[], []), []), None, 0, w.r.before)
  }

  predicate AllAnswered(w: Job, s: Path) {
    |s.stage| == |w.cut| && forall k :: 0 <= k < |s.stage| ==> s.stage[k] == Answered
  }

  /** What the environment may do next. */
  predicate Legal(w: Job, s: Path, e: Event) {
    match e
    case Submit => !s.submitted
    case Send => s.submitted && !s.ended && |s.stage| < |w.cut|
    case Execute(k) => k < |s.stage| && s.stage[k] == Sent
    case Serve(k, _) => k < |s.stage| && s.stage[k] == Executing
    case Return(k) => !s.ended && k < |s.stage| && s.stage[k] == Written
    case Finish => s.submitted && !s.ended
    case Arrive => s.arrived < |s.replies|
  }

  /** The steps of the adapter; `None` is its exception. */
  function Submits(w: Job, s: Path): Option<Path>
    requires Wired(w)
  {
    if R.Enters(w.r) then Some(s.(submitted := true)) else None
  }

  function Sends(w: Job, s: Path): Option<Path>
    requires Wired(w) && s.task.source == w.r.from && |s.stage| < |w.cut|
  {
    var t := SegmentSent(w.r.net, s.task, w.r.net[w.r.from].node, R.Ssn(w.r, |s.stage|), w.cut[|s.stage|]);
    if t.None? then None else Some(s.(task := t.value, stage := s.stage + [Sent]))
  }

  function Executes(w: Job, s: Path, k: nat): Option<Path>
    requires Wired(w) && k < |w.cut| && k < |s.stage|
  {
    var ts := TargetExecuted(w.r.net, s.targets, R.To(w.r), PacketOf(w, k));
    if ts.None? then None else Some(s.(targets := ts.value, stage := s.stage[k := Executing]))
  }

  /** The target device writes what it was handed, where it was told to, if it looks at it.  The request may have ended
      in the meantime. */
  function Serves(w: Job, s: Path, k: nat, ok: bool): Option<Path>
    requires Wired(w) && k < |w.cut| && k < |s.stage|
  {
    if R.Key(w.r, k) !in s.targets then None
    else
      var x := s.targets[R.Key(w.r, k)];
      var a := WriteAnswer(x, Low16(R.Ssn(w.r, k)), |Slice(w, k)|, ok);
      if a.None? then Some(s)
      else
        var done := TargetCompleted(w.r.net, s.targets, R.To(w.r), if s.ended then None else Some(s.task), a.value);
        if done.None? then None
        else
          Some(s.(targets := done.value.0, task := if done.value.1.Some? then done.value.1.value else s.task,
                  stage := s.stage[k := if ok then Written else Faulted],
                  memory := if ok then R.Patched(s.memory, x.part.remote, Slice(w, k)) else s.memory))
  }

  function Returns(w: Job, s: Path, k: nat): Option<Path>
    requires Wired(w) && s.task.source == w.r.from && k < |s.stage|
  {
    var done := SegmentCompleted(w.r.net, s.task, w.r.net[w.r.from].node, R.Ssn(w.r, k));
    if done.None? || done.value.1.None? then None
    else Some(s.(task := done.value.0, replies := s.replies + [ReplyTo(done.value.0, done.value.1.value)],
                 stage := s.stage[k := Answered], order := s.order + [k]))
  }

  /** `OnNativeWqeTerminal`: the guest hears of a failure. */
  function Finishes(w: Job, s: Path): Path {
    s.(ended := true, replies := s.replies + if AllAnswered(w, s) then [] else [ErrorTo(s.task)])
  }

  /** `Receive` at the device a frame is addressed to; it knows its requests by their numbers. */
  function Arrives(w: Job, s: Path): Path
    requires s.arrived < |s.replies|
  {
    var x, p, s' := s.replies[s.arrived], s.device.p, s.(arrived := s.arrived + 1);
    if x.endpoint != w.r.from then s'
    else if x.request != w.r.id || s.completed.Some? then s'.(errors := s.errors + 1)
    else if x.operation == RMA_ERROR then
      s'.(device := s.device.(p := p.(failed := true)),
          completed := if p.responseDma == 0 then Some(REMOTE_FAILED) else None)
    else if x.operation != WRITE_ACK || !AckAcceptable(p, x.response) then s'.(errors := s.errors + 1)
    else
      var device := Acknowledge(s.device, x.response);
      s'.(device := device, completed := if device.p.completedBytes == device.p.byteCount then Some(SUCCESS) else None)
  }

  predicate Standing(w: Job, s: Path) { |s.stage| <= |w.cut| && s.task.source == w.r.from }

  function Step(w: Job, s: Path, e: Event): (s': Option<Path>)
    requires Wired(w) && Standing(w, s) && Legal(w, s, e)
    ensures s'.Some? ==> Standing(w, s'.value)
  {
    match e
    case Submit => Submits(w, s)
    case Send => Sends(w, s)
    case Execute(k) => Executes(w, s, k)
    case Serve(k, ok) => Serves(w, s, k, ok)
    case Return(k) => Returns(w, s, k)
    case Finish => Some(Finishes(w, s))
    case Arrive => Some(Arrives(w, s))
  }

  datatype Fate = Now(s: Path) | Forbidden | Thrown

  function Run(w: Job, es: seq<Event>): (o: Fate)
    requires Wired(w)
    ensures o.Now? ==> Standing(w, o.s)
  {
    if es == [] then Now(Fresh(w))
    else
      var o := Run(w, es[..|es| - 1]);
      if !o.Now? then o
      else if !Legal(w, o.s, es[|es| - 1]) then Forbidden
      else
        var s' := Step(w, o.s, es[|es| - 1]);
        if s'.None? then Thrown else Now(s'.value)
  }

  /** The acknowledgement of segment `k` has arrived. */
  ghost predicate Acked(s: Path, k: nat) { exists i :: AckedBy(s, i, k) }

  predicate AckedBy(s: Path, i: nat, k: nat) { i < |s.order| && i < s.arrived && s.order[i] == k }

  /** The report of a failure has arrived. */
  predicate Reported(s: Path) { s.arrived > |s.order| }

  /** Byte `b` of the WRITE belongs to a segment that the target has written. */
  ghost predicate Reached(w: Job, s: Path, b: int) { exists k :: ReachedBy(w, s, k, b) }

  predicate ReachedBy(w: Job, s: Path, k: nat, b: int) {
    && k < |s.stage| && k < |w.cut| && (s.stage[k] == Written || s.stage[k] == Answered)
    && Offset(w.cut, k) <= b < Offset(w.cut, k) + w.cut[k]
  }
}
