/** One guest READ from end to end: the native transport segments it, the target device answers each
    segment, the adapter returns the answers in whatever order they complete, and the requesting
    device writes them to guest memory, again in any order.

    The environment is the native transport (it takes the request; segments are sent in order, each executed and
    completed once), the target's memory, which does not change, and DMA writes that succeed. */
module ReadPath {
  import opened Optional
  import opened Words
  import opened Rma
  import opened RmaProof
  import opened Native

  /** The order field of a WQE has two bits, an index into the entity ids of a device ten. */
  type Order = x: nat | x < 4

  type EidIndex = x: nat | x < 0x400

  /** A READ by endpoint `from`, under the entity id of index `index`, of the endpoint with entity id `remoteEid`,
      from port `port` of a fabric with `ports` ports.  `first` is the number of its first segment, `contents` what
      the target's memory holds and `before` what the guest's memory held. */
  datatype Request = Request(
    net: seq<Endpoint>, ports: nat, from: nat, index: EidIndex, remoteEid: u32, port: u16, order: Order,
    task: u32, jetty: u32, peer: u32, tpn: u32, token: u32, id: u64,
    length: u32, first: u32, address: u64, remote: u64, contents: seq<u8>, before: int -> u8)

  /** What the send queue lets through: neither address is zero, and there is something to read.  It looks at
      neither extent, nor at the order, the entity ids or the number of the jetty. */
  ghost predicate Posted(r: Request) {
    0 < r.length == |r.contents| && r.remote != 0 && r.address != 0 && Distinct(r.net) && r.from < |r.net|
  }

  /** `source_eid` of the frame. */
  function SourceEid(r: Request): u32
    requires r.from < |r.net|
  {
    (r.net[r.from].eid + r.index * 0x1_0000) % 0x1_0000_0000
  }

  /** The endpoint the request is for, if the fabric knows one. */
  function To(r: Request): (to: nat)
    ensures r.net != [] ==> to < |r.net|
  {
    if ByEid(r.net, r.remoteEid).Some? then ByEid(r.net, r.remoteEid).value else 0
  }

  /** `PollOne` takes a frame that comes from the endpoint it names, through a port there is, for another endpoint. */
  predicate Ingress(r: Request)
    requires r.from < |r.net|
  {
    && r.port < r.ports && SourceEid(r) == r.net[r.from].eid
    && ByEid(r.net, r.remoteEid).Some? && ByEid(r.net, r.remoteEid).value != r.from
  }

  /** `AcceptWqeChunk` and `SubmitNativeWqe`: the order is one of three, and the jetty has 20 bits. */
  predicate Submittable(r: Request) { r.order <= 2 && r.jetty <= 0xF_FFFF }

  /** The fabric takes the request up. */
  predicate Enters(r: Request)
    requires r.from < |r.net|
  {
    Ingress(r) && Submittable(r)
  }

  /** The remote extent, or the buffer, ends inside the address space. */
  predicate RemoteFits(r: Request) { r.remote + r.length - 1 <= LAST64 }

  predicate BufferFits(r: Request) { r.address + r.length - 1 <= LAST64 }

  function WorkOf(r: Request): Work { Work(READ, r.jetty, r.peer, r.tpn, r.token, r.id, r.remote, r.length) }

  /** The packet the native network makes of segment `k`: it keeps the association data, and its own header
      says what the request says. */
  function PacketOf(r: Request, k: nat): Packet
    requires r.from < |r.net| && k < Count(r.length)
  {
    Packet(r.net[r.from].node, r.net[To(r)].node, r.task, READ, Ssn(r, k), Start(k), Size(r.length, k),
           (r.remote + Start(k)) % 0x1_0000_0000_0000_0000, r.token,
           Some(Context(r.task, SourceEid(r), r.remoteEid, WorkOf(r))))
  }

  predicate Wired(r: Request) { |r.contents| == r.length && r.from < |r.net| }

  /** How far the native transport is with a segment. */
  datatype Stage = Sent | Executing | Served | Answered

  datatype Path = Path(
    submitted: bool, task: Task, targets: map<TargetKey, Target>, replies: seq<Reply>, arrived: nat,
    device: Transfer, completed: Option<int>, errors: nat, memory: int -> u8,
    stage: seq<Stage>, order: seq<nat>)

  datatype Event = Submit | Send | Execute(k: nat) | Serve(k: nat) | Return(k: nat) | Arrive | Place(i: nat)

  function Count(length: u32): nat { (length + 4095) / 4096 }

  function Start(k: nat): nat { 4096 * k }

  function Size(length: u32, k: nat): u32
    requires k < Count(length)
  {
    Min(MTU, length - Start(k))
  }

  function Slice(r: Request, k: nat): seq<u8>
    requires |r.contents| == r.length && k < Count(r.length)
  {
    r.contents[Start(k)..Start(k) + Size(r.length, k)]
  }

  /** Sequence numbers of one connection are consecutive. */
  function Ssn(r: Request, k: nat): u32 { (r.first + k) % 0x1_0000_0000 }

  function Key(r: Request, k: nat): TargetKey { TargetKey(r.from, r.id, Low16(Ssn(r, k))) }

  function Fresh(r: Request): Path {
    Path(false, Task(r.from, To(r), WorkOf(r), 0, map[]), map[], [], 0,
         Transfer(Pending(READ, 0, r.length, 0, r.address, 0, 0, 0, false, map[], []), []),
         None, 0, r.before, [], [])
  }

  ghost predicate Reading(t: Transfer) { Wellformed(t) && t.p.opcode == READ }

  /** What the environment may do next. */
  predicate Legal(r: Request, s: Path, e: Event) {
    match e
    case Submit => !s.submitted
    case Send => s.submitted && |s.stage| < Count(r.length)
    case Execute(k) => k < |s.stage| && s.stage[k] == Sent
    case Serve(k) => k < |s.stage| && s.stage[k] == Executing
    case Return(k) => k < |s.stage| && s.stage[k] == Served
    case Arrive => s.arrived < |s.replies|
    case Place(i) => i < |s.device.writes| && s.device.writes[i].outcome == InFlight
  }

  function Patched(memory: int -> u8, address: int, bytes: seq<u8>): int -> u8 {
    a => if 0 <= a - address < |bytes| then bytes[a - address] else memory(a)
  }

  /** `Receive` at the device the reply is addressed to.  The device knows its requests by their numbers and looks at
      the operation; a response to another request, or any other frame, is an error of that device. */
  predicate Concerns(r: Request, x: Reply) { x.operation == READ_RESPONSE && x.request == r.id }

  /** A reply that is addressed to another endpoint does not reach this device. */
  function Arrived(r: Request, s: Path): Path
    requires s.arrived < |s.replies|
    requires Acceptable(s.device.p, s.replies[s.arrived].response) ==>
               0 <= s.device.p.acceptedBytes + s.replies[s.arrived].response.length < 0x1_0000_0000
  {
    var x := s.replies[s.arrived];
    if x.endpoint != r.from then s.(arrived := s.arrived + 1)
    else if s.completed.Some? || !Concerns(r, x) || !Acceptable(s.device.p, x.response) then
      s.(errors := s.errors + 1, arrived := s.arrived + 1)
    else s.(device := Accept(s.device, x.response), arrived := s.arrived + 1)
  }

  function Landed(s: Path, i: nat): Path
    requires i < |s.device.writes| && s.device.p.responseDma > 0
    requires 0 <= s.device.p.completedBytes + |s.device.writes[i].bytes| < 0x1_0000_0000
  {
    var w := s.device.writes[i];
    var device := Land(s.device, i, true);
    s.(device := device, memory := Patched(s.memory, w.address, w.bytes),
       completed := if Terminal(device.p) then Some(Status(device.p)) else s.completed)
  }

  /** The remaining events belong to the adapter; `None` is its exception. */
  function Submits(r: Request, s: Path): Option<Path>
    requires Wired(r)
  {
    if Enters(r) then Some(s.(submitted := true)) else None
  }

  function Sends(r: Request, s: Path): Option<Path>
    requires Wired(r) && s.task.source == r.from
  {
    var t := SegmentSent(r.net, s.task, r.net[r.from].node, Ssn(r, |s.stage|), 1);
    if t.None? then None else Some(s.(task := t.value, stage := s.stage + [Sent]))
  }

  function Executes(r: Request, s: Path, k: nat): Option<Path>
    requires Wired(r) && k < Count(r.length) && k < |s.stage|
  {
    var ts := TargetExecuted(r.net, s.targets, To(r), PacketOf(r, k));
    if ts.None? then None else Some(s.(targets := ts.value, stage := s.stage[k := Executing]))
  }

  /** The target device answers what it was asked, if it looks at it. */
  function Serves(r: Request, s: Path, k: nat): Option<Path>
    requires Wired(r) && k < Count(r.length) && k < |s.stage|
  {
    if Key(r, k) !in s.targets then None
    else
      var a := ReadAnswer(s.targets[Key(r, k)], Low16(Ssn(r, k)), true, Slice(r, k));
      if a.None? then Some(s)
      else
        var done := TargetCompleted(r.net, s.targets, To(r), Some(s.task), a.value);
        if done.None? then None
        else Some(s.(targets := done.value.0, task := done.value.1.value, stage := s.stage[k := Served]))
  }

  function Returns(r: Request, s: Path, k: nat): Option<Path>
    requires Wired(r) && s.task.source == r.from && k < |s.stage|
  {
    var done := SegmentCompleted(r.net, s.task, r.net[r.from].node, Ssn(r, k));
    if done.None? || done.value.1.None? then None
    else Some(s.(task := done.value.0, replies := s.replies + [ReplyTo(done.value.0, done.value.1.value)],
                 stage := s.stage[k := Answered], order := s.order + [k]))
  }

  /** What a step relies on. */
  ghost predicate Standing(r: Request, s: Path) {
    Reading(s.device) && |s.stage| <= Count(r.length) && s.task.source == r.from
  }

  lemma ArriveStands(r: Request, s: Path)
    requires Standing(r, s) && s.arrived < |s.replies|
    ensures Acceptable(s.device.p, s.replies[s.arrived].response) ==>
              s.device.p.acceptedBytes + s.replies[s.arrived].response.length < 0x1_0000_0000
    ensures Standing(r, Arrived(r, s))
  {
    if Acceptable(s.device.p, s.replies[s.arrived].response) {
      AcceptKeeps(s.device, s.replies[s.arrived].response);
    }
    hide Wellformed, Acceptable, FitsBetween;
  }

  lemma PlaceStands(r: Request, s: Path, i: nat)
    requires Standing(r, s) && i < |s.device.writes| && s.device.writes[i].outcome == InFlight
    ensures s.device.p.responseDma > 0
    ensures s.device.p.completedBytes + |s.device.writes[i].bytes| < 0x1_0000_0000
    ensures Standing(r, Landed(s, i))
  {
    LandKeeps(s.device, i, s.device.writes[i].ssn, true);
    hide Wellformed, Terminal, Status;
  }

  ghost function Step(r: Request, s: Path, e: Event): (s': Option<Path>)
    requires Wired(r) && Standing(r, s) && Legal(r, s, e)
    ensures s'.Some? ==> Standing(r, s'.value)
  {
    match e
    case Submit => Submits(r, s)
    case Send => Sends(r, s)
    case Execute(k) => Executes(r, s, k)
    case Serve(k) => Serves(r, s, k)
    case Return(k) => Returns(r, s, k)
    case Arrive =>
      ArriveStands(r, s);
      Some(Arrived(r, s))
    case Place(i) =>
      PlaceStands(r, s, i);
      Some(Landed(s, i))
  }

  /** What becomes of a schedule. */
  datatype Fate = At(s: Path) | Forbidden | Thrown

  ghost function Run(r: Request, es: seq<Event>): (o: Fate)
    requires Wired(r)
    ensures o.At? ==> Standing(r, o.s)
  {
    if es == [] then
      assert Bytes([], {Placed}, 0) == 0;
      At(Fresh(r))
    else
      var o := Run(r, es[..|es| - 1]);
      if !o.At? then o
      else if !Legal(r, o.s, es[|es| - 1]) then Forbidden
      else
        var s' := Step(r, o.s, es[|es| - 1]);
        if s'.None? then Thrown else At(s'.value)
  }

  /** Segment `k` has reached guest memory. */
  ghost predicate Delivered(s: Path, k: nat) { exists i :: DeliveredBy(s, i, k) }

  ghost predicate DeliveredBy(s: Path, i: nat, k: nat) {
    i < |s.device.writes| && i < |s.order| && s.order[i] == k && s.device.writes[i].outcome == Placed
  }

  /** All that holds between events of a request whose sequence numbers do not repeat. */
  ghost predicate Faithful(r: Request, s: Path) {
    && s.errors == 0
    && (s.completed.Some? <==> forall k: nat :: k < Count(r.length) ==> Delivered(s, k))
    && (s.completed.Some? ==> s.completed.value == SUCCESS)
    && (forall a: int :: s.memory(a) == Expected(r, s, a))
  }

  /** Bytes of delivered segments are the remote ones; nothing else of the memory has changed. */
  ghost function Expected(r: Request, s: Path, a: int): u8 {
    if 0 <= a - r.address < |r.contents| && Delivered(s, (a - r.address) / 4096) then r.contents[a - r.address]
    else r.before(a)
  }
}
