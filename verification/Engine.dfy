/** The completion engine: publication queues, notification slots, event queues and deferred destroys.

    Every callback may run synchronously inside the call that caused it or at any later time, and it
    may re-enter the engine.  So the program counter of the work pump and of the event dispatcher are
    part of the state, what a callback has still to do after a re-entrant call is a debt recorded in
    the state, and the environment may let any debt, callback or loop go on next.  Every re-entrant
    execution of the program is one of these interleavings. */
module Engine {
  import opened Cq
  import opened Optional
  import opened Words

  const WORD: nat := 0x1_0000_0000
  const REPORT: nat := 0x100_0000

  datatype Config = Config(pipelined: bool, slots: nat, oneShot: bool)

  /** `Finishing(true)`: the caller's callback runs and the notification slot is still to be released. */
  datatype Flight = Reading | Writing | Finishing(slot: bool)

  /** One entry of `jfc_publications_`.  The reservation of a publication is its name in `flights`. */
  datatype Publications = Publications(pending: nat, running: bool, inFlight: nat, flights: map<nat, Flight>)

  datatype Event = Event(jfc: u32, ceq: u32, slot: nat)

  /** The event being delivered: its entry is written, then its interrupt is raised. */
  datatype Active = Active(event: Event, writing: bool)

  /** An event queue; both counters wrap at 32 bits. */
  datatype Ceq = Ceq(depth: u32, producer: u32, consumer: u32, early: Option<u32>, fault: bool)

  /** Who has to release a reserved notification slot: a publication, a queued or active event, or a
      callback that is about to call `ReleaseCompletionEventSlot`. */
  datatype Owner = Publication(jfc: u32) | Notification | Leaving

  datatype Pump =
    | Idle
    | Start
    | Expiring(timers: seq<u32>)
    | Gather
    | Visiting(ids: seq<u32>)
    | Admitting(id: u32, ids: seq<u32>, more: bool)

  /** A command that waits for a context, or for the consumer index of a query. */
  datatype Load = NewCeq(id: u32) | NewJfc(id: u32) | Query(id: u32) | Modify(id: u32)

  /** A send or receive queue whose destroy is parked. */
  datatype Drain = Jfs(id: u32) | Jfr(id: u32)

  /** The command queue: its busy flag, and how many callbacks are outstanding for a descriptor to arrive, for
      other DMA of a command and for its answer to be written; and the destroys parked for other resources. */
  datatype Ring = Ring(busy: bool, fetching: nat, working: nat, answering: nat, parkedAeq: bool,
                       parkedQueue: Option<Drain>)

  const IDLE := Ring(false, 0, 0, 0, false, None)

  datatype Queues = Queues(jfcs: map<u32, Jfc>, ceqOf: map<u32, u32>, armed: set<u32>, pubs: map<u32, Publications>)

  /** The notification slots. */
  datatype Pool = Pool(inUse: nat, owners: map<nat, Owner>, nextSlot: nat)

  datatype Work = Work(pump: Pump, kick: bool, last: Option<u32>)

  datatype Events = Events(queue: seq<Event>, active: Option<Active>, dispatching: bool, ceqs: map<u32, Ceq>)

  datatype Commands = Commands(parkedCeq: Option<u32>, parkedJfc: Option<u32>, load: Option<Load>, ring: Ring)

  /** Calls that suspended callbacks have still to make: for the next event and for parked destroys. */
  datatype Debts = Debts(owed: nat, checksCeq: nat, checksJfc: nat)

  /** Never looked at by the engine: events in the order accepted and delivered. */
  datatype History = History(accepted: seq<Event>, dispatched: seq<Event>)

  datatype Engine = Engine(config: Config, now: nat, q: Queues, pool: Pool, work: Work, ev: Events,
                           cmd: Commands, debt: Debts, log: History)

  // ------------------------------------------------------------------ queries

  predicate Publishing(p: Publications) { p.running || p.inFlight != 0 || p.pending != 0 }

  predicate PubBusy(s: Engine, id: u32) { id in s.q.pubs && Publishing(s.q.pubs[id]) }

  predicate TimerBusy(s: Engine, id: u32) { id in s.q.jfcs && Timed(s.q.jfcs[id]) }

  /** `JfcPublicationBusy`. */
  predicate JfcBusy(s: Engine, id: u32) {
    || TimerBusy(s, id)
    || (s.ev.active.Some? && s.ev.active.value.event.jfc == id)
    || (exists i :: 0 <= i < |s.ev.queue| && s.ev.queue[i].jfc == id)
    || PubBusy(s, id)
  }

  predicate QueueOnCeq(s: Engine, jfc: u32, id: u32) {
    jfc in s.q.ceqOf && s.q.ceqOf[jfc] == id && (PubBusy(s, jfc) || TimerBusy(s, jfc))
  }

  /** `CeqBusy`. */
  ghost predicate CeqBusy(s: Engine, id: u32) {
    || (exists jfc :: QueueOnCeq(s, jfc, id))
    || (s.ev.active.Some? && s.ev.active.value.event.ceq == id)
    || (exists i :: 0 <= i < |s.ev.queue| && s.ev.queue[i].ceq == id)
  }

  function Outstanding(c: Ceq): nat { (c.producer - c.consumer) % WORD }

  predicate Eligible(ceqs: map<u32, Ceq>, e: Event) {
    e.ceq !in ceqs || (!ceqs[e.ceq].fault && Outstanding(ceqs[e.ceq]) < ceqs[e.ceq].depth)
  }

  /** `std::find_if` over the queued events. */
  function FirstEligible(ceqs: map<u32, Ceq>, events: seq<Event>, from: nat): (i: nat)
    requires from <= |events|
    ensures from <= i <= |events|
    ensures forall j :: from <= j < i ==> !Eligible(ceqs, events[j])
    ensures i < |events| ==> Eligible(ceqs, events[i])
    decreases |events| - from
  {
    if from == |events| || Eligible(ceqs, events[from]) then from else FirstEligible(ceqs, events, from + 1)
  }

  /** Why a JFC with pending publications is not admitted now. */
  predicate Blocked(s: Engine, id: u32)
    requires id in s.q.pubs
  {
    || s.pool.inUse >= s.config.slots
    || (!s.config.pipelined && s.q.pubs[id].running)
    || (s.config.pipelined
        && (id !in s.q.jfcs || (Held(s.q.jfcs[id]) >= s.q.jfcs[id].depth && s.q.pubs[id].inFlight != 0)))
  }

  /** The queues from the one after the last admitted, ascending, then the rest, ascending. */
  predicate RoundRobin(ids: seq<u32>, last: Option<u32>) {
    forall i, j :: 0 <= i < j < |ids| ==>
      if last.Some? && (ids[i] > last.value) != (ids[j] > last.value) then ids[i] > last.value else ids[i] < ids[j]
  }

  // ------------------------------------------------------------------ pieces shared by the steps

  /** `PumpCompletionWork` as a call: only the outermost one runs the loop. */
  function Kick(s: Engine): Engine {
    s.(work := s.work.(kick := true, pump := if s.work.pump.Idle? then Start else s.work.pump))
  }

  /** `ProcessCompletionEvent` as a call: not while an event is active or the loop runs further out. */
  function Dispatch(s: Engine): Engine {
    if s.ev.active.Some? || s.ev.dispatching then s else s.(ev := s.ev.(dispatching := true))
  }

  /** Work for a resource that is being destroyed is refused. */
  predicate Refused(s: Engine, id: u32) {
    s.cmd.parkedJfc == Some(id) || (s.cmd.parkedCeq.Some? && id in s.q.ceqOf && s.q.ceqOf[id] == s.cmd.parkedCeq.value)
  }

  predicate Silent(s: Engine, id: u32) { (s.config.oneShot && id !in s.q.armed) || id !in s.q.ceqOf }

  /** `EmitCompletionEvent` for the slot `r`. */
  function Emit(s: Engine, id: u32, r: nat): Engine {
    var armed := if s.config.oneShot && id in s.q.armed then s.q.armed - {id} else s.q.armed;
    if Silent(s, id) then s.(q := s.q.(armed := armed), pool := s.pool.(owners := s.pool.owners[r := Leaving]))
    else
      var e := Event(id, s.q.ceqOf[id], r);
      s.(q := s.q.(armed := armed), pool := s.pool.(owners := s.pool.owners[r := Notification]),
         ev := s.ev.(queue := s.ev.queue + [e], dispatching := s.ev.dispatching || s.ev.active.None?),
         log := s.log.(accepted := s.log.accepted + [e]))
  }

  function WithFlight(pubs: map<u32, Publications>, id: u32, r: nat, f: Flight): map<u32, Publications>
    requires id in pubs
  {
    pubs[id := pubs[id].(flights := pubs[id].flights[r := f])]
  }

  /** The rest of `publish`, up to the DMA write it issues. */
  function Publish(s: Engine, id: u32, r: nat, consumer: nat): Engine
    requires id in s.q.pubs && id in s.q.jfcs
  {
    if NoRoom(s.q.jfcs[id], consumer) then s.(q := s.q.(pubs := WithFlight(s.q.pubs, id, r, Finishing(true))))
    else
      s.(q := s.q.(pubs := WithFlight(s.q.pubs, id, r, Writing),
                   jfcs := s.q.jfcs[id := Taken(s.q.jfcs[id], consumer, s.config.pipelined)]))
  }

  /** `WriteCqeNow` up to its first DMA. */
  function Issue(s: Engine, id: u32, r: nat): Engine
    requires id in s.q.pubs
  {
    if id !in s.q.jfcs then s.(q := s.q.(pubs := WithFlight(s.q.pubs, id, r, Finishing(true))))
    else if s.config.pipelined && Held(s.q.jfcs[id]) < s.q.jfcs[id].depth then
      Publish(s, id, r, Masked(s.q.jfcs[id].consumer))
    else s.(q := s.q.(pubs := WithFlight(s.q.pubs, id, r, Reading)))
  }

  // ------------------------------------------------------------------ steps

  function Queue(p: Option<Publications>): Publications {
    if p.Some? then p.value.(pending := p.value.pending + 1) else Publications(1, false, 0, map[])
  }

  function Enqueue(s: Engine, id: u32): Engine {
    Kick(s.(q := s.q.(pubs := s.q.pubs[id := Queue(if id in s.q.pubs then Some(s.q.pubs[id]) else None)])))
  }

  /** `WriteCqe`. */
  function Post(s: Engine, id: u32): Engine { if Refused(s, id) then s else Enqueue(s, id) }

  function Advance(s: Engine, now: nat): Engine {
    if now < s.now then s else Kick(s.(now := now))
  }

  /** The state in which the notification of an expired timer is emitted. */
  function TimerTaken(s: Engine, id: u32): Engine
    requires s.work.pump.Expiring? && s.work.pump.timers != [] && id in s.q.jfcs
  {
    s.(work := s.work.(pump := Expiring(s.work.pump.timers[1..])),
       q := s.q.(jfcs := s.q.jfcs[id := s.q.jfcs[id].(completions := 0, deadline := 0)]),
       pool := s.pool.(inUse := s.pool.inUse + 1, owners := s.pool.owners[s.pool.nextSlot := Leaving],
                       nextSlot := s.pool.nextSlot + 1))
  }

  /** One timer of the snapshot: it reserves a slot for its notification. */
  function Expire(s: Engine): Engine
    requires s.work.pump.Expiring?
  {
    if s.work.pump.timers == [] || s.pool.inUse >= s.config.slots then s.(work := s.work.(pump := Gather))
    else if s.work.pump.timers[0] !in s.q.jfcs then s.(work := s.work.(pump := Expiring(s.work.pump.timers[1..])))
    else Emit(TimerTaken(s, s.work.pump.timers[0]), s.work.pump.timers[0], s.pool.nextSlot)
  }

  /** `ProcessJfcPublications` up to its loop. */
  function Enter(s: Engine): Engine
    requires s.work.pump.Visiting?
  {
    if s.work.pump.ids == [] then s.(work := s.work.(pump := if s.work.kick then Start else Idle))
    else
      var id, ids := s.work.pump.ids[0], s.work.pump.ids[1..];
      var skip := id !in s.q.pubs || (!s.config.pipelined && s.q.pubs[id].running);
      if skip then s.(work := s.work.(pump := Visiting(ids)))
      else s.(work := s.work.(pump := Admitting(id, ids, true)))
  }

  function Admitted(p: Publications, pipelined: bool): Publications
    requires p.pending > 0
  {
    if pipelined then p.(pending := p.pending - 1, inFlight := p.inFlight + 1)
    else p.(pending := p.pending - 1, running := true)
  }

  /** The state in which `issue` is called for the oldest pending publication. */
  function Reserving(s: Engine, id: u32, ids: seq<u32>): Engine
    requires id in s.q.pubs && s.q.pubs[id].pending > 0
  {
    s.(q := s.q.(pubs := s.q.pubs[id := Admitted(s.q.pubs[id], s.config.pipelined)]),
       pool := s.pool.(inUse := s.pool.inUse + 1, owners := s.pool.owners[s.pool.nextSlot := Publication(id)],
                       nextSlot := s.pool.nextSlot + 1),
       work := s.work.(last := Some(id), pump := Admitting(id, ids, s.config.pipelined)))
  }

  /** A queue with nothing left is erased, and parked destroys are looked at. */
  function Retire(s: Engine, id: u32, ids: seq<u32>): Engine {
    s.(q := s.q.(pubs := s.q.pubs - {id}), work := s.work.(pump := Visiting(ids)),
       debt := s.debt.(checksCeq := s.debt.checksCeq + 1, checksJfc := s.debt.checksJfc + 1))
  }

  predicate Admits(s: Engine, id: u32) { id in s.q.pubs && s.q.pubs[id].pending > 0 && !Blocked(s, id) }

  /** One round of the admission loop, or what follows it. */
  function Admit(s: Engine): Engine
    requires s.work.pump.Admitting?
  {
    var id, ids := s.work.pump.id, s.work.pump.ids;
    if s.work.pump.more && Admits(s, id) then Issue(Reserving(s, id, ids), id, s.pool.nextSlot)
    else if id in s.q.pubs && !Publishing(s.q.pubs[id]) then Retire(s, id, ids)
    else s.(work := s.work.(pump := Visiting(ids)))
  }

  function ReadDone(s: Engine, id: u32, r: nat, ok: bool, value: u32): Engine
    requires id in s.q.pubs
  {
    if !ok || id !in s.q.jfcs then s.(q := s.q.(pubs := WithFlight(s.q.pubs, id, r, Finishing(true))))
    else Publish(s, id, r, Masked(value))
  }

  function WriteDone(s: Engine, id: u32, r: nat, ok: bool): Engine
    requires id in s.q.pubs
  {
    if id !in s.q.jfcs || (s.config.pipelined && s.q.jfcs[id].writing == 0) then
      s.(q := s.q.(pubs := WithFlight(s.q.pubs, id, r, Finishing(true))))
    else
      var (j, verdict) := Committed(s.q.jfcs[id], s.config.pipelined, ok, s.now);
      if verdict.Due? then
        Emit(s.(q := s.q.(jfcs := s.q.jfcs[id := j], pubs := WithFlight(s.q.pubs, id, r, Finishing(false)))), id, r)
      else s.(q := s.q.(jfcs := s.q.jfcs[id := j], pubs := WithFlight(s.q.pubs, id, r, Finishing(true))))
  }

  function Released(p: Publications, r: nat, pipelined: bool): Publications
    requires pipelined ==> p.inFlight > 0
  {
    if pipelined then p.(inFlight := p.inFlight - 1, flights := p.flights - {r})
    else p.(running := false, flights := p.flights - {r})
  }

  /** The caller's callback has returned: the publication ends. */
  function Release(s: Engine, id: u32, r: nat): Engine
    requires id in s.q.pubs && r in s.q.pubs[id].flights && s.q.pubs[id].flights[r].Finishing?
    requires s.config.pipelined ==> s.q.pubs[id].inFlight > 0
  {
    var p := s.q.pubs[id];
    Kick(s.(q := s.q.(pubs := s.q.pubs[id := Released(p, r, s.config.pipelined)]),
            pool := s.pool.(owners := if p.flights[r].slot then s.pool.owners[r := Leaving] else s.pool.owners)))
  }

  /** `ReleaseCompletionEventSlot`. */
  function Free(s: Engine, r: nat): Engine
    requires s.pool.inUse > 0
  {
    Kick(s.(pool := s.pool.(inUse := s.pool.inUse - 1, owners := s.pool.owners - {r})))
  }

  /** One round of the loop of `ProcessCompletionEvent`. */
  function Deliver(s: Engine): Engine
    requires s.ev.dispatching
  {
    var i := FirstEligible(s.ev.ceqs, s.ev.queue, 0);
    if s.ev.active.Some? || i == |s.ev.queue| then
      s.(ev := s.ev.(dispatching := false),
         debt := s.debt.(checksCeq := s.debt.checksCeq + 1, checksJfc := s.debt.checksJfc + 1))
    else
      var e := s.ev.queue[i];
      var rest := s.ev.queue[..i] + s.ev.queue[i + 1..];
      if e.ceq !in s.ev.ceqs then
        s.(ev := s.ev.(queue := rest), log := s.log.(dispatched := s.log.dispatched + [e]),
           pool := s.pool.(owners := s.pool.owners[e.slot := Leaving]))
      else s.(ev := s.ev.(queue := rest, active := Some(Active(e, true))),
              log := s.log.(dispatched := s.log.dispatched + [e]))
  }

  /** What the acknowledgement of the entry being written means for its queue. */
  function Acknowledged(c: Ceq, ok: bool): Ceq {
    if ok then
      var p := (c.producer + 1) % WORD;
      c.(producer := p, consumer := if c.early.Some? then c.early.value else c.consumer, early := None)
    else c.(early := None, fault := c.fault || c.early.Some?)
  }

  /** The active event ends: its slot is to be released, and the callback still has to look for
      parked destroys and for the next event. */
  function Ended(s: Engine): Engine
    requires s.ev.active.Some?
  {
    s.(pool := s.pool.(owners := s.pool.owners[s.ev.active.value.event.slot := Leaving]), ev := s.ev.(active := None),
       debt := s.debt.(owed := s.debt.owed + 1))
  }

  function EventWritten(s: Engine, ok: bool): Engine
    requires s.ev.active.Some? && s.ev.active.value.event.ceq in s.ev.ceqs
  {
    var id := s.ev.active.value.event.ceq;
    var t := s.(ev := s.ev.(ceqs := s.ev.ceqs[id := Acknowledged(s.ev.ceqs[id], ok)]));
    if ok then t.(ev := t.ev.(active := Some(s.ev.active.value.(writing := false)))) else Ended(t)
  }

  function Return(s: Engine): Engine
    requires s.debt.owed > 0
  {
    Dispatch(s.(debt := s.debt.(owed := s.debt.owed - 1, checksCeq := s.debt.checksCeq + 1,
                                checksJfc := s.debt.checksJfc + 1)))
  }

  /** What a 24-bit report says about a queue: the distance it moves the consumer. */
  function Moves(c: Ceq, report: nat): nat { (report - c.consumer) % REPORT }

  function Reported(c: Ceq, report: nat, reserved: bool): Ceq {
    var delta := Moves(c, report);
    if c.fault || delta > Outstanding(c) + (if reserved then 1 else 0) then c
    else if delta > Outstanding(c) then c.(early := Some((c.consumer + delta) % WORD))
    else c.(consumer := (c.consumer + delta) % WORD)
  }

  /** An entry of queue `id` is being written. */
  predicate BeingWritten(active: Option<Active>, id: u32) {
    active.Some? && active.value.writing && active.value.event.ceq == id
  }

  /** `HandleCeqConsumerMmio` for a well-formed doorbell. */
  function Report(s: Engine, id: u32, report: nat): Engine {
    if id !in s.ev.ceqs then s
    else
      var c := s.ev.ceqs[id];
      if c.fault || Moves(c, report) > Outstanding(c) + (if BeingWritten(s.ev.active, id) then 1 else 0) then s
      else Dispatch(s.(ev := s.ev.(ceqs := s.ev.ceqs[id := Reported(c, report, BeingWritten(s.ev.active, id))])))
  }

  /** The arm doorbell of a JFC. */
  function Arm(s: Engine, id: u32): Engine {
    if s.config.oneShot && id in s.q.jfcs then s.(q := s.q.(armed := s.q.armed + {id})) else s
  }

  function RemoveJfc(s: Engine, id: u32): Engine {
    s.(q := s.q.(jfcs := s.q.jfcs - {id}, ceqOf := s.q.ceqOf - {id}, armed := s.q.armed - {id}))
  }

  // ------------------------------------------------------------------ commands

  /** `ProcessNextUbase`: the next descriptor is read, or there is none and the queue is given back. */
  function ProcessNext(c: Ring, found: bool): Ring {
    if found then c.(fetching := c.fetching + 1) else c.(busy := false)
  }

  /** `KickUbase`. */
  function Doorbell(c: Ring, found: bool): Ring { if c.busy then c else ProcessNext(c.(busy := true), found) }

  /** `FailUbase`. */
  function GivenUp(c: Ring): Ring { c.(busy := false) }

  /** A descriptor has arrived. */
  function Fetched(c: Ring): Ring
    requires c.fetching > 0
  {
    c.(fetching := c.fetching - 1)
  }

  /** `FinishUbaseDescriptor` and `RejectUbase`, up to their writes. */
  function Answering(c: Ring): Ring { c.(answering := c.answering + 1) }

  function Working(c: Ring): Ring { c.(working := c.working + 1) }

  /** What the command queue does for commands that are not about completions.  `busy` is what the busy test of
      another resource says. */
  datatype Step =
    | Ringing(found: bool)
    | Unreadable
    | Simple
    | Lengthy
    | Worked(more: bool)
    | Written(ok: bool, found: bool)
    | DestroyAeq(busy: bool)
    | DestroyQueue(what: Drain, busy: bool)
    | CheckAeq(busy: bool)
    | CheckQueue(busy: bool)

  predicate Ready(c: Ring, x: Step) {
    match x
    case Ringing(_) => true
    case Worked(_) => c.working > 0
    case Written(_, _) => c.answering > 0
    case CheckAeq(_) => true
    case CheckQueue(_) => true
    case _ => c.fetching > 0
  }

  function RingStep(c: Ring, x: Step): Ring
    requires Ready(c, x)
  {
    match x
    case Ringing(found) => Doorbell(c, found)
    case Unreadable => GivenUp(Fetched(c))
    case Simple => Answering(Fetched(c))
    case Lengthy => Working(Fetched(c))
    case Worked(more) => if more then c else Answering(c.(working := c.working - 1))
    case Written(ok, found) =>
      var d := c.(answering := c.answering - 1);
      if ok then ProcessNext(d, found) else GivenUp(d)
    case DestroyAeq(busy) => if busy then Fetched(c).(parkedAeq := true) else Answering(Fetched(c))
    case DestroyQueue(what, busy) =>
      if busy then Fetched(c).(parkedQueue := Some(what)) else Answering(Fetched(c))
    case CheckAeq(busy) => if c.parkedAeq && !busy then Answering(c.(parkedAeq := false)) else c
    case CheckQueue(busy) => if c.parkedQueue.Some? && !busy then Answering(c.(parkedQueue := None)) else c
  }

  function WithRing(s: Engine, c: Ring): Engine { s.(cmd := s.cmd.(ring := c)) }

  /** `HandleUbaseMailbox` for the two destroys: parked while the resource is busy. */
  ghost function DestroyCeq(s: Engine, id: u32): Engine
    requires s.cmd.ring.fetching > 0
  {
    var c := Fetched(s.cmd.ring);
    if CeqBusy(s, id) then s.(cmd := s.cmd.(parkedCeq := Some(id), ring := c))
    else WithRing(s, Answering(c)).(ev := s.ev.(ceqs := s.ev.ceqs - {id}))
  }

  function DestroyJfc(s: Engine, id: u32): Engine
    requires s.cmd.ring.fetching > 0
  {
    var c := Fetched(s.cmd.ring);
    if JfcBusy(s, id) then s.(cmd := s.cmd.(parkedJfc := Some(id), ring := c))
    else RemoveJfc(WithRing(s, Answering(c)), id)
  }

  /** `MaybeCompleteEqDestroy` and `MaybeCompleteJfcDestroy`. */
  ghost function CheckCeq(s: Engine): Engine
    requires s.debt.checksCeq > 0
  {
    var t := s.(debt := s.debt.(checksCeq := s.debt.checksCeq - 1));
    if s.cmd.parkedCeq.None? || CeqBusy(s, s.cmd.parkedCeq.value) then t
    else
      t.(cmd := t.cmd.(parkedCeq := None, ring := Answering(s.cmd.ring)),
         ev := t.ev.(ceqs := s.ev.ceqs - {s.cmd.parkedCeq.value}))
  }

  function CheckJfc(s: Engine): Engine
    requires s.debt.checksJfc > 0
  {
    var t := s.(debt := s.debt.(checksJfc := s.debt.checksJfc - 1));
    if s.cmd.parkedJfc.None? || JfcBusy(s, s.cmd.parkedJfc.value) then t
    else RemoveJfc(t.(cmd := t.cmd.(parkedJfc := None, ring := Answering(s.cmd.ring))), s.cmd.parkedJfc.value)
  }

  /** A context read starts only when the command passes its checks; otherwise it is rejected. */
  ghost predicate Admissible(s: Engine, l: Load) {
    match l
    case NewCeq(id) => !CeqBusy(s, id)
    case NewJfc(id) => id !in s.q.jfcs
    case Query(id) => id in s.q.jfcs
    case Modify(_) => true
  }

  ghost function Begin(s: Engine, l: Load): Engine
    requires s.cmd.ring.fetching > 0
  {
    var c := Fetched(s.cmd.ring);
    if Admissible(s, l) then s.(cmd := s.cmd.(load := Some(l), ring := c)) else WithRing(s, Answering(c))
  }

  /** The command that waited is to be answered. */
  function Loaded(s: Engine): Engine { s.(cmd := s.cmd.(load := None, ring := Answering(s.cmd.ring))) }

  /** The context has arrived: `ApplyUbaseMailbox`, or the consumer index of a query. */
  function LoadCeq(s: Engine, ok: bool, shift: nat): Engine
    requires s.cmd.load.Some? && s.cmd.load.value.NewCeq?
  {
    var id := s.cmd.load.value.id;
    var t := Loaded(s);
    if !ok || id > 255 || shift >= 18 then t
    else t.(ev := t.ev.(ceqs := s.ev.ceqs[id := Ceq(CeqDepth(shift), 0, 0, None, false)]))
  }

  function LoadJfc(s: Engine, ok: bool, shift: nat, ceq: u32, moderation: nat, period: nat): Engine
    requires s.cmd.load.Some? && s.cmd.load.value.NewJfc? && shift < 16
  {
    var id := s.cmd.load.value.id;
    var j := Jfc(JfcDepth(shift), 0, 0, if moderation == 0 then 1 else moderation, period, 0, 0, 0);
    if !ok then Loaded(s)
    else
      Loaded(s).(q := s.q.(jfcs := s.q.jfcs[id := j], ceqOf := s.q.ceqOf[id := ceq], armed := s.q.armed - {id}))
  }

  function LoadModify(s: Engine, ok: bool, moderation: Option<nat>, period: Option<nat>): Engine
    requires s.cmd.load.Some? && s.cmd.load.value.Modify?
  {
    var id := s.cmd.load.value.id;
    var t := Loaded(s);
    if !ok || id !in s.q.jfcs then t
    else
      var j := s.q.jfcs[id];
      var m := if moderation.None? then j.moderation else if moderation.value == 0 then 1 else moderation.value;
      var p := if period.None? then j.period else period.value;
      t.(q := t.q.(jfcs := s.q.jfcs[id := j.(moderation := m, period := p)]))
  }

  /** The context of the query has still to be written to the guest. */
  function Queried(s: Engine, ok: bool, value: u32): Engine
    requires s.cmd.load.Some? && s.cmd.load.value.Query?
  {
    var id := s.cmd.load.value.id;
    if !ok || id !in s.q.jfcs then Loaded(s)
    else
      s.(cmd := s.cmd.(load := None, ring := Working(s.cmd.ring)),
         q := s.q.(jfcs := s.q.jfcs[id := s.q.jfcs[id].(consumer := Masked(value))]))
  }

  // ------------------------------------------------------------------ runs

  datatype Action =
    | APost(id: u32) | AAdvance(now: nat)
    | AScan(timers: seq<u32>) | AExpire | AGather(ids: seq<u32>) | AEnter | AAdmit
    | AReadDone(id: u32, r: nat, ok: bool, value: u32) | AWriteDone(id: u32, r: nat, ok: bool)
    | ARelease(id: u32, r: nat) | AFree(r: nat)
    | ADeliver | AEventWritten(ok: bool) | AInterrupted | AReturn
    | AReport(id: u32, report: nat) | AArm(id: u32)
    | ADestroyCeq(id: u32) | ADestroyJfc(id: u32) | ACheckCeq | ACheckJfc
    | ABegin(what: Load)
    | ALoadCeq(ok: bool, shift: nat) | ALoadJfc(ok: bool, shift: nat, ceq: u32, moderation: nat, period: nat)
    | AQueried(ok: bool, value: u32) | AModify(ok: bool, count: Option<nat>, interval: Option<nat>)
    | ARing(step: Step) | AMailboxEvent

  predicate InFlight(s: Engine, id: u32, r: nat) { id in s.q.pubs && r in s.q.pubs[id].flights }

  ghost predicate TimersOf(s: Engine, timers: seq<u32>) {
    forall id :: id in timers <==> id in s.q.jfcs && Expired(s.q.jfcs[id], s.now)
  }

  /** What may happen next.  The two snapshots of the pump list every timer and every queue there is; a command
      is taken up when its descriptor arrives; an event of the mailbox may end at any time and has the parked
      destroy of an event queue looked at. */
  ghost predicate Enabled(s: Engine, a: Action) {
    match a
    case AScan(timers) => s.work.pump.Start? && TimersOf(s, timers)
    case AExpire => s.work.pump.Expiring?
    case AGather(ids) =>
      s.work.pump.Gather? && (forall id :: id in ids <==> id in s.q.pubs) && RoundRobin(ids, s.work.last)
    case AEnter => s.work.pump.Visiting?
    case AAdmit => s.work.pump.Admitting?
    case AReadDone(id, r, _, _) => InFlight(s, id, r) && s.q.pubs[id].flights[r] == Reading
    case AWriteDone(id, r, _) => InFlight(s, id, r) && s.q.pubs[id].flights[r] == Writing
    case ARelease(id, r) => InFlight(s, id, r) && s.q.pubs[id].flights[r].Finishing?
    case AFree(r) => r in s.pool.owners && s.pool.owners[r] == Leaving
    case ADeliver => s.ev.dispatching
    case AEventWritten(_) => s.ev.active.Some? && s.ev.active.value.writing
    case AInterrupted => s.ev.active.Some? && !s.ev.active.value.writing
    case AReturn => s.debt.owed > 0
    case AReport(_, report) => report < REPORT
    case ADestroyCeq(_) => s.cmd.ring.fetching > 0
    case ADestroyJfc(_) => s.cmd.ring.fetching > 0
    case ACheckCeq => s.debt.checksCeq > 0
    case ACheckJfc => s.debt.checksJfc > 0
    case ABegin(_) => s.cmd.ring.fetching > 0
    case ALoadCeq(_, _) => s.cmd.load.Some? && s.cmd.load.value.NewCeq?
    case ALoadJfc(_, shift, _, _, _) => s.cmd.load.Some? && s.cmd.load.value.NewJfc? && shift < 16
    case AQueried(_, _) => s.cmd.load.Some? && s.cmd.load.value.Query?
    case AModify(_, _, _) => s.cmd.load.Some? && s.cmd.load.value.Modify?
    case ARing(step) => Ready(s.cmd.ring, step)
    case _ => true
  }

  /** Steps whose code reads a table entry without a test; `None` is the exception or the underflow. */
  ghost function Next(s: Engine, a: Action): Option<Engine>
    requires Enabled(s, a)
  {
    match a
    case APost(id) => Some(Post(s, id))
    case AAdvance(now) => Some(Advance(s, now))
    case AScan(timers) => Some(s.(work := s.work.(kick := false, pump := Expiring(timers))))
    case AExpire => Some(Expire(s))
    case AGather(ids) => Some(s.(work := s.work.(pump := Visiting(ids))))
    case AEnter => Some(Enter(s))
    case AAdmit => Some(Admit(s))
    case AReadDone(id, r, ok, value) => Some(ReadDone(s, id, r, ok, value))
    case AWriteDone(id, r, ok) => Some(WriteDone(s, id, r, ok))
    case ARelease(id, r) =>
      if s.config.pipelined && s.q.pubs[id].inFlight == 0 then None else Some(Release(s, id, r))
    case AFree(r) => if s.pool.inUse == 0 then None else Some(Free(s, r))
    case ADeliver => Some(Deliver(s))
    case AEventWritten(ok) => if s.ev.active.value.event.ceq !in s.ev.ceqs then None else Some(EventWritten(s, ok))
    case AInterrupted => Some(Ended(s))
    case AReturn => Some(Return(s))
    case AReport(id, report) => Some(Report(s, id, report))
    case AArm(id) => Some(Arm(s, id))
    case ADestroyCeq(id) => Some(DestroyCeq(s, id))
    case ADestroyJfc(id) => Some(DestroyJfc(s, id))
    case ACheckCeq => Some(CheckCeq(s))
    case ACheckJfc => Some(CheckJfc(s))
    case ABegin(l) => Some(Begin(s, l))
    case ALoadCeq(ok, shift) => Some(LoadCeq(s, ok, shift))
    case ALoadJfc(ok, shift, ceq, moderation, period) => Some(LoadJfc(s, ok, shift, ceq, moderation, period))
    case AQueried(ok, value) => Some(Queried(s, ok, value))
    case AModify(ok, moderation, period) => Some(LoadModify(s, ok, moderation, period))
    case ARing(step) => Some(WithRing(s, RingStep(s.cmd.ring, step)))
    case AMailboxEvent => Some(s.(debt := s.debt.(checksCeq := s.debt.checksCeq + 1)))
  }

  function Boot(config: Config): Engine {
    Engine(config, 0, Queues(map[], map[], {}, map[]), Pool(0, map[], 0), Work(Idle, false, None),
           Events([], None, false, map[]), Commands(None, None, None, IDLE), Debts(0, 0, 0),
           History([], []))
  }

  datatype Fate = At(s: Engine) | Forbidden | Thrown

  ghost function Run(config: Config, acts: seq<Action>): Fate {
    if acts == [] then At(Boot(config))
    else
      var f := Run(config, acts[..|acts| - 1]);
      if !f.At? then f
      else if !Enabled(f.s, acts[|acts| - 1]) then Forbidden
      else
        var s' := Next(f.s, acts[|acts| - 1]);
        if s'.None? then Thrown else At(s'.value)
  }
}
