/** What every state of the completion engine satisfies, component by component. */
module EngineInv {
  import opened Cq
  import opened Engine
  import opened Optional
  import opened Words

  // ------------------------------------------------------------------ reservations

  predicate HoldsSlot(pubs: map<u32, Publications>, id: u32, r: nat) {
    id in pubs && r in pubs[id].flights && pubs[id].flights[r] != Finishing(false)
  }

  predicate OwnedBy(owners: map<nat, Owner>, r: nat, id: u32) { r in owners && owners[r] == Publication(id) }

  predicate Notifies(owners: map<nat, Owner>, r: nat) { r in owners && owners[r] == Notification }

  predicate Queued(events: seq<Event>, r: nat) { exists i :: 0 <= i < |events| && events[i].slot == r }

  predicate EventHolds(events: seq<Event>, active: Option<Active>, r: nat) {
    (active.Some? && active.value.event.slot == r) || Queued(events, r)
  }

  /** The slots owned by publications are those of the flights that have not released theirs ... */
  ghost predicate PubOwn(pubs: map<u32, Publications>, owners: map<nat, Owner>) {
    forall id, r {:trigger HoldsSlot(pubs, id, r)} {:trigger OwnedBy(owners, r, id)} ::
      HoldsSlot(pubs, id, r) <==> OwnedBy(owners, r, id)
  }

  /** ... and those owned by notifications are the slots of the events, each event its own. */
  ghost predicate EventOwn(events: seq<Event>, active: Option<Active>, owners: map<nat, Owner>) {
    && (forall r {:trigger EventHolds(events, active, r)} {:trigger Notifies(owners, r)} ::
          EventHolds(events, active, r) <==> Notifies(owners, r))
    && (forall i, j :: 0 <= i < j < |events| ==> events[i].slot != events[j].slot)
    && (active.Some? ==> !Queued(events, active.value.event.slot))
  }

  /** The counter counts the reservations, and they stay within the budget. */
  ghost predicate Slots(owners: map<nat, Owner>, inUse: nat, slots: nat) {
    inUse == |owners| <= slots
  }

  ghost predicate Numbered(owners: map<nat, Owner>, pubs: map<u32, Publications>, next: nat) {
    && (forall r :: r in owners ==> r < next)
    && (forall id, r :: id in pubs && r in pubs[id].flights ==> r < next)
  }

  // ------------------------------------------------------------------ publications and contexts

  predicate Counted(pipelined: bool, p: Publications) {
    if pipelined then !p.running && p.inFlight == |p.flights|
    else p.inFlight == 0 && |p.flights| == if p.running then 1 else 0
  }

  ghost predicate Counts(pipelined: bool, pubs: map<u32, Publications>) {
    forall id {:trigger Counted(pipelined, pubs[id])} :: id in pubs ==> Counted(pipelined, pubs[id])
  }

  function WritingOf(p: Publications): set<nat> { set r | r in p.flights && p.flights[r] == Writing }

  function Writes(pipelined: bool, pubs: map<u32, Publications>, id: u32): nat {
    if pipelined && id in pubs then |WritingOf(pubs[id])| else 0
  }

  predicate JfcOk(j: Jfc) { j.deadline != 0 ==> j.completions != 0 }

  /** `jfc_cqe_dma_in_flight_` is the number of CQE writes in flight. */
  ghost predicate Contexts(pipelined: bool, pubs: map<u32, Publications>, jfcs: map<u32, Jfc>) {
    forall id {:trigger Writes(pipelined, pubs, id)} :: id in jfcs ==>
      jfcs[id].writing == Writes(pipelined, pubs, id) && JfcOk(jfcs[id])
  }

  predicate UsesContext(pubs: map<u32, Publications>, id: u32, r: nat) {
    id in pubs && r in pubs[id].flights && !pubs[id].flights[r].Finishing?
  }

  /** A DMA in flight, and an event queued or active, find the context of their JFC. */
  ghost predicate Alive(pubs: map<u32, Publications>, jfcs: map<u32, Jfc>) {
    forall id, r {:trigger UsesContext(pubs, id, r)} :: UsesContext(pubs, id, r) ==> id in jfcs
  }

  ghost predicate EventsAlive(events: seq<Event>, active: Option<Active>, jfcs: map<u32, Jfc>) {
    && (forall i :: 0 <= i < |events| ==> events[i].jfc in jfcs)
    && (active.Some? ==> active.value.event.jfc in jfcs)
  }

  // ------------------------------------------------------------------ event queues

  /** Consumer and producer of an event queue, as numbers modulo 2^32: the consumer is never ahead and
      never more than the depth behind; an entry being written has a free slot; an early report is for
      exactly that entry. */
  predicate Credit(c: Ceq, reserved: bool) {
    && 64 <= c.depth <= 0x80_0000
    && Outstanding(c) <= c.depth
    && (reserved ==> Outstanding(c) < c.depth)
    && (c.early.Some? ==> reserved && c.early.value == (c.producer + 1) % WORD)
  }

  ghost predicate Credits(ceqs: map<u32, Ceq>, active: Option<Active>) {
    forall id {:trigger Credit(ceqs[id], BeingWritten(active, id))} :: id in ceqs ==>
              Credit(ceqs[id], BeingWritten(active, id))
  }

  predicate ActiveKnown(ceqs: map<u32, Ceq>, active: Option<Active>) {
    active.Some? ==> active.value.event.ceq in ceqs
  }

  // ------------------------------------------------------------------ commands

  function One(b: bool): nat { if b then 1 else 0 }

  /** The commands that are unfinished: callbacks outstanding for one, and parked destroys of any kind. */
  function Unfinished(c: Commands): nat {
    c.ring.fetching + c.ring.working + c.ring.answering + One(c.load.Some?)
    + One(c.parkedCeq.Some?) + One(c.parkedJfc.Some?) + One(c.ring.parkedAeq) + One(c.ring.parkedQueue.Some?)
  }

  /** The busy flag stands for exactly one unfinished command. */
  predicate OneCommand(c: Commands, jfcs: map<u32, Jfc>) {
    Unfinished(c) == One(c.ring.busy) && (c.load.Some? && c.load.value.NewJfc? ==> c.load.value.id !in jfcs)
  }

  // ------------------------------------------------------------------ all of it

  ghost predicate Safe(s: Engine) {
    && PubOwn(s.q.pubs, s.pool.owners) && EventOwn(s.ev.queue, s.ev.active, s.pool.owners)
    && Slots(s.pool.owners, s.pool.inUse, s.config.slots) && Numbered(s.pool.owners, s.q.pubs, s.pool.nextSlot)
    && Counts(s.config.pipelined, s.q.pubs) && Contexts(s.config.pipelined, s.q.pubs, s.q.jfcs)
    && Alive(s.q.pubs, s.q.jfcs) && EventsAlive(s.ev.queue, s.ev.active, s.q.jfcs) && s.q.jfcs.Keys == s.q.ceqOf.Keys
    && Credits(s.ev.ceqs, s.ev.active) && ActiveKnown(s.ev.ceqs, s.ev.active)
    && OneCommand(s.cmd, s.q.jfcs)
  }
}
