/** The completion engine as the program runs it: fields changed in place and loops over tables.

    Each method is one stretch of code between two calls that may re-enter, and is proved against the step
    of module `Engine` of the same purpose. */
module EngineCode {
  import opened Cq
  import opened Engine
  import opened Modular
  import opened Optional
  import opened Words

  // ------------------------------------------------------------------ loops over tables

  /** The timers that have run out. */
  method ExpiredTimers(jfcs: map<u32, Jfc>, now: nat) returns (timers: seq<u32>)
    ensures forall id :: id in timers <==>
                         id in jfcs && jfcs[id].completions != 0 && jfcs[id].deadline != 0 && jfcs[id].deadline <= now
  {
    timers := [];
    var todo := jfcs.Keys;
    while todo != {}
      invariant todo <= jfcs.Keys
      invariant forall id :: id in timers <==> id in jfcs.Keys - todo && Expired(jfcs[id], now)
      decreases |todo|
    {
      var id :| id in todo;
      if jfcs[id].completions != 0 && jfcs[id].deadline != 0 && jfcs[id].deadline <= now {
        timers := timers + [id];
      }
      todo := todo - {id};
    }
  }

  predicate Sorted(ids: seq<u32>) { forall i, j :: 0 <= i < j < |ids| ==> ids[i] < ids[j] }

  /** `id` takes its place in an ascending list. */
  method Place(ids: seq<u32>, id: u32) returns (all: seq<u32>)
    requires Sorted(ids) && id !in ids
    ensures Sorted(all) && forall x :: x in all <==> x in ids || x == id
  {
    var at := 0;
    while at < |ids| && ids[at] < id
      invariant 0 <= at <= |ids| && forall i :: 0 <= i < at ==> ids[i] < id
    {
      at := at + 1;
    }
    all := ids[..at] + [id] + ids[at..];
    PlacedAt(ids, id, at, all);
  }

  lemma PlacedAt(ids: seq<u32>, id: u32, at: nat, all: seq<u32>)
    requires Sorted(ids) && id !in ids && at <= |ids| && all == ids[..at] + [id] + ids[at..]
    requires (forall i :: 0 <= i < at ==> ids[i] < id) && (at < |ids| ==> ids[at] >= id)
    ensures Sorted(all) && forall x :: x in all <==> x in ids || x == id
  {
    assert forall i :: 0 <= i < |all| ==> all[i] == if i < at then ids[i] else if i == at then id else ids[i - 1];
    assert forall i :: at <= i < |ids| ==> ids[i] > id;
    assert ids == ids[..at] + ids[at..];
  }

  /** The keys in ascending order. */
  method SortedKeys(keys: set<u32>) returns (ids: seq<u32>)
    ensures Sorted(ids) && forall id :: id in ids <==> id in keys
  {
    ids := [];
    var todo := keys;
    while todo != {}
      invariant todo <= keys && Sorted(ids)
      invariant forall id :: id in ids <==> id in keys - todo
      decreases |todo|
    {
      var id :| id in todo;
      ids := Place(ids, id);
      todo := todo - {id};
    }
  }

  /** The queues the pump visits: ascending, rotated so that the one after the last admitted comes first. */
  method QueuesInTurn(keys: set<u32>, last: Option<u32>) returns (ids: seq<u32>)
    ensures RoundRobin(ids, last) && forall id :: id in ids <==> id in keys
  {
    ids := SortedKeys(keys);
    if last.Some? {
      var at := 0;
      while at < |ids| && ids[at] <= last.value
        invariant 0 <= at <= |ids| && forall i :: 0 <= i < at ==> ids[i] <= last.value
      {
        at := at + 1;
      }
      assert ids == ids[..at] + ids[at..];
      ghost var sorted := ids;
      ids := ids[at..] + ids[..at];
      assert forall i :: 0 <= i < |ids| ==>
                ids[i] == if i < |ids| - at then sorted[i + at] else sorted[i - (|ids| - at)];
    }
  }

  /** `std::find_if` for an event whose queue has credit, or is gone. */
  method FindEvent(events: seq<Event>, ceqs: map<u32, Ceq>) returns (i: nat)
    ensures i == FirstEligible(ceqs, events, 0)
  {
    i := 0;
    while i < |events|
      invariant i <= |events| && FirstEligible(ceqs, events, 0) == FirstEligible(ceqs, events, i)
    {
      var e := events[i];
      if e.ceq !in ceqs {
        return;
      }
      var c := ceqs[e.ceq];
      if !c.fault && (c.producer - c.consumer) % WORD < c.depth {
        return;
      }
      i := i + 1;
    }
  }

  method AnyEventOf(events: seq<Event>, jfc: u32) returns (found: bool)
    ensures found <==> exists i :: 0 <= i < |events| && events[i].jfc == jfc
  {
    var i := 0;
    while i < |events|
      invariant 0 <= i <= |events| && forall j :: 0 <= j < i ==> events[j].jfc != jfc
    {
      if events[i].jfc == jfc {
        return true;
      }
      i := i + 1;
    }
    found := false;
  }

  method AnyEventFor(events: seq<Event>, ceq: u32) returns (found: bool)
    ensures found <==> exists i :: 0 <= i < |events| && events[i].ceq == ceq
  {
    var i := 0;
    while i < |events|
      invariant 0 <= i <= |events| && forall j :: 0 <= j < i ==> events[j].ceq != ceq
    {
      if events[i].ceq == ceq {
        return true;
      }
      i := i + 1;
    }
    found := false;
  }

  // ------------------------------------------------------------------ the doorbell of event queues

  /** Where the doorbells of the device's UDMA memory begin. */
  const UDMA_MEMORY: nat := 0x0020_0000

  predicate IsConsumerDoorbell(offset: nat, length: nat, value: u64) {
    offset == UDMA_MEMORY && length == 8 && value / 0x1_0000 % 4 == 2
  }

  /** All bits besides queue, type and index are clear. */
  predicate Meaningful(value: u64) {
    value / 0x100 % 0x100 == 0 && value / 0x4_0000 % 0x4000 == 0 && value / 0x100_0000_0000_0000 == 0
  }

  function DoorbellQueue(value: u64): u32 { value % 0x100 }

  function DoorbellIndex(value: u64): (n: nat)
    ensures n < REPORT
  {
    value / 0x1_0000_0000 % REPORT
  }

  /** What the guest writes to report index `n` of queue `id`. */
  function Doorbell(id: u32, n: nat): u64
    requires id < 0x100 && n < REPORT
  {
    id + 2 * 0x1_0000 + n * 0x1_0000_0000
  }

  /** The device reads back what the guest meant. */
  lemma DoorbellsAreRead(id: u32, n: nat)
    requires id < 0x100 && n < REPORT
    ensures var v := Doorbell(id, n);
            && IsConsumerDoorbell(UDMA_MEMORY, 8, v) && Meaningful(v)
            && DoorbellQueue(v) == id && DoorbellIndex(v) == n
  {
    var v := Doorbell(id, n);
    var low := id + 2 * 0x1_0000;
    Unique(v, 0x1_0000_0000, n, low);
    Unique(v, 0x100_0000_0000_0000, 0, v);
    Unique(v, 0x100, n * 0x100_0000 + 2 * 0x100, id);
    Unique(v, 0x1_0000, n * 0x1_0000 + 2, id);
    Unique(v, 0x4_0000, n * 0x4000, low);
    AddMultiple(2, n * 0x4000, 4);
    AddMultiple(0, n * 0x1_0000 + 2, 0x100);
    AddMultiple(0, n, 0x4000);
  }

  predicate IsDoorbell(value: u64, id: u32, n: nat) { id < 0x100 && n < REPORT && value == Doorbell(id, n) }

  /** The values that pass the tests of the device, all bits without a meaning being clear, are the doorbells. */
  lemma OnlyDoorbellsPass(value: u64)
    ensures IsConsumerDoorbell(UDMA_MEMORY, 8, value) && Meaningful(value) <==> exists id, n :: IsDoorbell(value, id, n)
  {
    hide IsConsumerDoorbell, Meaningful, Doorbell;
    if IsConsumerDoorbell(UDMA_MEMORY, 8, value) && Meaningful(value) {
      OnlyDoorbells(value);
      assert IsDoorbell(value, DoorbellQueue(value), DoorbellIndex(value));
    }
    if id, n :| IsDoorbell(value, id, n) {
      DoorbellsAreRead(id, n);
    }
  }

  lemma OnlyDoorbells(value: u64)
    requires IsConsumerDoorbell(UDMA_MEMORY, 8, value) && Meaningful(value)
    ensures value == Doorbell(DoorbellQueue(value), DoorbellIndex(value))
  {
    var high, low := value / 0x1_0000_0000, value % 0x1_0000_0000;
    assert value == low + high * 0x1_0000_0000;
    AddMultiple(low, high * 0x100_0000, 0x100);
    AddMultiple(low / 0x100, high * 0x1_0000, 0x100);
    AddMultiple(low, high * 0x1_0000, 0x1_0000);
    AddMultiple(low / 0x1_0000, high * 0x4000, 4);
    AddMultiple(low, high * 0x4000, 0x4_0000);
    AddMultiple(low / 0x4_0000, high, 0x4000);
    LowWord(low);
    Unique(high, REPORT, 0, high);
  }

  lemma LowWord(low: nat)
    requires low < 0x1_0000_0000 && low / 0x1_0000 % 4 == 2 && low / 0x100 % 0x100 == 0 && low / 0x4_0000 % 0x4000 == 0
    ensures low == low % 0x100 + 0x2_0000
  {
    assert low / 0x4_0000 == 0;
    assert low / 0x1_0000 == 2;
    assert low / 0x100 == 0x200;
  }

  // ------------------------------------------------------------------ the device

  class Device {
    const config: Config
    var now: nat
    var jfcs: map<u32, Jfc>             // jfc_contexts_
    var ceqOf: map<u32, u32>            // jfc_ceqs_
    var armed: set<u32>                 // armed_jfcs_
    var pubs: map<u32, Publications>    // jfc_publications_
    var inUse: nat                      // completion_event_slots_in_use_
    var pump: Pump
    var kick: bool                      // completion_work_kick_
    var last: Option<u32>               // last_jfc_admitted_
    var events: seq<Event>              // completion_events_
    var active: Option<Active>
    var dispatching: bool               // completion_event_dispatching_
    var ceqs: map<u32, Ceq>
    var parkedCeq: Option<u32>          // pending_eq_destroy_
    var parkedJfc: Option<u32>          // pending_jfc_destroy_
    var load: Option<Load>
    var ring: Ring                      // ubase_busy_, and the callbacks of the command queue
    ghost var owners: map<nat, Owner>
    var nextSlot: nat                   // names reservations; the program has callbacks instead
    ghost var debt: Debts
    ghost var log: History

    ghost function State(): Engine
      reads this
    {
      Engine(config, now, Queues(jfcs, ceqOf, armed, pubs), Pool(inUse, owners, nextSlot), Work(pump, kick, last),
             Events(events, active, dispatching, ceqs), Commands(parkedCeq, parkedJfc, load, ring), debt, log)
    }

    constructor (config: Config)
      ensures State() == Boot(config)
    {
      this.config, now, jfcs, ceqOf, armed, pubs, inUse := config, 0, map[], map[], {}, map[], 0;
      pump, kick, last, events, active, dispatching, ceqs := Idle, false, None, [], None, false, map[];
      parkedCeq, parkedJfc, load, ring, owners, nextSlot := None, None, None, IDLE, map[], 0;
      debt, log := Debts(0, 0, 0), History([], []);
    }

    /** `PumpCompletionWork`, as a call. */
    method Pump()
      modifies this`kick, this`pump
      ensures State() == Kick(old(State()))
    {
      kick := true;
      if pump == Idle {
        pump := Start;
      }
    }

    method WriteCqe(id: u32) returns (refused: bool)
      modifies this`pubs, this`kick, this`pump
      ensures refused == Refused(old(State()), id) && State() == Post(old(State()), id)
    {
      if parkedJfc == Some(id) {
        return true;
      }
      if parkedCeq.Some? && id in ceqOf && ceqOf[id] == parkedCeq.value {
        return true;
      }
      var p := Publications(0, false, 0, map[]);
      if id in pubs {
        p := pubs[id];
      }
      pubs := pubs[id := p.(pending := p.pending + 1)];
      Pump();
      refused := false;
    }

    method AdvanceTime(t: nat)
      modifies this`now, this`kick, this`pump
      ensures State() == Advance(old(State()), t)
    {
      if t < now {
        return;
      }
      now := t;
      Pump();
    }

    /** The pump begins a round: it takes note of the timers that have run out. */
    method BeginRound()
      requires pump == Start
      modifies this`kick, this`pump
      ensures pump.Expiring? && Enabled(old(State()), AScan(pump.timers))
      ensures Next(old(State()), AScan(pump.timers)) == Some(State())
    {
      kick := false;
      var timers := ExpiredTimers(jfcs, now);
      pump := Expiring(timers);
    }

    /** The pump goes on to the queues. */
    method ListQueues()
      requires pump == Gather
      modifies this`pump
      ensures pump.Visiting? && Enabled(old(State()), AGather(pump.ids))
      ensures Next(old(State()), AGather(pump.ids)) == Some(State())
    {
      var ids := QueuesInTurn(pubs.Keys, last);
      pump := Visiting(ids);
    }

    method EmitCompletionEvent(id: u32, r: nat)
      modifies this`armed, this`owners, this`events, this`dispatching, this`log
      ensures State() == Emit(old(State()), id, r)
    {
      if config.oneShot {
        if id !in armed {
          assert Silent(old(State()), id);
          owners := owners[r := Leaving];
          return;
        }
        armed := armed - {id};
      }
      if id !in ceqOf {
        assert Silent(old(State()), id);
        owners := owners[r := Leaving];
        return;
      }
      assert !Silent(old(State()), id);
      EnqueueEvent(Event(id, ceqOf[id], r));
    }

    method EnqueueEvent(e: Event)
      modifies this`owners, this`events, this`dispatching, this`log
      ensures State() ==
              var s := old(State());
              s.(pool := s.pool.(owners := s.pool.owners[e.slot := Notification]),
                 ev := s.ev.(queue := s.ev.queue + [e], dispatching := s.ev.dispatching || s.ev.active.None?),
                 log := s.log.(accepted := s.log.accepted + [e]))
    {
      owners := owners[e.slot := Notification];
      events := events + [e];
      log := log.(accepted := log.accepted + [e]);
      if active.None? && !dispatching {
        dispatching := true;
      }
    }

    /** One timer of the snapshot. */
    method FireTimer()
      requires pump.Expiring?
      modifies this`pump, this`jfcs, this`inUse, this`owners, this`nextSlot, this`log, this`armed, this`events,
          this`dispatching
      ensures State() == Expire(old(State()))
    {
      if pump.timers == [] || inUse >= config.slots {
        pump := Gather;
        return;
      }
      var id := pump.timers[0];
      if id !in jfcs {
        pump := Expiring(pump.timers[1..]);
        return;
      }
      hide Emit, TimerTaken;
      TakeTimer(id);
      EmitCompletionEvent(id, nextSlot - 1);
    }

    /** The timer is reset and a slot reserved for its notification. */
    method TakeTimer(id: u32)
      requires pump.Expiring? && pump.timers != [] && id in jfcs
      modifies this`pump, this`jfcs, this`inUse, this`owners, this`nextSlot
      ensures State() == TimerTaken(old(State()), id) && nextSlot == old(nextSlot) + 1
    {
      ghost var s := State();
      pump := Expiring(pump.timers[1..]);
      jfcs := jfcs[id := jfcs[id].(completions := 0, deadline := 0)];
      ghost var t := State();
      assert t == s.(work := s.work.(pump := Expiring(s.work.pump.timers[1..])),
                     q := s.q.(jfcs := s.q.jfcs[id := s.q.jfcs[id].(completions := 0, deadline := 0)]));
      TakeSlot(Leaving);
    }

    /** A notification slot is reserved. */
    method TakeSlot(ghost owner: Owner)
      modifies this`inUse, this`owners, this`nextSlot
      ensures State() == old(State()).(pool := Pool(old(inUse) + 1, old(owners)[old(nextSlot) := owner],
                                                    old(nextSlot) + 1))
      ensures nextSlot == old(nextSlot) + 1
    {
      inUse := inUse + 1;
      owners := owners[nextSlot := owner];
      nextSlot := nextSlot + 1;
    }

    method EnterQueue()
      requires pump.Visiting?
      modifies this`pump
      ensures State() == Enter(old(State()))
    {
      if pump.ids == [] {
        pump := if kick then Start else Idle;
        return;
      }
      var id, ids := pump.ids[0], pump.ids[1..];
      if id !in pubs || (!config.pipelined && pubs[id].running) {
        pump := Visiting(ids);
      } else {
        pump := Admitting(id, ids, true);
      }
    }

    /** `publish` up to its write. */
    method PublishCqe(id: u32, r: nat, consumer: nat)
      requires id in pubs && id in jfcs
      modifies this`pubs, this`jfcs
      ensures State() == Publish(old(State()), id, r, consumer)
    {
      var j := jfcs[id];
      if Masked(Masked(j.producer) - consumer) >= j.depth {
        assert NoRoom(j, consumer);
        pubs := pubs[id := pubs[id].(flights := pubs[id].flights[r := Finishing(true)])];
        return;
      }
      assert !NoRoom(j, consumer);
      hide NoRoom;
      hide Masked;
      j := j.(consumer := consumer);
      if config.pipelined {
        j := j.(producer := j.producer + 1, writing := j.writing + 1);
      }
      jfcs := jfcs[id := j];
      pubs := pubs[id := pubs[id].(flights := pubs[id].flights[r := Writing])];
    }

    /** `WriteCqeNow` up to its first DMA. */
    method IssueCqe(id: u32, r: nat)
      requires id in pubs
      modifies this`pubs, this`jfcs
      ensures State() == Issue(old(State()), id, r)
    {
      hide Publish, Held;
      if id !in jfcs {
        pubs := pubs[id := pubs[id].(flights := pubs[id].flights[r := Finishing(true)])];
        return;
      }
      if config.pipelined && Held(jfcs[id]) < jfcs[id].depth {
        PublishCqe(id, r, Masked(jfcs[id].consumer));
      } else {
        pubs := pubs[id := pubs[id].(flights := pubs[id].flights[r := Reading])];
      }
    }

    /** One round of the loop of `ProcessJfcPublications`, or what follows the loop. */
    method AdmitRound()
      requires pump.Admitting?
      modifies this`pubs, this`jfcs, this`inUse, this`owners, this`nextSlot, this`last, this`pump, this`debt
      ensures State() == Admit(old(State()))
    {
      hide Issue, Held, Retire;
      var id, ids := pump.id, pump.ids;
      if id in pubs && pump.more && pubs[id].pending != 0 && inUse < config.slots
         && (config.pipelined || !pubs[id].running)
         && (!config.pipelined || (id in jfcs && !(Held(jfcs[id]) >= jfcs[id].depth && pubs[id].inFlight != 0))) {
        assert Admits(old(State()), id);
        hide Blocked, Reserving;
        Reserve(id, ids);
        IssueCqe(id, nextSlot - 1);
        return;
      }
      assert !(pump.more && Admits(old(State()), id));
      hide Blocked;
      if id in pubs && !pubs[id].running && pubs[id].inFlight == 0 && pubs[id].pending == 0 {
        EraseQueue(id, ids);
      } else {
        pump := Visiting(ids);
      }
    }

    /** The oldest pending publication leaves the queue, with a slot reserved for it. */
    method Reserve(id: u32, ids: seq<u32>)
      requires id in pubs && pubs[id].pending > 0
      modifies this`pubs, this`inUse, this`owners, this`nextSlot, this`last, this`pump
      ensures State() == Reserving(old(State()), id, ids) && id in pubs && nextSlot == old(nextSlot) + 1
    {
      var p := pubs[id].(pending := pubs[id].pending - 1);
      if config.pipelined {
        p := p.(inFlight := p.inFlight + 1);
      } else {
        p := p.(running := true);
      }
      assert p == Admitted(pubs[id], config.pipelined);
      hide Admitted;
      ghost var s := State();
      pubs := pubs[id := p];
      last := Some(id);
      pump := Admitting(id, ids, config.pipelined);
      assert State() == s.(q := s.q.(pubs := s.q.pubs[id := p]),
                           work := s.work.(last := Some(id), pump := Admitting(id, ids, config.pipelined)));
      TakeSlot(Publication(id));
    }

    method EraseQueue(id: u32, ids: seq<u32>)
      modifies this`pubs, this`debt, this`pump
      ensures State() == Retire(old(State()), id, ids)
    {
      pubs := pubs - {id};
      debt := debt.(checksCeq := debt.checksCeq + 1, checksJfc := debt.checksJfc + 1);
      pump := Visiting(ids);
    }

    /** The consumer index has been read. */
    method CqeReadDone(id: u32, r: nat, ok: bool, value: u32)
      requires id in pubs
      modifies this`pubs, this`jfcs
      ensures State() == ReadDone(old(State()), id, r, ok, value)
    {
      hide Publish;
      if !ok || id !in jfcs {
        pubs := pubs[id := pubs[id].(flights := pubs[id].flights[r := Finishing(true)])];
      } else {
        PublishCqe(id, r, Masked(value));
      }
    }

    /** The CQE has been written, or not. */
    method CqeWriteDone(id: u32, r: nat, ok: bool)
      requires id in pubs
      modifies this`pubs, this`jfcs, this`armed, this`owners, this`events, this`dispatching, this`log
      ensures State() == WriteDone(old(State()), id, r, ok)
    {
      hide Emit;
      if id !in jfcs || (config.pipelined && jfcs[id].writing == 0) {
        pubs := pubs[id := pubs[id].(flights := pubs[id].flights[r := Finishing(true)])];
        return;
      }
      var j, due := Commit(jfcs[id], ok);
      hide Committed;
      jfcs := jfcs[id := j];
      pubs := pubs[id := pubs[id].(flights := pubs[id].flights[r := Finishing(!due)])];
      if due {
        EmitCompletionEvent(id, r);
      }
    }

    /** What the write means for the context, and whether a notification is due. */
    method Commit(j: Jfc, ok: bool) returns (k: Jfc, due: bool)
      requires config.pipelined ==> j.writing > 0
      ensures k == Committed(j, config.pipelined, ok, now).0 && due == Committed(j, config.pipelined, ok, now).1.Due?
    {
      k, due := j, false;
      if config.pipelined {
        k := k.(writing := k.writing - 1);
      }
      if !ok {
        return;
      }
      if !config.pipelined {
        k := k.(producer := k.producer + 1);
      }
      k := k.(completions := k.completions + 1);
      if k.completions < k.moderation {
        if k.deadline == 0 && k.period != 0 {
          k := k.(deadline := now + Period(k.period));
        }
        return;
      }
      k := k.(completions := 0, deadline := 0);
      due := true;
    }

    /** The caller's callback has returned. */
    method ReleasePublication(id: u32, r: nat)
      requires id in pubs && r in pubs[id].flights && pubs[id].flights[r].Finishing?
      requires config.pipelined ==> pubs[id].inFlight > 0
      modifies this`pubs, this`owners, this`kick, this`pump
      ensures State() == Release(old(State()), id, r)
    {
      var p := pubs[id];
      if p.flights[r].slot {
        owners := owners[r := Leaving];
      }
      if config.pipelined {
        p := p.(inFlight := p.inFlight - 1);
      } else {
        p := p.(running := false);
      }
      pubs := pubs[id := p.(flights := p.flights - {r})];
      Pump();
    }

    method ReleaseCompletionEventSlot(ghost r: nat)
      requires inUse > 0
      modifies this`inUse, this`owners, this`kick, this`pump
      ensures State() == Free(old(State()), r)
    {
      inUse := inUse - 1;
      owners := owners - {r};
      Pump();
    }

    // ---------------------------------------------------------------- events

    /** One round of the loop of `ProcessCompletionEvent`, or what follows the loop. */
    method DeliverRound()
      requires dispatching
      modifies this`events, this`active, this`dispatching, this`owners, this`debt, this`log
      ensures State() == Deliver(old(State()))
    {
      var i := FindEvent(events, ceqs);
      hide FirstEligible;
      if active.Some? || i == |events| {
        dispatching := false;
        debt := debt.(checksCeq := debt.checksCeq + 1, checksJfc := debt.checksJfc + 1);
        return;
      }
      if events[i].ceq !in ceqs {
        DropEvent(i);
      } else {
        StartEvent(i);
      }
    }

    /** The queue of the event is gone. */
    method DropEvent(i: nat)
      requires i < |events|
      modifies this`events, this`owners, this`log
      ensures State() ==
              var s := old(State());
              s.(ev := s.ev.(queue := s.ev.queue[..i] + s.ev.queue[i + 1..]),
                 pool := s.pool.(owners := s.pool.owners[s.ev.queue[i].slot := Leaving]),
                 log := s.log.(dispatched := s.log.dispatched + [s.ev.queue[i]]))
    {
      var e := events[i];
      events := events[..i] + events[i + 1..];
      log := log.(dispatched := log.dispatched + [e]);
      owners := owners[e.slot := Leaving];
    }

    /** The event becomes the active one, and its entry is written. */
    method StartEvent(i: nat)
      requires i < |events|
      modifies this`events, this`active, this`log
      ensures State() ==
              var s := old(State());
              s.(ev := s.ev.(queue := s.ev.queue[..i] + s.ev.queue[i + 1..],
                             active := Some(Active(s.ev.queue[i], true))),
                 log := s.log.(dispatched := s.log.dispatched + [s.ev.queue[i]]))
    {
      var e := events[i];
      events := events[..i] + events[i + 1..];
      log := log.(dispatched := log.dispatched + [e]);
      active := Some(Active(e, true));
    }

    /** The entry of the active event has been written, or not. */
    method CeqeWriteDone(ok: bool)
      requires active.Some? && active.value.event.ceq in ceqs
      modifies this`ceqs, this`active, this`owners, this`debt
      ensures State() == EventWritten(old(State()), ok)
    {
      var e := active.value.event;
      var c := ceqs[e.ceq];
      if ok {
        c := c.(producer := (c.producer + 1) % WORD);
        if c.early.Some? {
          c := c.(consumer := c.early.value, early := None);
        }
        assert c == Acknowledged(old(ceqs)[e.ceq], ok);
        hide Acknowledged;
        ceqs := ceqs[e.ceq := c];
        active := Some(active.value.(writing := false));
        return;
      }
      if c.early.Some? {
        c := c.(early := None, fault := true);
      }
      assert c == Acknowledged(old(ceqs)[e.ceq], ok);
      hide Acknowledged;
      ceqs := ceqs[e.ceq := c];
      EndEvent();
    }

    /** The active event is over, here or after its interrupt. */
    method EndEvent()
      requires active.Some?
      modifies this`active, this`owners, this`debt
      ensures State() == Ended(old(State()))
    {
      owners := owners[active.value.event.slot := Leaving];
      active := None;
      debt := debt.(owed := debt.owed + 1);
    }

    /** `HandleCeqConsumerMmio`: `false` leaves the access to somebody else.  A doorbell for an unknown queue, or
        with a bit set that has no meaning, changes nothing. */
    method HandleCeqConsumerMmio(offset: nat, length: nat, value: u64) returns (handled: bool)
      modifies this`ceqs, this`dispatching
      ensures handled == IsConsumerDoorbell(offset, length, value)
      ensures State() == if handled && Meaningful(value) then Report(old(State()), DoorbellQueue(value),
                                                                     DoorbellIndex(value)) else old(State())
    {
      if offset != UDMA_MEMORY || length != 8 || value / 0x1_0000 % 4 != 2 {
        return false;
      }
      var id := value % 0x100;
      if id !in ceqs || value / 0x100 % 0x100 != 0 || value / 0x4_0000 % 0x4000 != 0
         || value / 0x100_0000_0000_0000 != 0 {
        return true;
      }
      var taken := ConsumerReport(id, value / 0x1_0000_0000 % REPORT);
      handled := true;
    }

    /** A report for a queue, from a well-formed doorbell: it is taken, kept for the entry being written, or refused. */
    method ConsumerReport(id: u32, report: nat) returns (taken: bool)
      requires report < REPORT
      modifies this`ceqs, this`dispatching
      ensures State() == Report(old(State()), id, report)
      ensures taken ==
              (id in old(ceqs) && !old(ceqs)[id].fault &&
               Moves(old(ceqs)[id], report)
               <= Outstanding(old(ceqs)[id]) + if BeingWritten(active, id) then 1 else 0)
    {
      if id !in ceqs {
        return false;
      }
      var c := ceqs[id];
      var delta := (report - c.consumer) % REPORT;
      var published := (c.producer - c.consumer) % WORD;
      var reserved := active.Some? && active.value.writing && active.value.event.ceq == id;
      if c.fault || delta > published + (if reserved then 1 else 0) {
        return false;
      }
      if delta > published {
        c := c.(early := Some((c.consumer + delta) % WORD));
      } else {
        c := c.(consumer := (c.consumer + delta) % WORD);
      }
      assert c == Reported(old(ceqs)[id], report, BeingWritten(active, id));
      hide Reported;
      ceqs := ceqs[id := c];
      if active.None? && !dispatching {
        dispatching := true;
      }
      taken := true;
    }

    // ---------------------------------------------------------------- destroys

    method JfcPublicationBusy(id: u32) returns (busy: bool)
      ensures busy == JfcBusy(State(), id)
    {
      if id in jfcs && jfcs[id].completions != 0 && jfcs[id].deadline != 0 {
        return true;
      }
      if active.Some? && active.value.event.jfc == id {
        return true;
      }
      busy := AnyEventOf(events, id);
      if !busy {
        busy := id in pubs && (pubs[id].running || pubs[id].inFlight != 0 || pubs[id].pending != 0);
      }
    }

    method EventQueueBusy(id: u32) returns (busy: bool)
      ensures busy == CeqBusy(State(), id)
    {
      var todo := ceqOf.Keys;
      while todo != {}
        invariant todo <= ceqOf.Keys
        invariant forall jfc :: jfc in ceqOf.Keys - todo ==> !QueueOnCeq(State(), jfc, id)
        decreases |todo|
      {
        var jfc :| jfc in todo;
        if ceqOf[jfc] == id {
          if jfc in pubs && (pubs[jfc].running || pubs[jfc].inFlight != 0 || pubs[jfc].pending != 0) {
            assert QueueOnCeq(State(), jfc, id);
            return true;
          }
          if jfc in jfcs && jfcs[jfc].completions != 0 && jfcs[jfc].deadline != 0 {
            assert QueueOnCeq(State(), jfc, id);
            return true;
          }
        }
        todo := todo - {jfc};
      }
      assert forall jfc :: !QueueOnCeq(State(), jfc, id);
      if active.Some? && active.value.event.ceq == id {
        return true;
      }
      busy := AnyEventFor(events, id);
    }

    method DestroyJfcContext(id: u32) returns (parked: bool)
      requires ring.fetching > 0
      modifies this`parkedJfc, this`jfcs, this`ceqOf, this`armed, this`ring
      ensures State() == DestroyJfc(old(State()), id) && parked == JfcBusy(old(State()), id)
    {
      parked := JfcPublicationBusy(id);
      hide JfcBusy;
      ring := ring.(fetching := ring.fetching - 1);
      if parked {
        parkedJfc := Some(id);
      } else {
        EraseJfc(id);
        ring := ring.(answering := ring.answering + 1);
      }
    }

    method EraseJfc(id: u32)
      modifies this`jfcs, this`ceqOf, this`armed
      ensures State() == RemoveJfc(old(State()), id)
    {
      jfcs, ceqOf, armed := jfcs - {id}, ceqOf - {id}, armed - {id};
    }

    method EraseCeq(id: u32)
      modifies this`ceqs
      ensures State() == old(State()).(ev := old(State()).ev.(ceqs := old(ceqs) - {id}))
    {
      ceqs := ceqs - {id};
    }

    method DestroyCeqContext(id: u32) returns (parked: bool)
      requires ring.fetching > 0
      modifies this`parkedCeq, this`ceqs, this`ring
      ensures State() == DestroyCeq(old(State()), id) && parked == CeqBusy(old(State()), id)
    {
      parked := EventQueueBusy(id);
      hide CeqBusy;
      ring := ring.(fetching := ring.fetching - 1);
      if parked {
        parkedCeq := Some(id);
      } else {
        ceqs := ceqs - {id};
        ring := ring.(answering := ring.answering + 1);
      }
    }

    method MaybeCompleteJfcDestroy()
      requires debt.checksJfc > 0
      modifies this`parkedJfc, this`jfcs, this`ceqOf, this`armed, this`debt, this`ring
      ensures State() == CheckJfc(old(State()))
    {
      var busy := false;
      if parkedJfc.Some? {
        busy := JfcPublicationBusy(parkedJfc.value);
      }
      hide JfcBusy, RemoveJfc;
      debt := debt.(checksJfc := debt.checksJfc - 1);
      if parkedJfc.Some? && !busy {
        var id := parkedJfc.value;
        parkedJfc := None;
        ring := ring.(answering := ring.answering + 1);
        EraseJfc(id);
      }
    }

    method MaybeCompleteEqDestroy()
      requires debt.checksCeq > 0
      modifies this`parkedCeq, this`ceqs, this`debt, this`ring
      ensures State() == CheckCeq(old(State()))
    {
      var busy := false;
      if parkedCeq.Some? {
        busy := EventQueueBusy(parkedCeq.value);
      }
      hide CeqBusy;
      debt := debt.(checksCeq := debt.checksCeq - 1);
      if parkedCeq.Some? && !busy {
        EraseCeq(parkedCeq.value);
        parkedCeq := None;
        ring := ring.(answering := ring.answering + 1);
      }
    }

    // ---------------------------------------------------------------- the command queue

    /** A doorbell of the command queue; `found` says whether a descriptor is pending. */
    method KickUbase(found: bool)
      modifies this`ring
      ensures State() == WithRing(old(State()), RingStep(old(ring), Ringing(found)))
    {
      if ring.busy {
        return;
      }
      ring := ring.(busy := true);
      ProcessNextUbase(found);
    }

    method ProcessNextUbase(found: bool)
      modifies this`ring
      ensures ring == ProcessNext(old(ring), found)
    {
      if found {
        ring := ring.(fetching := ring.fetching + 1);
      } else {
        ring := ring.(busy := false);
      }
    }

    /** The answer of a command has been written, or not. */
    method AnswerWritten(ok: bool, found: bool)
      requires ring.answering > 0
      modifies this`ring
      ensures State() == WithRing(old(State()), RingStep(old(ring), Written(ok, found)))
    {
      ring := ring.(answering := ring.answering - 1);
      if !ok {
        ring := ring.(busy := false);
        return;
      }
      ProcessNextUbase(found);
    }
  }
}
