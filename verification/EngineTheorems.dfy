/** The results about the completion engine, over whole runs and stated outright. */
module EngineTheorems {
  import opened Cq
  import opened Engine
  import opened EngineDestroy
  import opened EngineEvents
  import opened EngineInv
  import opened EnginePromises
  import opened EngineProof
  import opened EngineWake
  import opened Modular
  import opened Optional
  import opened Words

  // ------------------------------------------------------------------ notification slots

  /** The counter is the number of reservations, within the budget; a reservation belongs to one
      publication in flight, to one event, or to a callback about to release it, and to nothing else. */
  lemma SlotsAreConserved(config: Config, acts: seq<Action>, s: Engine)
    requires Run(config, acts) == At(s)
    ensures s.pool.inUse == |s.pool.owners| <= config.slots
    ensures forall id, r :: HoldsSlot(s.q.pubs, id, r) ==>
                              r in s.pool.owners && s.pool.owners[r] == Publication(id)
    ensures forall r :: r in s.pool.owners && s.pool.owners[r].Publication? ==>
                          HoldsSlot(s.q.pubs, s.pool.owners[r].jfc, r)
    ensures forall r ::
              (r in s.pool.owners && s.pool.owners[r] == Notification) <==> EventHolds(s.ev.queue, s.ev.active, r)
    ensures forall i, j :: 0 <= i < j < |s.ev.queue| ==> s.ev.queue[i].slot != s.ev.queue[j].slot
  {
    RunSafe(config, acts);
    hide Run;
    forall id, r | id in s.q.pubs && r in s.q.pubs[id].flights && s.q.pubs[id].flights[r] != Finishing(false)
      ensures r in s.pool.owners && s.pool.owners[r] == Publication(id)
    {
      assert HoldsSlot(s.q.pubs, id, r) <==> OwnedBy(s.pool.owners, r, id);
    }
    forall r | r in s.pool.owners && s.pool.owners[r].Publication?
      ensures HoldsSlot(s.q.pubs, s.pool.owners[r].jfc, r)
    {
      assert OwnedBy(s.pool.owners, r, s.pool.owners[r].jfc);
    }
    forall r: nat
      ensures (r in s.pool.owners && s.pool.owners[r] == Notification) <==> EventHolds(s.ev.queue, s.ev.active, r)
    {
      assert EventHolds(s.ev.queue, s.ev.active, r) <==> Notifies(s.pool.owners, r);
    }
  }

  /** The reservation `r` was made and has been given up. */
  predicate Spent(p: Pool, r: nat) { r < p.nextSlot && r !in p.owners }

  lemma EmitSpent(s: Engine, id: u32, q: nat, r: nat)
    requires Spent(s.pool, r) && q != r
    ensures Spent(Emit(s, id, q).pool, r)
  {
    if Silent(s, id) {
    } else {
    }
  }

  lemma FlightSpent(s: Engine, a: Action, r: nat)
    requires Safe(s) && Enabled(s, a) && Next(s, a).Some? && Spent(s.pool, r)
    requires a.AReadDone? || a.AWriteDone? || a.ARelease?
    ensures Spent(Next(s, a).value.pool, r)
  {
    assert HoldsSlot(s.q.pubs, a.id, a.r) <==> OwnedBy(s.pool.owners, a.r, a.id);
    hide Safe, Committed, Emit, NoRoom;
    if a.AWriteDone? && a.id in s.q.jfcs && (s.config.pipelined ==> s.q.jfcs[a.id].writing > 0) {
      var (j, verdict) := Committed(s.q.jfcs[a.id], s.config.pipelined, a.ok, s.now);
      if verdict.Due? {
        EmitSpent(s.(q := s.q.(jfcs := s.q.jfcs[a.id := j], pubs := WithFlight(s.q.pubs, a.id, a.r, Finishing(false)))),
                  a.id, a.r, r);
      }
    }
  }

  lemma EventSpent(s: Engine, a: Action, r: nat)
    requires Safe(s) && Enabled(s, a) && Next(s, a).Some? && Spent(s.pool, r)
    requires a.ADeliver? || a.AEventWritten? || a.AInterrupted?
    ensures Spent(Next(s, a).value.pool, r)
  {
    forall i | 0 <= i < |s.ev.queue|
      ensures s.ev.queue[i].slot != r
    {
      assert Queued(s.ev.queue, s.ev.queue[i].slot);
      assert EventHolds(s.ev.queue, s.ev.active, s.ev.queue[i].slot);
    }
    assert s.ev.active.Some? ==> EventHolds(s.ev.queue, s.ev.active, s.ev.active.value.event.slot);
    hide Safe, FirstEligible, Acknowledged;
  }

  lemma AdmitSpent(s: Engine, r: nat)
    requires s.work.pump.Admitting? && Spent(s.pool, r)
    ensures Spent(Admit(s).pool, r)
  {
    var id, ids := s.work.pump.id, s.work.pump.ids;
    hide Blocked;
    if s.work.pump.more && Admits(s, id) {
      IssueView(Reserving(s, id, ids), id, s.pool.nextSlot);
      hide Issue;
    } else if id in s.q.pubs && !Publishing(s.q.pubs[id]) {
    } else {
    }
  }

  lemma ExpireSpent(s: Engine, r: nat)
    requires s.work.pump.Expiring? && Spent(s.pool, r)
    ensures Spent(Expire(s).pool, r)
  {
    var timers := s.work.pump.timers;
    hide Emit;
    if timers == [] || s.pool.inUse >= s.config.slots {
    } else if timers[0] !in s.q.jfcs {
    } else {
      EmitSpent(TimerTaken(s, timers[0]), timers[0], s.pool.nextSlot, r);
    }
  }

  lemma StepSpent(s: Engine, a: Action, r: nat)
    requires Safe(s) && Enabled(s, a) && Next(s, a).Some? && Spent(s.pool, r)
    ensures Spent(Next(s, a).value.pool, r)
  {
    if a.AReadDone? || a.AWriteDone? || a.ARelease? {
      hide Safe, Enabled, Next;
      FlightSpent(s, a, r);
    } else if a.ADeliver? || a.AEventWritten? || a.AInterrupted? {
      hide Safe, Enabled, Next;
      EventSpent(s, a, r);
    } else if a.AAdmit? {
      hide Safe, Admit;
      AdmitSpent(s, r);
    } else if a.AExpire? {
      hide Safe, Expire;
      ExpireSpent(s, r);
    } else {
      hide Safe, CeqBusy, JfcBusy, Reported, Moves, Queue;
    }
  }

  lemma {:induction false} FreedIsSpent(config: Config, acts: seq<Action>, i: nat, r: nat)
    requires Run(config, acts).At? && i < |acts| && acts[i] == AFree(r)
    ensures Spent(Run(config, acts).s.pool, r)
  {
    var before := acts[..|acts| - 1];
    RunSafe(config, before);
    var s := Run(config, before).s;
    if i == |acts| - 1 {
      assert Safe(s) && Enabled(s, AFree(r));
      hide Safe;
      assert r < s.pool.nextSlot by {
        Numbering(s, r);
      }
    } else {
      FreedIsSpent(config, before, i, r);
      hide Safe, Next, Enabled;
      StepSpent(s, acts[|acts| - 1], r);
    }
  }

  lemma Numbering(s: Engine, r: nat)
    requires Safe(s) && r in s.pool.owners
    ensures r < s.pool.nextSlot
  {
    assert Numbered(s.pool.owners, s.q.pubs, s.pool.nextSlot);
  }

  /** No reservation is released twice. */
  lemma ReleasedOnce(config: Config, acts: seq<Action>, i: nat, j: nat, r: nat)
    requires Run(config, acts).At? && i < j < |acts| && acts[i] == AFree(r)
    ensures acts[j] != AFree(r)
  {
    PrefixRuns(config, acts, j + 1);
    var before := acts[..j];
    assert acts[..j + 1][..j] == before;
    FreedIsSpent(config, before, i, r);
    hide Next;
  }

  lemma {:induction false} PrefixRuns(config: Config, acts: seq<Action>, n: nat)
    requires Run(config, acts).At? && n <= |acts|
    ensures Run(config, acts[..n]).At?
    decreases |acts|
  {
    hide Next, Enabled;
    if n == |acts| {
      assert acts[..n] == acts;
    } else {
      PrefixRuns(config, acts[..|acts| - 1], n);
      assert acts[..|acts| - 1][..n] == acts[..n];
    }
  }

  // ------------------------------------------------------------------ wakeups

  /** When the outermost call of the work pump returns, a queue with pending publications waits for a slot,
      for its serial predecessor, for its context or for room in its ring.  There are two exceptions: a fresh
      consumer index made room while no pump was coming by, and a publication is in flight that will run the pump;
      or the context of the queue was created while no pump was coming by; and nobody has looked since.  And an
      expired timer waits for a slot. */
  lemma NoLostWakeup(config: Config, acts: seq<Action>, s: Engine)
    requires Run(config, acts) == At(s) && s.work.pump.Idle?
    ensures forall id :: id in s.q.pubs && s.q.pubs[id].pending > 0 ==>
                           || Blocked(s, id)
                           || (Broken(config, acts, Admission(id)) && s.q.pubs[id].flights != map[])
                           || Broken(config, acts, Progress(id))
    ensures forall id :: id in s.q.jfcs && Expired(s.q.jfcs[id], s.now) ==> s.pool.inUse == config.slots
  {
    RunAwake(config, acts);
    RunSafe(config, acts);
    hide Run, Broken;
    forall id | id in s.q.pubs && s.q.pubs[id].pending > 0 && !Blocked(s, id)
      ensures (Broken(config, acts, Admission(id)) && s.q.pubs[id].flights != map[])
              || Broken(config, acts, Progress(id))
    {
      StandsUnlessBroken(config, acts, Admission(id));
      StandsUnlessBroken(config, acts, Progress(id));
      assert Counted(s.config.pipelined, s.q.pubs[id]);
      assert s.q.pubs[id].flights == map[] ==> |s.q.pubs[id].flights| == 0;
    }
    forall id | id in s.q.jfcs && Expired(s.q.jfcs[id], s.now)
      ensures s.pool.inUse == config.slots
    {
      assert Timely(s, id);
      assert Slots(s.pool.owners, s.pool.inUse, s.config.slots);
    }
  }

  /** So at rest, a queue with pending publications has one in flight that will run the pump, or waits for
      a slot that somebody holds, or for its context.  The only exception is a context that was created while no
      pump was coming by, if nobody has looked since. */
  lemma SomethingWillWakeIt(config: Config, acts: seq<Action>, s: Engine, id: u32)
    requires Run(config, acts) == At(s) && s.work.pump.Idle? && id in s.q.pubs && s.q.pubs[id].pending > 0
    ensures s.q.pubs[id].flights != map[] || (s.pool.inUse == config.slots && |s.pool.owners| == config.slots)
            || (config.pipelined && id !in s.q.jfcs) || Broken(config, acts, Progress(id))
  {
    RunAwake(config, acts);
    RunSafe(config, acts);
    hide Run, Broken;
    StandsUnlessBroken(config, acts, Progress(id));
    assert Counted(s.config.pipelined, s.q.pubs[id]);
    assert Slots(s.pool.owners, s.pool.inUse, s.config.slots);
    assert s.q.pubs[id].flights == map[] ==> |s.q.pubs[id].flights| == 0;
  }

  // ------------------------------------------------------------------ event queues

  /** In every reachable state, with `d = producer - consumer` modulo 2^32: `d <= depth`; while an entry is
      being written `d < depth`; and an early report names exactly the entry being written. */
  lemma CreditsHold(config: Config, acts: seq<Action>, s: Engine, id: u32)
    requires Run(config, acts) == At(s) && id in s.ev.ceqs
    ensures var c := s.ev.ceqs[id];
            && (c.producer - c.consumer) % WORD <= c.depth
            && (BeingWritten(s.ev.active, id) ==> (c.producer - c.consumer) % WORD < c.depth)
            && (c.early.Some? ==> BeingWritten(s.ev.active, id) && c.early.value == (c.producer + 1) % WORD)
  {
    RunSafe(config, acts);
    hide Run;
    assert Credit(s.ev.ceqs[id], BeingWritten(s.ev.active, id));
  }

  /** What the guest may have consumed: `d` entries beyond the cached consumer. */
  predicate Consumable(c: Ceq, reserved: bool, d: nat) { d <= Outstanding(c) + if reserved then 1 else 0 }

  /** Position `d` reads as `report` in 24 bits. */
  predicate ReadsAs(c: Ceq, d: nat, report: nat) { (c.consumer + d) % WORD % REPORT == report }

  lemma OneReading(c: Ceq, reserved: bool, report: nat, d: nat)
    requires Credit(c, reserved) && report < REPORT && d < REPORT
    ensures ReadsAs(c, d, report) <==> d == Moves(c, report)
  {
    Residue(c.consumer, d);
    hide Outstanding, Credit;
  }

  lemma ReportMeans(c: Ceq, reserved: bool, report: nat)
    requires Credit(c, reserved) && report < REPORT && !c.fault && Consumable(c, reserved, Moves(c, report))
    ensures var v := (c.consumer + Moves(c, report)) % WORD;
            Reported(c, report, reserved) ==
            if v == (c.producer + 1) % WORD then c.(early := Some(v)) else c.(consumer := v)
  {
    var m := Moves(c, report);
    if m <= Outstanding(c) {
      hide Moves;
      assert (c.consumer + m) % WORD != (c.producer + 1) % WORD;
    } else {
      hide Moves;
      assert (c.consumer + m) % WORD == (c.producer + 1) % WORD;
    }
  }

  /** A 24-bit report is taken if and only if it is the residue of a position the guest can have reached,
      and that position is unique.  The consumer moves there at once, or, if that is past the entry still
      being written, when the write is acknowledged. */
  lemma ReportsAreUnambiguous(c: Ceq, reserved: bool, report: nat)
    requires Credit(c, reserved) && report < REPORT && !c.fault
    ensures (exists d: nat :: Consumable(c, reserved, d) && ReadsAs(c, d, report))
            <==> Consumable(c, reserved, Moves(c, report))
    ensures forall d: nat :: Consumable(c, reserved, d) && ReadsAs(c, d, report) ==> d == Moves(c, report)
    ensures !Consumable(c, reserved, Moves(c, report)) ==> Reported(c, report, reserved) == c
    ensures Consumable(c, reserved, Moves(c, report)) ==>
              var v := (c.consumer + Moves(c, report)) % WORD;
              Reported(c, report, reserved) ==
              if v == (c.producer + 1) % WORD then c.(early := Some(v)) else c.(consumer := v)
  {
    OneReading(c, reserved, report, Moves(c, report));
    forall d: nat | Consumable(c, reserved, d) && ReadsAs(c, d, report)
      ensures d == Moves(c, report)
    {
      OneReading(c, reserved, report, d);
    }
    hide Moves, Outstanding, Credit, ReadsAs;
    if Consumable(c, reserved, Moves(c, report)) {
      ReportMeans(c, reserved, report);
    }
  }

  lemma Residue(consumer: u32, d: nat)
    ensures (consumer + d) % WORD % REPORT == (consumer + d) % REPORT
  {
    var x := consumer + d;
    assert x == x / WORD * WORD + x % WORD;
    assert x / WORD * WORD == x / WORD * 256 * REPORT;
    AddMultiple(x % WORD, x / WORD * 256, REPORT);
  }

  /** Each event queue is served in the order its events were accepted.  And while nothing is being
      delivered, an event that waits belongs to a queue that is full or faulted, whatever other queues hold; or to
      one that was created again just then, and nobody has looked since. */
  lemma NoHeadOfLineBlocking(config: Config, acts: seq<Action>, s: Engine)
    requires Run(config, acts) == At(s)
    ensures forall ceq :: Of(s.log.dispatched, ceq) <= Of(s.log.accepted, ceq)
    ensures s.ev.active.None? && !s.ev.dispatching && s.debt.owed == 0 ==>
              forall i :: 0 <= i < |s.ev.queue| ==>
                            || Broken(config, acts, Delivery(s.ev.queue[i].ceq))
                            || (&& s.ev.queue[i].ceq in s.ev.ceqs
                                && var c := s.ev.ceqs[s.ev.queue[i].ceq]; c.fault || Outstanding(c) == c.depth)
  {
    RunInOrder(config, acts);
    RunSafe(config, acts);
    hide Run, Broken;
    forall ceq
      ensures Of(s.log.dispatched, ceq) <= Of(s.log.accepted, ceq)
    {
      assert Of(s.log.accepted, ceq) == Of(s.log.dispatched, ceq) + Of(s.ev.queue, ceq);
    }
    if s.ev.active.None? && !s.ev.dispatching && s.debt.owed == 0 {
      forall i | 0 <= i < |s.ev.queue| && !Broken(config, acts, Delivery(s.ev.queue[i].ceq))
        ensures s.ev.queue[i].ceq in s.ev.ceqs
                && var c := s.ev.ceqs[s.ev.queue[i].ceq]; c.fault || Outstanding(c) == c.depth
      {
        var id := s.ev.queue[i].ceq;
        StandsUnlessBroken(config, acts, Delivery(id));
        assert WaitsFor(s, i, id);
        assert !Eligible(s.ev.ceqs, s.ev.queue[i]);
        assert id in s.ev.ceqs ==> Credit(s.ev.ceqs[id], BeingWritten(s.ev.active, id));
      }
    }
  }

  // ------------------------------------------------------------------ destroys

  /** No interleaving makes a callback look up a queue that is gone, or take a counter below zero; and
      whatever is in flight finds its context. */
  lemma NothingOutlivesItsQueue(config: Config, acts: seq<Action>)
    ensures !Run(config, acts).Thrown?
    ensures Run(config, acts).At? ==>
              var s := Run(config, acts).s;
              && (forall id, r :: id in s.q.pubs && r in s.q.pubs[id].flights && !s.q.pubs[id].flights[r].Finishing? ==>
                                    id in s.q.jfcs)
              && (s.ev.active.Some? ==>
                        s.ev.active.value.event.ceq in s.ev.ceqs && s.ev.active.value.event.jfc in s.q.jfcs)
  {
    RunSafe(config, acts);
    if Run(config, acts).At? {
      var s := Run(config, acts).s;
      hide Run;
      forall id, r | id in s.q.pubs && r in s.q.pubs[id].flights && !s.q.pubs[id].flights[r].Finishing?
        ensures id in s.q.jfcs
      {
        assert UsesContext(s.q.pubs, id, r);
      }
    }
  }

  /** While the command queue is busy exactly one callback is outstanding for it or one destroy is parked, and
      while it is not, none is: so of all the destroys of event, completion, send and receive queues at most one
      is deferred, and no other command is looked at meanwhile. */
  lemma OneCommandAtATime(config: Config, acts: seq<Action>, s: Engine)
    requires Run(config, acts) == At(s)
    ensures s.cmd.ring.fetching + s.cmd.ring.working + s.cmd.ring.answering + One(s.cmd.load.Some?)
            + One(s.cmd.parkedCeq.Some?) + One(s.cmd.parkedJfc.Some?) + One(s.cmd.ring.parkedAeq)
            + One(s.cmd.ring.parkedQueue.Some?) == One(s.cmd.ring.busy)
  {
    RunSafe(config, acts);
    hide Run;
    assert OneCommand(s.cmd, s.q.jfcs);
  }

  /** A destroy takes a JFC away only when no publication, event or timer refers to it. */
  lemma JfcDestroyedWhenUnused(config: Config, acts: seq<Action>, s: Engine, a: Action, id: u32)
    requires Run(config, acts) == At(s) && Enabled(s, a) && Next(s, a).Some?
    requires id in s.q.jfcs && id !in Next(s, a).value.q.jfcs
    ensures a == ADestroyJfc(id) || (a.ACheckJfc? && s.cmd.parkedJfc == Some(id))
    ensures id in s.q.pubs ==> s.q.pubs[id].pending == 0 && s.q.pubs[id].flights == map[]
    ensures forall i :: 0 <= i < |s.ev.queue| ==> s.ev.queue[i].jfc != id
    ensures s.ev.active.Some? ==> s.ev.active.value.event.jfc != id
    ensures !TimerBusy(s, id)
  {
    RunSafe(config, acts);
    hide Run;
    OnlyDestroysRemoveJfc(s, a, id);
    JfcUnused(s, id);
    assert id in s.q.pubs ==> Counted(s.config.pipelined, s.q.pubs[id]);
    assert id in s.q.pubs && |s.q.pubs[id].flights| == 0 ==> s.q.pubs[id].flights == map[];
  }

  lemma OnlyDestroysRemoveJfc(s: Engine, a: Action, id: u32)
    requires Safe(s) && Enabled(s, a) && Next(s, a).Some? && id in s.q.jfcs && id !in Next(s, a).value.q.jfcs
    ensures !JfcBusy(s, id)
    ensures a == ADestroyJfc(id) || (a.ACheckJfc? && s.cmd.parkedJfc == Some(id))
  {
    hide Safe, JfcBusy, CeqBusy, Committed, Emit, NoRoom, Blocked, FirstEligible, Reported, Moves;
    if a.AAdmit? {
      AdmitKeepsJfcs(s);
    } else if a.AExpire? {
      ExpireKeepsJfcs(s);
    } else if a.AWriteDone? {
      WriteDoneKeepsJfcs(s, a.id, a.r, a.ok);
    }
  }

  lemma AdmitKeepsJfcs(s: Engine)
    requires s.work.pump.Admitting?
    ensures Admit(s).q.jfcs.Keys == s.q.jfcs.Keys
  {
    hide Blocked;
    if s.work.pump.more && Admits(s, s.work.pump.id) {
      IssueView(Reserving(s, s.work.pump.id, s.work.pump.ids), s.work.pump.id, s.pool.nextSlot);
      hide Issue;
    }
  }

  lemma ExpireKeepsJfcs(s: Engine)
    requires s.work.pump.Expiring?
    ensures Expire(s).q.jfcs.Keys == s.q.jfcs.Keys
  {
    var timers := s.work.pump.timers;
    hide Emit;
    if timers == [] || s.pool.inUse >= s.config.slots {
    } else if timers[0] !in s.q.jfcs {
    } else {
      EmitView(TimerTaken(s, timers[0]), timers[0], s.pool.nextSlot);
    }
  }

  lemma WriteDoneKeepsJfcs(s: Engine, id: u32, r: nat, ok: bool)
    requires id in s.q.pubs
    ensures WriteDone(s, id, r, ok).q.jfcs.Keys == s.q.jfcs.Keys
  {
    hide Emit, Committed;
    if id !in s.q.jfcs || (s.config.pipelined && s.q.jfcs[id].writing == 0) {
    } else {
      var (j, verdict) := Committed(s.q.jfcs[id], s.config.pipelined, ok, s.now);
      if verdict.Due? {
        EmitView(s.(q := s.q.(jfcs := s.q.jfcs[id := j], pubs := WithFlight(s.q.pubs, id, r, Finishing(false)))), id,
                 r);
      }
    }
  }

  /** A destroy takes an event queue away only when no event is queued or active for it and no JFC that
      reports to it has a publication or a timer. */
  lemma CeqDestroyedWhenUnused(config: Config, acts: seq<Action>, s: Engine, a: Action, id: u32)
    requires Run(config, acts) == At(s) && Enabled(s, a) && Next(s, a).Some?
    requires id in s.ev.ceqs && id !in Next(s, a).value.ev.ceqs
    ensures a == ADestroyCeq(id) || (a.ACheckCeq? && s.cmd.parkedCeq == Some(id))
    ensures forall i :: 0 <= i < |s.ev.queue| ==> s.ev.queue[i].ceq != id
    ensures s.ev.active.Some? ==> s.ev.active.value.event.ceq != id
    ensures forall jfc :: jfc in s.q.ceqOf && s.q.ceqOf[jfc] == id ==> !PubBusy(s, jfc) && !TimerBusy(s, jfc)
  {
    hide Run;
    OnlyDestroysRemoveCeq(s, a, id);
    forall jfc | jfc in s.q.ceqOf && s.q.ceqOf[jfc] == id
      ensures !PubBusy(s, jfc) && !TimerBusy(s, jfc)
    {
      assert !QueueOnCeq(s, jfc, id);
    }
  }

  lemma OnlyDestroysRemoveCeq(s: Engine, a: Action, id: u32)
    requires Enabled(s, a) && Next(s, a).Some? && id in s.ev.ceqs && id !in Next(s, a).value.ev.ceqs
    ensures !CeqBusy(s, id)
    ensures a == ADestroyCeq(id) || (a.ACheckCeq? && s.cmd.parkedCeq == Some(id))
  {
    hide JfcBusy, CeqBusy, Committed, Emit, NoRoom, Blocked, FirstEligible, Reported, Moves;
    if a.AAdmit? {
      AdmitKeepsCeqs(s);
    } else if a.AExpire? {
      ExpireKeepsCeqs(s);
    } else if a.AWriteDone? {
      WriteDoneKeepsCeqs(s, a.id, a.r, a.ok);
    }
  }

  lemma EmitKeepsCeqs(s: Engine, id: u32, r: nat)
    ensures Emit(s, id, r).ev.ceqs == s.ev.ceqs
  {
    if Silent(s, id) {
    } else {
    }
  }

  lemma AdmitKeepsCeqs(s: Engine)
    requires s.work.pump.Admitting?
    ensures Admit(s).ev.ceqs == s.ev.ceqs
  {
    hide Blocked;
    if s.work.pump.more && Admits(s, s.work.pump.id) {
      IssueHolds(Reserving(s, s.work.pump.id, s.work.pump.ids), s.work.pump.id, s.pool.nextSlot);
      hide Issue;
    }
  }

  lemma ExpireKeepsCeqs(s: Engine)
    requires s.work.pump.Expiring?
    ensures Expire(s).ev.ceqs == s.ev.ceqs
  {
    var timers := s.work.pump.timers;
    hide Emit;
    if timers == [] || s.pool.inUse >= s.config.slots {
    } else if timers[0] !in s.q.jfcs {
    } else {
      EmitKeepsCeqs(TimerTaken(s, timers[0]), timers[0], s.pool.nextSlot);
    }
  }

  lemma WriteDoneKeepsCeqs(s: Engine, id: u32, r: nat, ok: bool)
    requires id in s.q.pubs
    ensures WriteDone(s, id, r, ok).ev.ceqs == s.ev.ceqs
  {
    hide Emit, Committed;
    if id !in s.q.jfcs || (s.config.pipelined && s.q.jfcs[id].writing == 0) {
    } else {
      var (j, verdict) := Committed(s.q.jfcs[id], s.config.pipelined, ok, s.now);
      if verdict.Due? {
        EmitKeepsCeqs(s.(q := s.q.(jfcs := s.q.jfcs[id := j], pubs := WithFlight(s.q.pubs, id, r, Finishing(false)))),
                      id, r);
      }
    }
  }

  /** Nothing of the engine itself is running or about to run. */
  predicate AtRest(s: Engine) { s.work.pump.Idle? && !s.ev.dispatching && s.debt == Debts(0, 0, 0) }

  /** At rest, a parked destroy still has something to wait for, unless notifications are one-shot and a timer
      of its resource was the last to hold it when it ran out silently; since then nobody has looked. */
  lemma ParkedMeansBusy(config: Config, acts: seq<Action>, s: Engine)
    requires Run(config, acts) == At(s) && AtRest(s)
    ensures || (&& (s.cmd.parkedJfc.Some? ==> JfcBusy(s, s.cmd.parkedJfc.value))
                && (s.cmd.parkedCeq.Some? ==> CeqBusy(s, s.cmd.parkedCeq.value)))
            || (config.oneShot && Broken(config, acts, Destruction))
  {
    hide Run, Safe, Awake, Broken, JfcBusy, CeqBusy;
    RunAwake(config, acts);
    StandsUnlessBroken(config, acts, Destruction);
    if Watched(s) {
      WatchedAtRest(s);
    } else {
      OneShotOnly(config, acts);
    }
  }

  lemma WatchedAtRest(s: Engine)
    requires Watched(s) && Awake(s) && AtRest(s)
    ensures s.cmd.parkedJfc.Some? ==> JfcBusy(s, s.cmd.parkedJfc.value)
    ensures s.cmd.parkedCeq.Some? ==> CeqBusy(s, s.cmd.parkedCeq.value)
  {
    hide JfcBusy, CeqBusy;
    assert forall id :: !Soon(s, id);
    assert forall jfc, id :: !SoonOn(s, jfc, id);
  }

  /** Only one-shot notifications leave a destroy behind. */
  lemma OneShotOnly(config: Config, acts: seq<Action>)
    requires Broken(config, acts, Destruction)
    ensures config.oneShot
  {
    hide Run, Safe, Watched, Fires;
    var n: nat :| BrokenAt(config, acts, n, Destruction);
    RunSafe(config, acts[..n]);
  }
}
