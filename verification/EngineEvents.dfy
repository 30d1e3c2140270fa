/** Notifications: each event queue gets its events in the order they were accepted, and a queue without
    credit holds up nobody else. */
module EngineEvents {
  import opened Cq
  import opened Engine
  import opened EngineInv
  import opened EngineProof
  import opened Optional
  import opened Words

  // ------------------------------------------------------------------ order

  /** The events of one event queue. */
  function Of(events: seq<Event>, ceq: u32): seq<Event> {
    if events == [] then []
    else
      var front := Of(events[..|events| - 1], ceq);
      if events[|events| - 1].ceq == ceq then front + [events[|events| - 1]] else front
  }

  lemma OfAppend(events: seq<Event>, e: Event, ceq: u32)
    ensures Of(events + [e], ceq) == if e.ceq == ceq then Of(events, ceq) + [e] else Of(events, ceq)
  {
    assert (events + [e])[..|events|] == events;
  }

  lemma {:induction false} OfConcat(a: seq<Event>, b: seq<Event>, ceq: u32)
    ensures Of(a + b, ceq) == Of(a, ceq) + Of(b, ceq)
  {
    if b == [] {
      assert a + b == a;
    } else {
      var b' := b[..|b| - 1];
      OfConcat(a, b', ceq);
      OfAppend(a + b', b[|b| - 1], ceq);
      assert a + b == a + b' + [b[|b| - 1]];
    }
  }

  lemma {:induction false} OfNone(events: seq<Event>, ceq: u32)
    requires forall i :: 0 <= i < |events| ==> events[i].ceq != ceq
    ensures Of(events, ceq) == []
  {
    if events != [] {
      OfNone(events[..|events| - 1], ceq);
    }
  }

  lemma OfMiddle(before: seq<Event>, e: Event, after: seq<Event>, ceq: u32)
    requires e.ceq == ceq ==> Of(before, ceq) == []
    ensures Of(before + [e] + after, ceq) ==
            if e.ceq == ceq then [e] + Of(before + after, ceq) else Of(before + after, ceq)
  {
    hide Of;
    OfConcat(before + [e], after, ceq);
    OfAppend(before, e, ceq);
    OfConcat(before, after, ceq);
    if e.ceq == ceq {
      Shift([], e, Of(after, ceq));
      assert [] + Of(after, ceq) == Of(after, ceq);
    }
  }

  /** Taking the first event of its queue leaves the order of every queue as it was. */
  lemma OfTake(events: seq<Event>, i: nat, ceq: u32)
    requires i < |events| && forall j :: 0 <= j < i ==> events[j].ceq != events[i].ceq
    ensures var rest := Of(events[..i] + events[i + 1..], ceq);
            Of(events, ceq) == if events[i].ceq == ceq then [events[i]] + rest else rest
  {
    if events[i].ceq == ceq {
      OfNone(events[..i], ceq);
    }
    hide Of;
    OfMiddle(events[..i], events[i], events[i + 1..], ceq);
    assert events[..i] + [events[i]] + events[i + 1..] == events;
  }

  lemma Shift(a: seq<Event>, e: Event, b: seq<Event>)
    ensures a + [e] + b == a + ([e] + b)
  {
  }

  /** Per event queue: what was accepted is what was delivered followed by what still waits. */
  ghost predicate InOrder(s: Engine) {
    forall ceq {:trigger Of(s.ev.queue, ceq)} ::
      Of(s.log.accepted, ceq) == Of(s.log.dispatched, ceq) + Of(s.ev.queue, ceq)
  }

  lemma EmitOrder(s: Engine, id: u32, r: nat)
    requires InOrder(s)
    ensures InOrder(Emit(s, id, r))
  {
    if Silent(s, id) {
      assert Emit(s, id, r).ev == s.ev;
    } else {
      var e := Event(id, s.q.ceqOf[id], r);
      var t := Emit(s, id, r);
      forall ceq
        ensures Of(t.log.accepted, ceq) == Of(t.log.dispatched, ceq) + Of(t.ev.queue, ceq)
      {
        OfAppend(s.log.accepted, e, ceq);
        OfAppend(s.ev.queue, e, ceq);
        assert Of(s.log.accepted, ceq) == Of(s.log.dispatched, ceq) + Of(s.ev.queue, ceq);
      }
    }
  }

  lemma DeliverOrder(s: Engine)
    requires InOrder(s) && s.ev.dispatching
    ensures InOrder(Deliver(s))
  {
    var i := FirstEligible(s.ev.ceqs, s.ev.queue, 0);
    if s.ev.active.Some? || i == |s.ev.queue| {
      assert Deliver(s).ev.queue == s.ev.queue;
    } else {
      FirstOfItsQueue(s.ev.ceqs, s.ev.queue);
      TakeOrder(s, i, Deliver(s));
    }
  }

  /** Eligibility is a property of the event queue, so the first eligible event is the first of its queue. */
  lemma FirstOfItsQueue(ceqs: map<u32, Ceq>, events: seq<Event>)
    ensures var i := FirstEligible(ceqs, events, 0);
            i < |events| ==> forall j :: 0 <= j < i ==> events[j].ceq != events[i].ceq
  {
  }

  lemma TakeOrder(s: Engine, i: nat, t: Engine)
    requires InOrder(s) && i < |s.ev.queue| && forall j :: 0 <= j < i ==> s.ev.queue[j].ceq != s.ev.queue[i].ceq
    requires t.log.accepted == s.log.accepted && t.log.dispatched == s.log.dispatched + [s.ev.queue[i]]
    requires t.ev.queue == s.ev.queue[..i] + s.ev.queue[i + 1..]
    ensures InOrder(t)
  {
    var e := s.ev.queue[i];
    hide Of;
    forall ceq
      ensures Of(t.log.accepted, ceq) == Of(t.log.dispatched, ceq) + Of(t.ev.queue, ceq)
    {
      OfTake(s.ev.queue, i, ceq);
      OfAppend(s.log.dispatched, e, ceq);
      Shift(Of(s.log.dispatched, ceq), e, Of(t.ev.queue, ceq));
      assert Of(s.log.accepted, ceq) == Of(s.log.dispatched, ceq) + Of(s.ev.queue, ceq);
    }
  }

  // ------------------------------------------------------------------ no event waits without a reason

  predicate WaitsFor(s: Engine, i: int, id: u32) { 0 <= i < |s.ev.queue| && s.ev.queue[i].ceq == id }

  /** Whatever waits for event queue `id` has no credit, or something is being delivered, or somebody is about to
      look. */
  ghost predicate Attended(s: Engine, id: u32) {
    || s.ev.active.Some? || s.ev.dispatching || s.debt.owed > 0
    || (forall i :: WaitsFor(s, i, id) ==> !Eligible(s.ev.ceqs, s.ev.queue[i]))
  }

  /** Event queue `id` is created while events wait for it, nothing is being delivered and nobody is about to
      look. */
  ghost predicate Unblocks(s: Engine, a: Action, id: u32) {
    && a.ALoadCeq? && a.ok && a.shift < 18 && id <= 255 && s.cmd.load == Some(NewCeq(id))
    && s.ev.active.None? && !s.ev.dispatching && s.debt.owed == 0 && exists i :: WaitsFor(s, i, id)
  }

  /** What a step promises: the order of every queue is kept, and a queue is left alone only as said. */
  ghost predicate UnblocksOnly(s: Engine, a: Action, t: Engine) {
    && InOrder(t)
    && (forall id {:trigger Attended(t, id)} {:trigger Unblocks(s, a, id)} ::
          Attended(s, id) ==> (Attended(t, id) <==> !Unblocks(s, a, id)))
  }

  /** A step of another kind keeps both. */
  ghost predicate Attends(s: Engine, t: Engine) {
    InOrder(t) && forall id {:trigger Attended(t, id)} :: Attended(s, id) ==> Attended(t, id)
  }

  lemma AttendsOnward(s: Engine, u: Engine, t: Engine)
    requires Attends(s, u) && Attends(u, t)
    ensures Attends(s, t)
  {
    hide InOrder, Attended;
    forall id | Attended(s, id)
      ensures Attended(t, id)
    {
      assert Attended(u, id);
    }
  }

  predicate SameEvents(s: Engine, t: Engine) {
    t.ev == s.ev && t.debt.owed == s.debt.owed && t.log == s.log
  }

  lemma SameAttends(s: Engine, t: Engine)
    requires InOrder(s) && SameEvents(s, t)
    ensures Attends(s, t)
  {
    forall id | Attended(s, id)
      ensures Attended(t, id)
    {
      assert forall i :: WaitsFor(t, i, id) ==> WaitsFor(s, i, id);
    }
  }

  /** Something is being delivered, or somebody is about to look. */
  lemma LookedAfter(s: Engine, t: Engine)
    requires InOrder(t) && (t.ev.active.Some? || t.ev.dispatching || t.debt.owed > 0)
    ensures Attends(s, t)
  {
  }

  lemma EmitAttends(s: Engine, id: u32, r: nat)
    requires InOrder(s)
    ensures Attends(s, Emit(s, id, r))
  {
    EmitOrder(s, id, r);
    hide InOrder;
    if Silent(s, id) {
      forall x | Attended(s, x)
        ensures Attended(Emit(s, id, r), x)
      {
        assert forall i :: WaitsFor(Emit(s, id, r), i, x) ==> WaitsFor(s, i, x);
      }
    } else {
      LookedAfter(s, Emit(s, id, r));
    }
  }

  /** The search ends only when nothing that waits has credit. */
  lemma DeliverAttends(s: Engine)
    requires InOrder(s) && s.ev.dispatching
    ensures Attends(s, Deliver(s))
  {
    DeliverOrder(s);
    hide InOrder;
    var i := FirstEligible(s.ev.ceqs, s.ev.queue, 0);
    if s.ev.active.Some? {
    } else if i == |s.ev.queue| {
    } else if s.ev.queue[i].ceq !in s.ev.ceqs {
    } else {
    }
  }

  lemma ReportAttends(s: Engine, id: u32, report: nat)
    requires InOrder(s)
    ensures Attends(s, Report(s, id, report))
  {
    assert Report(s, id, report).ev.queue == s.ev.queue && Report(s, id, report).log == s.log;
    hide Of;
    if id in s.ev.ceqs {
      var c := s.ev.ceqs[id];
      hide Reported;
      if c.fault || Moves(c, report) > Outstanding(c) + (if BeingWritten(s.ev.active, id) then 1 else 0) {
      } else {
        LookedAfter(s, Report(s, id, report));
      }
    }
  }

  lemma CeqGone(s: Engine, t: Engine, id: u32)
    requires InOrder(s) && !CeqBusy(s, id) && t.ev == s.ev.(ceqs := s.ev.ceqs - {id})
    requires t.debt.owed == s.debt.owed && t.log == s.log
    ensures Attends(s, t)
  {
    hide Of;
    forall x | Attended(s, x)
      ensures Attended(t, x)
    {
      assert forall i :: WaitsFor(t, i, x) ==> WaitsFor(s, i, x) && x != id;
    }
  }

  lemma WriteDoneAttends(s: Engine, id: u32, r: nat, ok: bool)
    requires InOrder(s) && id in s.q.pubs
    ensures Attends(s, WriteDone(s, id, r, ok))
  {
    hide InOrder, Attended, Committed, Emit;
    if id !in s.q.jfcs || (s.config.pipelined && s.q.jfcs[id].writing == 0) {
      SameAttends(s, WriteDone(s, id, r, ok));
    } else {
      var (j, verdict) := Committed(s.q.jfcs[id], s.config.pipelined, ok, s.now);
      if verdict.Due? {
        var u := s.(q := s.q.(jfcs := s.q.jfcs[id := j], pubs := WithFlight(s.q.pubs, id, r, Finishing(false))));
        SameAttends(s, u);
        EmitAttends(u, id, r);
        AttendsOnward(s, u, Emit(u, id, r));
      } else {
        SameAttends(s, WriteDone(s, id, r, ok));
      }
    }
  }

  lemma ExpireAttends(s: Engine)
    requires InOrder(s) && s.work.pump.Expiring?
    ensures Attends(s, Expire(s))
  {
    hide InOrder, Attended, Emit;
    var timers := s.work.pump.timers;
    if timers == [] || s.pool.inUse >= s.config.slots {
      SameAttends(s, Expire(s));
    } else if timers[0] !in s.q.jfcs {
      SameAttends(s, Expire(s));
    } else {
      var u := TimerTaken(s, timers[0]);
      SameAttends(s, u);
      EmitAttends(u, timers[0], s.pool.nextSlot);
      AttendsOnward(s, u, Expire(s));
    }
  }

  lemma IssueEvents(s: Engine, id: u32, r: nat)
    requires id in s.q.pubs
    ensures SameEvents(s, Issue(s, id, r))
  {
    hide NoRoom, Held;
    if id !in s.q.jfcs {
    } else if s.config.pipelined && Held(s.q.jfcs[id]) < s.q.jfcs[id].depth {
      if NoRoom(s.q.jfcs[id], Masked(s.q.jfcs[id].consumer)) {
      } else {
      }
    } else {
    }
  }

  lemma AdmitEvents(s: Engine)
    requires s.work.pump.Admitting?
    ensures SameEvents(s, Admit(s))
  {
    var id, ids := s.work.pump.id, s.work.pump.ids;
    hide Blocked;
    if s.work.pump.more && Admits(s, id) {
      IssueEvents(Reserving(s, id, ids), id, s.pool.nextSlot);
      hide Issue;
    }
  }

  lemma ReadDoneEvents(s: Engine, id: u32, r: nat, ok: bool, value: u32)
    requires id in s.q.pubs
    ensures SameEvents(s, ReadDone(s, id, r, ok, value))
  {
    hide NoRoom;
    if !ok || id !in s.q.jfcs {
    } else if NoRoom(s.q.jfcs[id], Masked(value)) {
    } else {
    }
  }

  lemma EnqueueEvents(s: Engine, id: u32)
    ensures SameEvents(s, Enqueue(s, id))
  {
    hide Queue;
  }

  lemma PumpAttends(s: Engine, a: Action)
    requires InOrder(s) && Enabled(s, a) && Next(s, a).Some?
    requires a.APost? || a.AAdvance? || a.AScan? || a.AExpire? || a.AGather? || a.AEnter? || a.AAdmit? || a.AFree?
             || a.AReadDone? || a.AWriteDone? || a.ARelease?
    ensures Attends(s, Next(s, a).value)
  {
    hide InOrder, Attends, Attended, Enqueue, Expire, Admit, WriteDone, ReadDone;
    if a.AExpire? {
      ExpireAttends(s);
    } else if a.AWriteDone? {
      WriteDoneAttends(s, a.id, a.r, a.ok);
    } else {
      if a.AAdmit? {
        AdmitEvents(s);
      } else if a.AReadDone? {
        ReadDoneEvents(s, a.id, a.r, a.ok, a.value);
      } else if a.APost? {
        EnqueueEvents(s, a.id);
      }
      SameAttends(s, Next(s, a).value);
    }
  }

  lemma EventAttends(s: Engine, a: Action)
    requires InOrder(s) && Enabled(s, a) && Next(s, a).Some?
    requires a.ADeliver? || a.AEventWritten? || a.AInterrupted? || a.AReturn? || a.AReport?
    ensures Attends(s, Next(s, a).value)
  {
    var t := Next(s, a).value;
    if a.ADeliver? {
      hide InOrder, Deliver;
      DeliverAttends(s);
    } else if a.AReport? {
      hide InOrder, Report;
      ReportAttends(s, a.id, a.report);
    } else {
      hide Acknowledged, Of, Attends;
      assert t.ev.queue == s.ev.queue && t.log == s.log;
      LookedAfter(s, t);
    }
  }

  lemma DestroyAttends(s: Engine, a: Action)
    requires InOrder(s) && Enabled(s, a) && (a.ADestroyCeq? || a.ACheckCeq?)
    ensures Attends(s, Next(s, a).value)
  {
    var t := Next(s, a).value;
    hide CeqBusy, InOrder, Attends;
    if a.ADestroyCeq? && !CeqBusy(s, a.id) {
      CeqGone(s, t, a.id);
    } else if a.ACheckCeq? && s.cmd.parkedCeq.Some? && !CeqBusy(s, s.cmd.parkedCeq.value) {
      CeqGone(s, t, s.cmd.parkedCeq.value);
    } else {
      SameAttends(s, t);
    }
  }

  lemma OtherAttends(s: Engine, a: Action)
    requires InOrder(s) && Enabled(s, a) && Next(s, a).Some?
    requires a.AArm? || a.ADestroyJfc? || a.ACheckJfc? || a.ABegin? || a.ALoadJfc? || a.AQueried? || a.AModify?
             || a.ARing? || a.AMailboxEvent?
    ensures Attends(s, Next(s, a).value)
  {
    hide InOrder, Attends, CeqBusy, JfcBusy, JfcDepth, Masked, RingStep;
    if a.ACheckJfc? {
      SameAttends(s, CheckJfc(s));
    } else if a.ADestroyJfc? {
      SameAttends(s, DestroyJfc(s, a.id));
    } else if a.ALoadJfc? {
      SameAttends(s, LoadJfc(s, a.ok, a.shift, a.ceq, a.moderation, a.period));
    } else {
      SameAttends(s, Next(s, a).value);
    }
  }

  /** A new queue has credit, so whatever waits for it could be delivered. */
  lemma NewQueueSteps(s: Engine, a: Action)
    requires InOrder(s) && Enabled(s, a) && a.ALoadCeq?
    ensures UnblocksOnly(s, a, Next(s, a).value)
  {
    var t := Next(s, a).value;
    assert InOrder(t);
    hide InOrder;
    forall id | Attended(s, id)
      ensures Attended(t, id) <==> !Unblocks(s, a, id)
    {
      assert forall i :: WaitsFor(t, i, id) <==> WaitsFor(s, i, id);
      if Unblocks(s, a, id) {
        var i :| WaitsFor(s, i, id);
        assert WaitsFor(t, i, id) && Eligible(t.ev.ceqs, t.ev.queue[i]);
      }
    }
  }

  /** Every step keeps the order, and leaves an event with credit unattended if and only if it creates the event
      queue that the event waits for while nothing is being delivered and nobody is about to look. */
  lemma StepAttends(s: Engine, a: Action)
    requires InOrder(s) && Enabled(s, a) && Next(s, a).Some?
    ensures UnblocksOnly(s, a, Next(s, a).value)
  {
    hide InOrder, Enabled, Next, Attended, UnblocksOnly;
    if a.ALoadCeq? {
      NewQueueSteps(s, a);
    } else {
      PlainAttends(s, a);
    }
  }

  lemma PlainAttends(s: Engine, a: Action)
    requires InOrder(s) && Enabled(s, a) && Next(s, a).Some? && !a.ALoadCeq?
    ensures UnblocksOnly(s, a, Next(s, a).value)
  {
    hide InOrder, Enabled, Next, Attended;
    if a.ADeliver? || a.AEventWritten? || a.AInterrupted? || a.AReturn? || a.AReport? {
      EventAttends(s, a);
    } else if a.ADestroyCeq? || a.ACheckCeq? {
      DestroyAttends(s, a);
    } else if a.AArm? || a.ADestroyJfc? || a.ACheckJfc? || a.ABegin? || a.ALoadJfc? || a.AQueried? || a.AModify?
              || a.ARing? || a.AMailboxEvent? {
      OtherAttends(s, a);
    } else {
      PumpAttends(s, a);
    }
  }

  lemma {:induction false} RunInOrder(config: Config, acts: seq<Action>)
    requires Run(config, acts).At?
    ensures InOrder(Run(config, acts).s)
  {
    hide Next, Enabled;
    if acts == [] {
    } else {
      hide InOrder;
      RunInOrder(config, acts[..|acts| - 1]);
      StepAttends(Run(config, acts[..|acts| - 1]).s, acts[|acts| - 1]);
    }
  }
}
