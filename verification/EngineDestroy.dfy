/** Deferred destroys: a parked destroy is looked at again whenever its resource may have become idle. */
module EngineDestroy {
  import opened Cq
  import opened Engine
  import opened EngineInv
  import opened EngineProof
  import opened Optional
  import opened Words

  /** The pump will still look at queue `id`, and erase it if nothing is left of it. */
  predicate Visited(pump: Pump, id: u32) {
    match pump
    case Idle => false
    case Visiting(ids) => id in ids
    case Admitting(x, ids, _) => x == id || id in ids
    case _ => true
  }

  predicate Soon(s: Engine, id: u32) { id in s.q.pubs && (s.work.kick || Visited(s.work.pump, id)) }

  /** Somebody is about to look at parked destroys. */
  predicate Looking(s: Engine, checks: nat) { checks > 0 || s.debt.owed > 0 || s.ev.dispatching }

  predicate JfcWatched(s: Engine) {
    s.cmd.parkedJfc.Some? ==>
      var id := s.cmd.parkedJfc.value;
      JfcBusy(s, id) || Looking(s, s.debt.checksJfc) || Soon(s, id)
  }

  predicate SoonOn(s: Engine, jfc: u32, id: u32) { jfc in s.q.ceqOf && s.q.ceqOf[jfc] == id && Soon(s, jfc) }

  ghost predicate CeqWatched(s: Engine) {
    s.cmd.parkedCeq.Some? ==>
      var id := s.cmd.parkedCeq.value;
      CeqBusy(s, id) || Looking(s, s.debt.checksCeq) || exists jfc :: SoonOn(s, jfc, id)
  }

  ghost predicate Watched(s: Engine) { JfcWatched(s) && CeqWatched(s) }

  // ------------------------------------------------------------------ holding a resource

  /** What holds JFC `id`, apart from events: its publications, its timer or the pump on its way. */
  predicate Holds(s: Engine, id: u32) { PubBusy(s, id) || TimerBusy(s, id) || Soon(s, id) }

  predicate EventOf(s: Engine, e: Event) {
    (s.ev.active.Some? && s.ev.active.value.event == e) || e in s.ev.queue
  }

  /** Queue and timer keep hold, or an event takes over. */
  ghost predicate HoldsOn(s: Engine, t: Engine, id: u32) {
    Holds(s, id) ==>
              Holds(t, id) || (id in s.q.ceqOf && exists e :: EventOf(t, e) && e.jfc == id && e.ceq == s.q.ceqOf[id])
  }

  lemma EventIsBusy(s: Engine, e: Event)
    requires EventOf(s, e)
    ensures JfcBusy(s, e.jfc) && CeqBusy(s, e.ceq)
  {
    if e in s.ev.queue {
      var i :| 0 <= i < |s.ev.queue| && s.ev.queue[i] == e;
    }
  }

  lemma KeepJfc(s: Engine, t: Engine)
    requires JfcWatched(s) && t.cmd.parkedJfc == s.cmd.parkedJfc
    requires Looking(s, s.debt.checksJfc) ==> Looking(t, t.debt.checksJfc)
    requires s.cmd.parkedJfc.Some? ==> Looking(t, t.debt.checksJfc) || HoldsOn(s, t, s.cmd.parkedJfc.value)
    requires forall e :: EventOf(s, e) ==> EventOf(t, e) || Looking(t, t.debt.checksJfc)
    ensures JfcWatched(t)
  {
    hide EventOf, Looking, Soon;
    if s.cmd.parkedJfc.Some? && !Looking(t, t.debt.checksJfc) {
      var id := s.cmd.parkedJfc.value;
      if Holds(s, id) {
        if !Holds(t, id) {
          var e :| EventOf(t, e) && e.jfc == id;
          EventIsBusy(t, e);
        }
      } else {
        var e := BusyByEvent(s, id);
        EventIsBusy(t, e);
      }
    }
  }

  lemma BusyByEvent(s: Engine, id: u32) returns (e: Event)
    requires JfcBusy(s, id) && !PubBusy(s, id) && !TimerBusy(s, id)
    ensures EventOf(s, e) && e.jfc == id
  {
    if s.ev.active.Some? && s.ev.active.value.event.jfc == id {
      e := s.ev.active.value.event;
    } else {
      var i :| 0 <= i < |s.ev.queue| && s.ev.queue[i].jfc == id;
      e := s.ev.queue[i];
    }
  }

  lemma KeepCeq(s: Engine, t: Engine)
    requires CeqWatched(s) && t.cmd.parkedCeq == s.cmd.parkedCeq && t.q.ceqOf == s.q.ceqOf
    requires Looking(s, s.debt.checksCeq) ==> Looking(t, t.debt.checksCeq)
    requires forall id :: id in s.q.ceqOf && Some(s.q.ceqOf[id]) == s.cmd.parkedCeq ==>
                            Looking(t, t.debt.checksCeq) || HoldsOn(s, t, id)
    requires forall e :: EventOf(s, e) ==> EventOf(t, e) || Looking(t, t.debt.checksCeq)
    ensures CeqWatched(t)
  {
    hide EventOf, Looking, Soon;
    if s.cmd.parkedCeq.Some? && !Looking(t, t.debt.checksCeq) {
      var c := s.cmd.parkedCeq.value;
      if jfc :| QueueOnCeq(s, jfc, c) || SoonOn(s, jfc, c) {
        assert Holds(s, jfc);
        if Holds(t, jfc) {
          assert QueueOnCeq(t, jfc, c) || SoonOn(t, jfc, c);
        } else {
          var e :| EventOf(t, e) && e.jfc == jfc && e.ceq == s.q.ceqOf[jfc];
          EventIsBusy(t, e);
        }
      } else {
        var e := CeqBusyByEvent(s, c);
        EventIsBusy(t, e);
      }
    }
  }

  lemma CeqBusyByEvent(s: Engine, c: u32) returns (e: Event)
    requires CeqBusy(s, c) && forall jfc :: !QueueOnCeq(s, jfc, c)
    ensures EventOf(s, e) && e.ceq == c
  {
    if s.ev.active.Some? && s.ev.active.value.event.ceq == c {
      e := s.ev.active.value.event;
    } else {
      var i :| 0 <= i < |s.ev.queue| && s.ev.queue[i].ceq == c;
      e := s.ev.queue[i];
    }
  }

  /** Both at once, for a step that does not touch commands. */
  lemma KeepBoth(s: Engine, t: Engine)
    requires Watched(s) && t.cmd == s.cmd && t.q.ceqOf == s.q.ceqOf
    requires Looking(s, s.debt.checksJfc) ==> Looking(t, t.debt.checksJfc)
    requires Looking(s, s.debt.checksCeq) ==> Looking(t, t.debt.checksCeq)
    requires forall id {:trigger Refused(s, id)} :: Refused(s, id) ==>
               (Looking(t, t.debt.checksCeq) && Looking(t, t.debt.checksJfc)) || HoldsOn(s, t, id)
    requires forall e :: EventOf(s, e) ==>
                           EventOf(t, e) || (Looking(t, t.debt.checksCeq) && Looking(t, t.debt.checksJfc))
    ensures Watched(t)
  {
    hide EventOf, Looking, HoldsOn, JfcWatched, CeqWatched;
    assert s.cmd.parkedJfc.Some? ==> Refused(s, s.cmd.parkedJfc.value);
    forall id | id in s.q.ceqOf && Some(s.q.ceqOf[id]) == s.cmd.parkedCeq
      ensures Looking(t, t.debt.checksCeq) || HoldsOn(s, t, id)
    {
      assert Refused(s, id);
    }
    KeepJfc(s, t);
    KeepCeq(s, t);
  }

  // ------------------------------------------------------------------ steps

  /** Nothing that holds a resource changes. */
  lemma SameHolds(s: Engine, t: Engine)
    requires Watched(s) && t.cmd == s.cmd && t.q.ceqOf == s.q.ceqOf
    requires t.ev.queue == s.ev.queue && t.ev.active == s.ev.active && (s.ev.dispatching ==> t.ev.dispatching)
    requires t.debt.owed >= s.debt.owed && t.debt.checksCeq >= s.debt.checksCeq && t.debt.checksJfc >= s.debt.checksJfc
    requires forall id {:trigger Refused(s, id)} :: Refused(s, id) ==>
               (Looking(t, t.debt.checksCeq) && Looking(t, t.debt.checksJfc)) || (Holds(s, id) ==> Holds(t, id))
    ensures Watched(t)
  {
    hide JfcWatched, CeqWatched, Holds;
    KeepBoth(s, t);
  }

  lemma PumpMoves(s: Engine, t: Engine)
    requires Watched(s) && t == s.(work := t.work)
    requires forall id :: Soon(s, id) ==> Soon(t, id) || PubBusy(s, id)
    ensures Watched(t)
  {
    hide JfcWatched, CeqWatched, Soon;
    SameHolds(s, t);
  }

  lemma EnterWatched(s: Engine)
    requires Watched(s) && s.work.pump.Visiting?
    ensures Watched(Enter(s))
  {
    hide JfcWatched, CeqWatched;
    if s.work.pump.ids == [] {
      PumpMoves(s, Enter(s));
    } else if s.work.pump.ids[0] !in s.q.pubs || (!s.config.pipelined && s.q.pubs[s.work.pump.ids[0]].running) {
      PumpMoves(s, Enter(s));
    } else {
      PumpMoves(s, Enter(s));
    }
  }

  lemma KickHolds(s: Engine, t: Engine)
    requires Watched(s) && t.cmd == s.cmd && t.q.ceqOf == s.q.ceqOf && t.q.jfcs == s.q.jfcs && t.ev == s.ev
    requires t.debt == s.debt && t.log == s.log && t.work.kick
    requires forall id :: id in s.q.pubs ==> id in t.q.pubs
    ensures Watched(t)
  {
    hide JfcWatched, CeqWatched;
    SameHolds(s, t);
  }

  /** A flight goes on: its queue still publishes. */
  lemma FlightHolds(s: Engine, t: Engine, id: u32)
    requires Watched(s) && id in s.q.pubs && id in t.q.pubs && (s.q.pubs[id].running || s.q.pubs[id].inFlight != 0)
    requires t.q.pubs == s.q.pubs[id := s.q.pubs[id].(flights := t.q.pubs[id].flights)]
    requires t.cmd == s.cmd && t.q.ceqOf == s.q.ceqOf && t.ev == s.ev && t.debt == s.debt && t.work == s.work
    requires s.q.jfcs.Keys <= t.q.jfcs.Keys
    requires forall x :: x in s.q.jfcs && x != id ==> t.q.jfcs[x] == s.q.jfcs[x]
    ensures Watched(t)
  {
    hide JfcWatched, CeqWatched;
    SameHolds(s, t);
  }

  lemma EmitHolds(s: Engine, id: u32, r: nat)
    requires Watched(s)
    ensures Watched(Emit(s, id, r))
  {
    hide JfcWatched, CeqWatched;
    if Silent(s, id) {
      SameHolds(s, Emit(s, id, r));
    } else {
      KeepBoth(s, Emit(s, id, r));
    }
  }

  lemma FlightRuns(s: Engine, id: u32, r: nat)
    requires Safe(s) && InFlight(s, id, r)
    ensures s.q.pubs[id].running || s.q.pubs[id].inFlight != 0
  {
    assert Counted(s.config.pipelined, s.q.pubs[id]);
    assert r in s.q.pubs[id].flights.Keys;
  }

  lemma ReadDoneWatched(s: Engine, id: u32, r: nat, ok: bool, value: u32)
    requires Safe(s) && Watched(s) && InFlight(s, id, r)
    ensures Watched(ReadDone(s, id, r, ok, value))
  {
    FlightRuns(s, id, r);
    hide Safe, JfcWatched, CeqWatched, NoRoom;
    if !ok || id !in s.q.jfcs {
      FlightHolds(s, ReadDone(s, id, r, ok, value), id);
    } else if NoRoom(s.q.jfcs[id], Masked(value)) {
      FlightHolds(s, ReadDone(s, id, r, ok, value), id);
    } else {
      FlightHolds(s, ReadDone(s, id, r, ok, value), id);
    }
  }

  lemma WriteDoneWatched(s: Engine, id: u32, r: nat, ok: bool)
    requires Safe(s) && Watched(s) && InFlight(s, id, r) && s.q.pubs[id].flights[r] == Writing
    ensures Watched(WriteDone(s, id, r, ok))
  {
    FlightRuns(s, id, r);
    WritingCounted(s, id, r);
    var (j, verdict) := Committed(s.q.jfcs[id], s.config.pipelined, ok, s.now);
    hide Safe, JfcWatched, CeqWatched, Committed, Emit;
    if verdict.Due? {
      var u := s.(q := s.q.(jfcs := s.q.jfcs[id := j], pubs := WithFlight(s.q.pubs, id, r, Finishing(false))));
      FlightHolds(s, u, id);
      EmitHolds(u, id, r);
    } else {
      FlightHolds(s, WriteDone(s, id, r, ok), id);
    }
  }

  // ------------------------------------------------------------------ timers that run out silently

  /** What holds JFC `id`, the moderation timer of `timer` apart. */
  predicate HoldsBut(s: Engine, id: u32, timer: u32) {
    PubBusy(s, id) || (id != timer && TimerBusy(s, id)) || Soon(s, id)
  }

  ghost predicate JfcKept(s: Engine, id: u32, timer: u32) {
    HoldsBut(s, id, timer) || (exists e :: EventOf(s, e) && e.jfc == id) || Looking(s, s.debt.checksJfc)
  }

  predicate HoldsButOn(s: Engine, jfc: u32, id: u32, timer: u32) {
    jfc in s.q.ceqOf && s.q.ceqOf[jfc] == id && HoldsBut(s, jfc, timer)
  }

  ghost predicate CeqKept(s: Engine, id: u32, timer: u32) {
    || (exists jfc :: HoldsButOn(s, jfc, id, timer))
    || (exists e :: EventOf(s, e) && e.ceq == id) || Looking(s, s.debt.checksCeq)
  }

  /** A destroy is parked for the JFC `timer` or its event queue, nothing but the moderation timer of the JFC
      holds that resource, and the guest has not armed the JFC for another notification. */
  ghost predicate LastHold(s: Engine, timer: u32) {
    && s.config.oneShot && timer !in s.q.armed
    && ((s.cmd.parkedJfc == Some(timer) && !JfcKept(s, timer, timer))
        || (timer in s.q.ceqOf && s.cmd.parkedCeq == Some(s.q.ceqOf[timer]) && !CeqKept(s, s.q.ceqOf[timer], timer)))
  }

  /** The pump takes the first timer of its snapshot. */
  predicate Fires(s: Engine) {
    && s.work.pump.Expiring? && s.work.pump.timers != [] && s.pool.inUse < s.config.slots
    && s.work.pump.timers[0] in s.q.jfcs
  }

  /** The one step that leaves a parked destroy behind. */
  ghost predicate Strands(s: Engine, a: Action) { a.AExpire? && Fires(s) && LastHold(s, s.work.pump.timers[0]) }

  lemma SilentHolds(s: Engine, id: u32)
    requires Safe(s) && s.work.pump.Expiring? && s.work.pump.timers != [] && id in s.q.jfcs && Silent(s, id)
    ensures var t := Emit(TimerTaken(s, id), id, s.pool.nextSlot);
            && s.config.oneShot && id !in s.q.armed && t.cmd == s.cmd && t.q.ceqOf == s.q.ceqOf
            && t.ev == s.ev && t.debt == s.debt && t.q.pubs == s.q.pubs
            && (forall x :: PubBusy(t, x) == PubBusy(s, x)) && (forall x :: Soon(t, x) == Soon(s, x))
            && (forall x :: TimerBusy(t, x) == (x != id && TimerBusy(s, x)))
  {
    assert s.q.jfcs.Keys == s.q.ceqOf.Keys;
    hide Safe;
    assert Silent(TimerTaken(s, id), id);
  }

  /** A timer that runs out silently leaves a parked destroy behind exactly when it was the last hold. */
  lemma SilentWatched(s: Engine, id: u32)
    requires Safe(s) && Watched(s) && s.work.pump.Expiring? && s.work.pump.timers != [] && id in s.q.jfcs
    requires Silent(s, id)
    ensures Watched(Emit(TimerTaken(s, id), id, s.pool.nextSlot)) <==> !LastHold(s, id)
  {
    var t := Emit(TimerTaken(s, id), id, s.pool.nextSlot);
    SilentHolds(s, id);
    hide Emit, TimerTaken, Silent, Safe, Soon, Looking, PubBusy, TimerBusy;
    JfcSilent(s, t, id);
    CeqSilent(s, t, id);
  }

  lemma JfcSilent(s: Engine, t: Engine, timer: u32)
    requires JfcWatched(s) && t.cmd == s.cmd && t.ev == s.ev && t.debt == s.debt
    requires forall x :: PubBusy(t, x) == PubBusy(s, x) && Soon(t, x) == Soon(s, x)
    requires forall x :: TimerBusy(t, x) == (x != timer && TimerBusy(s, x))
    ensures JfcWatched(t) <==> !(s.cmd.parkedJfc == Some(timer) && !JfcKept(s, timer, timer))
  {
    hide PubBusy, TimerBusy, Soon;
    if s.cmd.parkedJfc.Some? {
      var id := s.cmd.parkedJfc.value;
      if e :| EventOf(s, e) && e.jfc == id {
        EventIsBusy(t, e);
        EventIsBusy(s, e);
      } else if JfcBusy(s, id) && !PubBusy(s, id) && !TimerBusy(s, id) {
        var e := BusyByEvent(s, id);
      } else if JfcBusy(t, id) && !PubBusy(t, id) && !TimerBusy(t, id) {
        var e := BusyByEvent(t, id);
      }
    }
  }

  lemma CeqSilent(s: Engine, t: Engine, timer: u32)
    requires CeqWatched(s) && t.cmd == s.cmd && t.ev == s.ev && t.debt == s.debt && t.q.ceqOf == s.q.ceqOf
    requires forall x :: PubBusy(t, x) == PubBusy(s, x) && Soon(t, x) == Soon(s, x)
    requires forall x :: TimerBusy(t, x) == (x != timer && TimerBusy(s, x))
    requires timer in s.q.ceqOf
    ensures CeqWatched(t) <==> !(s.cmd.parkedCeq == Some(s.q.ceqOf[timer]) && !CeqKept(s, s.q.ceqOf[timer], timer))
  {
    hide PubBusy, TimerBusy, Soon;
    if s.cmd.parkedCeq.Some? {
      var c := s.cmd.parkedCeq.value;
      forall jfc
        ensures HoldsButOn(s, jfc, c, timer) <==> QueueOnCeq(t, jfc, c) || SoonOn(t, jfc, c)
        ensures s.q.ceqOf[timer] != c ==> (HoldsButOn(s, jfc, c, timer) <==> QueueOnCeq(s, jfc, c) || SoonOn(s, jfc, c))
      {
      }
      if e :| EventOf(s, e) && e.ceq == c {
        EventIsBusy(t, e);
        EventIsBusy(s, e);
      } else {
        hide QueueOnCeq, SoonOn, HoldsButOn;
        if CeqBusy(s, c) && forall jfc :: !QueueOnCeq(s, jfc, c) {
          var e := CeqBusyByEvent(s, c);
        }
        if CeqBusy(t, c) && forall jfc :: !QueueOnCeq(t, jfc, c) {
          var e := CeqBusyByEvent(t, c);
        }
      }
    }
  }

  /** The timer of the JFC lets go; its event takes over, unless there is none. */
  lemma TimerWatched(s: Engine, id: u32)
    requires Safe(s) && Watched(s) && s.work.pump.Expiring? && s.work.pump.timers != [] && id in s.q.jfcs
    ensures Watched(Emit(TimerTaken(s, id), id, s.pool.nextSlot)) <==> !(Silent(s, id) && LastHold(s, id))
  {
    var u := TimerTaken(s, id);
    var t := Emit(u, id, s.pool.nextSlot);
    hide JfcWatched, CeqWatched, LastHold;
    if Silent(s, id) {
      hide Watched;
      SilentWatched(s, id);
    } else {
      hide Safe;
      assert !Silent(u, id);
      var e := Event(id, s.q.ceqOf[id], s.pool.nextSlot);
      assert t.ev.queue[|s.ev.queue|] == e;
      assert EventOf(t, e);
      KeepBoth(s, t);
    }
  }

  lemma ExpireWatched(s: Engine)
    requires Safe(s) && Watched(s) && s.work.pump.Expiring?
    ensures Watched(Expire(s)) <==> !Strands(s, AExpire)
  {
    hide Safe, JfcWatched, CeqWatched, Emit, TimerTaken, JfcKept, CeqKept;
    var timers := s.work.pump.timers;
    if timers == [] || s.pool.inUse >= s.config.slots {
      PumpMoves(s, Expire(s));
    } else if timers[0] !in s.q.jfcs {
      PumpMoves(s, Expire(s));
    } else {
      TimerWatched(s, timers[0]);
    }
  }

  lemma AdmittedWatched(s: Engine, id: u32, ids: seq<u32>, t: Engine)
    requires Watched(s) && s.work.pump == Admitting(id, ids, true) && Admits(s, id)
    requires t.cmd == s.cmd && t.q.ceqOf == s.q.ceqOf && t.ev == s.ev && t.debt == s.debt
    requires t.work.kick == s.work.kick && t.work.pump == Admitting(id, ids, s.config.pipelined)
    requires id in t.q.pubs
    requires t.q.pubs == s.q.pubs[id := Admitted(s.q.pubs[id], s.config.pipelined).(flights := t.q.pubs[id].flights)]
    requires s.q.jfcs.Keys <= t.q.jfcs.Keys
    requires forall x :: x in s.q.jfcs && x != id ==> t.q.jfcs[x] == s.q.jfcs[x]
    ensures Watched(t)
  {
    hide JfcWatched, CeqWatched;
    SameHolds(s, t);
  }

  lemma IssueHolds(s: Engine, id: u32, r: nat)
    requires id in s.q.pubs
    ensures var t := Issue(s, id, r);
            && t.config == s.config && t.cmd == s.cmd && t.ev == s.ev && t.debt == s.debt && t.work == s.work
            && id in t.q.pubs && t.q.pubs == s.q.pubs[id := s.q.pubs[id].(flights := t.q.pubs[id].flights)]
            && t.q.ceqOf == s.q.ceqOf && s.q.jfcs.Keys <= t.q.jfcs.Keys
            && forall x :: x in s.q.jfcs && x != id ==> t.q.jfcs[x] == s.q.jfcs[x]
  {
    hide NoRoom, Held;
    if id !in s.q.jfcs {
    } else if s.config.pipelined && Held(s.q.jfcs[id]) < s.q.jfcs[id].depth {
      if NoRoom(s.q.jfcs[id], Masked(s.q.jfcs[id].consumer)) {
      } else {
      }
    } else {
    }
  }

  lemma AdmitWatched(s: Engine)
    requires Watched(s) && s.work.pump.Admitting?
    ensures Watched(Admit(s))
  {
    var id, ids := s.work.pump.id, s.work.pump.ids;
    hide JfcWatched, CeqWatched, Blocked;
    if s.work.pump.more && Admits(s, id) {
      var u := Reserving(s, id, ids);
      IssueHolds(u, id, s.pool.nextSlot);
      hide Issue;
      AdmittedWatched(s, id, ids, Issue(u, id, s.pool.nextSlot));
    } else if id in s.q.pubs && !Publishing(s.q.pubs[id]) {
      SameHolds(s, Admit(s));
    } else {
      PumpMoves(s, Admit(s));
    }
  }

  lemma DeliverWatched(s: Engine)
    requires Watched(s) && s.ev.dispatching
    ensures Watched(Deliver(s))
  {
    var i := FirstEligible(s.ev.ceqs, s.ev.queue, 0);
    hide JfcWatched, CeqWatched, FirstEligible;
    if s.ev.active.Some? || i == |s.ev.queue| {
      KeepBoth(s, Deliver(s));
    } else if s.ev.queue[i].ceq !in s.ev.ceqs {
      KeepBoth(s, Deliver(s));
    } else {
      KeepBoth(s, Deliver(s));
    }
  }

  lemma EventWatched(s: Engine, a: Action)
    requires Watched(s) && Enabled(s, a) && Next(s, a).Some?
    requires a.AEventWritten? || a.AInterrupted? || a.AReturn? || a.AReport? || a.AArm?
    ensures Watched(Next(s, a).value)
  {
    hide JfcWatched, CeqWatched, Moves, Reported, Outstanding, Acknowledged;
    var t := Next(s, a).value;
    if a.AEventWritten? {
      if a.ok {
        KeepBoth(s, t);
      } else {
        KeepBoth(s, t);
      }
    } else {
      KeepBoth(s, t);
    }
  }

  lemma CommandWatched(s: Engine, a: Action)
    requires Safe(s) && Watched(s) && Enabled(s, a) && Next(s, a).Some?
    requires a.ADestroyCeq? || a.ADestroyJfc? || a.ACheckCeq? || a.ACheckJfc? || a.ABegin?
             || a.ALoadCeq? || a.ALoadJfc? || a.AQueried? || a.AModify? || a.ARing? || a.AMailboxEvent?
    ensures Watched(Next(s, a).value)
  {
    var t := Next(s, a).value;
    assert OneCommand(s.cmd, s.q.jfcs);
    hide Safe;
    if a.ACheckCeq? {
      CheckCeqWatched(s);
    } else if a.ACheckJfc? {
      CheckJfcWatched(s);
    } else if a.ADestroyCeq? {
      DestroyCeqWatched(s, a.id);
    } else if a.ADestroyJfc? {
      if JfcBusy(s, a.id) {
        assert JfcBusy(t, a.id);
      }
    } else if a.ARing? || a.AMailboxEvent? {
      hide RingStep, JfcWatched, CeqWatched, OneCommand;
      OtherCommand(s, t);
    } else {
      hide CeqBusy;
      assert t.cmd.parkedCeq.None? && t.cmd.parkedJfc.None?;
    }
  }

  /** The command queue goes on with another command, or somebody more will look. */
  lemma OtherCommand(s: Engine, t: Engine)
    requires Watched(s) && t.cmd.parkedCeq == s.cmd.parkedCeq && t.cmd.parkedJfc == s.cmd.parkedJfc
    requires t.q == s.q && t.ev == s.ev && t.work == s.work
    requires t.debt.owed == s.debt.owed && t.debt.checksCeq >= s.debt.checksCeq && t.debt.checksJfc == s.debt.checksJfc
    ensures Watched(t)
  {
    KeepJfc(s, t) by {
      hide CeqWatched;
    }
    KeepCeq(s, t) by {
      hide JfcWatched;
    }
  }

  lemma DestroyCeqWatched(s: Engine, id: u32)
    requires OneCommand(s.cmd, s.q.jfcs) && s.cmd.ring.fetching > 0 && Watched(s)
    ensures Watched(DestroyCeq(s, id))
  {
    var t := DestroyCeq(s, id);
    if CeqBusy(s, id) {
      assert forall jfc :: QueueOnCeq(t, jfc, id) <==> QueueOnCeq(s, jfc, id);
      assert CeqBusy(t, id);
    }
  }

  lemma CheckCeqWatched(s: Engine)
    requires OneCommand(s.cmd, s.q.jfcs) && Watched(s) && s.debt.checksCeq > 0
    ensures Watched(CheckCeq(s))
  {
    var t := CheckCeq(s);
    if s.cmd.parkedCeq.None? {
    } else if CeqBusy(s, s.cmd.parkedCeq.value) {
      var c := s.cmd.parkedCeq.value;
      assert CeqBusy(t, c) by {
        assert forall jfc :: QueueOnCeq(t, jfc, c) <==> QueueOnCeq(s, jfc, c);
      }
    }
  }

  lemma CheckJfcWatched(s: Engine)
    requires OneCommand(s.cmd, s.q.jfcs) && Watched(s) && s.debt.checksJfc > 0
    ensures Watched(CheckJfc(s))
  {
    var t := CheckJfc(s);
    if s.cmd.parkedJfc.None? {
      hide JfcBusy, JfcWatched;
      assert JfcWatched(s) && JfcWatched(t) by {
        assert s.cmd.parkedJfc.None?;
      }
      KeepCeq(s, t) by {
        hide CeqWatched;
      }
    } else if JfcBusy(s, s.cmd.parkedJfc.value) {
      assert JfcBusy(t, s.cmd.parkedJfc.value);
    }
  }

  /** Every step keeps the promise that a parked destroy is busy or about to be looked at, but for one: the
      moderation timer that was the last to hold the resource runs out and the guest is not told. */
  lemma StepWatched(s: Engine, a: Action)
    requires Safe(s) && Watched(s) && Enabled(s, a) && Next(s, a).Some?
    ensures Watched(Next(s, a).value) <==> !Strands(s, a)
  {
    hide Safe, Watched, Next, Enabled, Fires, LastHold;
    if a.AEventWritten? || a.AInterrupted? || a.AReturn? || a.AReport? || a.AArm? {
      EventWatched(s, a);
    } else if a.ADestroyCeq? || a.ADestroyJfc? || a.ACheckCeq? || a.ACheckJfc? || a.ABegin?
              || a.ALoadCeq? || a.ALoadJfc? || a.AQueried? || a.AModify? || a.ARing? || a.AMailboxEvent? {
      CommandWatched(s, a);
    } else {
      PumpWatched(s, a);
    }
  }

  lemma PumpWatched(s: Engine, a: Action)
    requires Safe(s) && Watched(s) && Enabled(s, a) && Next(s, a).Some?
    requires a.APost? || a.AAdvance? || a.AScan? || a.AExpire? || a.AGather? || a.AEnter? || a.AAdmit? || a.AFree?
             || a.AReadDone? || a.AWriteDone? || a.ARelease? || a.ADeliver?
    ensures Watched(Next(s, a).value) <==> !Strands(s, a)
  {
    hide Safe, Watched, Fires, LastHold, ReadDone, WriteDone, Expire, Admit, Deliver, Enter, Released, Queue;
    var t := Next(s, a).value;
    if a.AReadDone? {
      ReadDoneWatched(s, a.id, a.r, a.ok, a.value);
    } else if a.AWriteDone? {
      WriteDoneWatched(s, a.id, a.r, a.ok);
    } else if a.AExpire? {
      ExpireWatched(s);
    } else if a.AAdmit? {
      AdmitWatched(s);
    } else if a.ADeliver? {
      DeliverWatched(s);
    } else if a.AEnter? {
      EnterWatched(s);
    } else if a.AScan? || a.AGather? {
      PumpMoves(s, t);
    } else if t != s {
      KickHolds(s, t);
    }
  }
}
