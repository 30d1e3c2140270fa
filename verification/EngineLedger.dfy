/** What goes into the completion engine comes out of it, counted over whole runs. */
module EngineLedger {
  import opened Cq
  import opened Engine
  import opened EngineInv
  import opened EngineProof
  import opened EngineTheorems
  import opened EngineWake
  import opened Modular
  import opened Optional
  import opened Words

  // ------------------------------------------------------------------ completions

  /** A destroy is parked for the JFC, or for the event queue it reports to. */
  predicate Doomed(s: Engine, id: u32) {
    s.cmd.parkedJfc == Some(id) || (s.cmd.parkedCeq.Some? && id in s.q.ceqOf && s.cmd.parkedCeq == Some(s.q.ceqOf[id]))
  }

  /** The step takes the oldest waiting completion of the JFC. */
  predicate Takes(s: Engine, a: Action, id: u32) {
    a.AAdmit? && s.work.pump.Admitting? && s.work.pump.id == id && s.work.pump.more && Admits(s, id)
  }

  /** Completions posted to a JFC that is not being destroyed; completions admitted; completions ended. */
  ghost function Accepted(config: Config, acts: seq<Action>, id: u32): nat {
    if acts == [] then 0
    else
      var o := Run(config, acts[..|acts| - 1]);
      Accepted(config, acts[..|acts| - 1], id) + One(o.At? && acts[|acts| - 1] == APost(id) && !Doomed(o.s, id))
  }

  ghost function Admissions(config: Config, acts: seq<Action>, id: u32): nat {
    if acts == [] then 0
    else
      var o := Run(config, acts[..|acts| - 1]);
      Admissions(config, acts[..|acts| - 1], id) + One(o.At? && Takes(o.s, acts[|acts| - 1], id))
  }

  predicate Ends(a: Action, id: u32) { a.ARelease? && a.id == id }

  function Endings(acts: seq<Action>, id: u32): nat {
    if acts == [] then 0 else Endings(acts[..|acts| - 1], id) + One(Ends(acts[|acts| - 1], id))
  }

  function Pending(s: Engine, id: u32): nat { if id in s.q.pubs then s.q.pubs[id].pending else 0 }

  function Flying(s: Engine, id: u32): nat { if id in s.q.pubs then |s.q.pubs[id].flights| else 0 }

  /** What a step does to the completions of one JFC. */
  predicate Tallies(s: Engine, a: Action, t: Engine, id: u32) {
    && Pending(t, id) == Pending(s, id) + One(a == APost(id) && !Doomed(s, id)) - One(Takes(s, a, id))
    && Flying(t, id) == Flying(s, id) + One(Takes(s, a, id)) - One(Ends(a, id))
  }

  lemma FlightKept(s: Engine, t: Engine, x: u32, r: nat, f: Flight)
    requires InFlight(s, x, r) && t.q.pubs == WithFlight(s.q.pubs, x, r, f)
    ensures forall id :: Pending(t, id) == Pending(s, id) && Flying(t, id) == Flying(s, id)
  {
    var p, q := s.q.pubs[x].flights, t.q.pubs[x].flights;
    assert q.Keys == p.Keys;
    assert |q| == |q.Keys| && |p| == |p.Keys|;
  }

  lemma FlightMoves(s: Engine, a: Action)
    requires Enabled(s, a) && (a.AReadDone? || a.AWriteDone?)
    ensures exists f :: Next(s, a).value.q.pubs == WithFlight(s.q.pubs, a.id, a.r, f)
  {
    hide NoRoom, Committed, Silent, Masked, Taken;
    var t := Next(s, a).value;
    if a.AReadDone? {
      if !a.ok || a.id !in s.q.jfcs {
        assert t.q.pubs == WithFlight(s.q.pubs, a.id, a.r, Finishing(true));
      } else if NoRoom(s.q.jfcs[a.id], Masked(a.value)) {
        assert t.q.pubs == WithFlight(s.q.pubs, a.id, a.r, Finishing(true));
      } else {
        assert t.q.pubs == WithFlight(s.q.pubs, a.id, a.r, Writing);
      }
    } else {
      WriteMoves(s, a.id, a.r, a.ok);
    }
  }

  lemma WriteMoves(s: Engine, id: u32, r: nat, ok: bool)
    requires id in s.q.pubs
    ensures exists f :: WriteDone(s, id, r, ok).q.pubs == WithFlight(s.q.pubs, id, r, f)
  {
    hide Committed, Emit;
    if id !in s.q.jfcs || (s.config.pipelined && s.q.jfcs[id].writing == 0) {
      assert WriteDone(s, id, r, ok).q.pubs == WithFlight(s.q.pubs, id, r, Finishing(true));
    } else {
      var (j, verdict) := Committed(s.q.jfcs[id], s.config.pipelined, ok, s.now);
      if verdict.Due? {
        var u := s.(q := s.q.(jfcs := s.q.jfcs[id := j], pubs := WithFlight(s.q.pubs, id, r, Finishing(false))));
        EmitView(u, id, r);
        assert WriteDone(s, id, r, ok).q.pubs == WithFlight(s.q.pubs, id, r, Finishing(false));
      } else {
        assert WriteDone(s, id, r, ok).q.pubs == WithFlight(s.q.pubs, id, r, Finishing(true));
      }
    }
  }

  lemma IssueFlies(s: Engine, id: u32, r: nat)
    requires id in s.q.pubs
    ensures exists f :: Issue(s, id, r).q.pubs == WithFlight(s.q.pubs, id, r, f)
  {
    hide NoRoom, Held, Taken, Masked;
    if id !in s.q.jfcs {
      assert Issue(s, id, r).q.pubs == WithFlight(s.q.pubs, id, r, Finishing(true));
    } else if s.config.pipelined && Held(s.q.jfcs[id]) < s.q.jfcs[id].depth {
      if NoRoom(s.q.jfcs[id], Masked(s.q.jfcs[id].consumer)) {
        assert Issue(s, id, r).q.pubs == WithFlight(s.q.pubs, id, r, Finishing(true));
      } else {
        assert Issue(s, id, r).q.pubs == WithFlight(s.q.pubs, id, r, Writing);
      }
    } else {
      assert Issue(s, id, r).q.pubs == WithFlight(s.q.pubs, id, r, Reading);
    }
  }

  lemma FlightAdded(flights: map<nat, Flight>, r: nat, f: Flight)
    requires r !in flights
    ensures |flights[r := f]| == |flights| + 1
  {
    assert flights[r := f].Keys == flights.Keys + {r};
    assert |flights[r := f]| == |flights[r := f].Keys| && |flights| == |flights.Keys|;
  }

  lemma FlightRemoved(flights: map<nat, Flight>, r: nat)
    requires r in flights
    ensures |flights - {r}| == |flights| - 1
  {
    assert (flights - {r}).Keys == flights.Keys - {r};
    assert |flights - {r}| == |(flights - {r}).Keys| && |flights| == |flights.Keys|;
  }

  lemma NewReservation(s: Engine, id: u32)
    requires Safe(s) && id in s.q.pubs
    ensures s.pool.nextSlot !in s.q.pubs[id].flights
    ensures !Publishing(s.q.pubs[id]) ==> |s.q.pubs[id].flights| == 0
  {
    assert Numbered(s.pool.owners, s.q.pubs, s.pool.nextSlot);
    assert Counted(s.config.pipelined, s.q.pubs[id]);
  }

  lemma AdmitTallies(s: Engine, id: u32)
    requires Safe(s) && s.work.pump.Admitting?
    ensures Tallies(s, AAdmit, Admit(s), id)
  {
    var x, ids := s.work.pump.id, s.work.pump.ids;
    if x in s.q.pubs {
      NewReservation(s, x);
    }
    hide Safe, Blocked, Issue, Doomed;
    if s.work.pump.more && Admits(s, x) {
      var u := Reserving(s, x, ids);
      IssueFlies(u, x, s.pool.nextSlot);
      var f :| Issue(u, x, s.pool.nextSlot).q.pubs == WithFlight(u.q.pubs, x, s.pool.nextSlot, f);
      FlightAdded(s.q.pubs[x].flights, s.pool.nextSlot, f);
    } else if x in s.q.pubs && !Publishing(s.q.pubs[x]) {
    } else {
    }
  }

  lemma ReleaseTallies(s: Engine, a: Action, id: u32)
    requires Enabled(s, a) && a.ARelease? && Next(s, a).Some?
    ensures Tallies(s, a, Next(s, a).value, id)
  {
    hide Doomed, Admits;
    FlightRemoved(s.q.pubs[a.id].flights, a.r);
  }

  lemma FlightTallies(s: Engine, a: Action, id: u32)
    requires Enabled(s, a) && (a.AReadDone? || a.AWriteDone?)
    ensures Tallies(s, a, Next(s, a).value, id)
  {
    FlightMoves(s, a);
    hide Next, Doomed, Admits;
    var f :| Next(s, a).value.q.pubs == WithFlight(s.q.pubs, a.id, a.r, f);
    FlightKept(s, Next(s, a).value, a.id, a.r, f);
  }

  lemma PostTallies(s: Engine, a: Action, id: u32)
    requires a.APost?
    ensures Tallies(s, a, Post(s, a.id), id)
  {
  }

  lemma ExpirePubs(s: Engine)
    requires s.work.pump.Expiring?
    ensures Expire(s).q.pubs == s.q.pubs
  {
    var timers := s.work.pump.timers;
    hide Emit;
    if timers == [] || s.pool.inUse >= s.config.slots {
    } else if timers[0] !in s.q.jfcs {
    } else {
      EmitView(TimerTaken(s, timers[0]), timers[0], s.pool.nextSlot);
    }
  }

  /** The other steps leave publications alone. */
  lemma OtherPubs(s: Engine, a: Action)
    requires Enabled(s, a) && Next(s, a).Some?
    requires !a.APost? && !a.AAdmit? && !a.AReadDone? && !a.AWriteDone? && !a.ARelease?
    ensures Next(s, a).value.q.pubs == s.q.pubs
  {
    hide CeqBusy, JfcBusy, FirstEligible, Moves, Reported, Acknowledged, RingStep, CeqDepth, JfcDepth, Expire;
    if a.AExpire? {
      ExpirePubs(s);
    }
  }

  lemma StepTallies(s: Engine, a: Action, id: u32)
    requires Safe(s) && Enabled(s, a) && Next(s, a).Some?
    ensures Tallies(s, a, Next(s, a).value, id)
  {
    hide Safe, Tallies, Admit, Post;
    if a.APost? {
      PostTallies(s, a, id);
    } else if a.AAdmit? {
      AdmitTallies(s, id);
    } else if a.AReadDone? || a.AWriteDone? {
      hide Next, Enabled;
      FlightTallies(s, a, id);
    } else if a.ARelease? {
      hide Next, Enabled;
      ReleaseTallies(s, a, id);
    } else {
      hide Next, Enabled;
      OtherPubs(s, a);
      SameTallies(s, a, Next(s, a).value, id);
    }
  }

  lemma SameTallies(s: Engine, a: Action, t: Engine, id: u32)
    requires !a.APost? && !a.AAdmit? && !a.ARelease? && t.q.pubs == s.q.pubs
    ensures Tallies(s, a, t, id)
  {
  }

  /** No completion is lost and none is made up: what was posted to a JFC that is not being destroyed has been
      admitted or waits, and what was admitted has ended or is in flight. */
  lemma {:induction false} NoCompletionIsLost(config: Config, acts: seq<Action>, id: u32)
    requires Run(config, acts).At?
    ensures Accepted(config, acts, id) == Admissions(config, acts, id) + Pending(Run(config, acts).s, id)
    ensures Admissions(config, acts, id) == Endings(acts, id) + Flying(Run(config, acts).s, id)
  {
    hide Next, Enabled, Safe, Doomed, Takes;
    if acts != [] {
      var before, a := acts[..|acts| - 1], acts[|acts| - 1];
      NoCompletionIsLost(config, before, id);
      RunSafe(config, before);
      StepTallies(Run(config, before).s, a, id);
    }
  }

  /** While a destroy is parked for a JFC or its event queue, what is to be done for the JFC never grows. */
  lemma ParkedDrains(config: Config, acts: seq<Action>, s: Engine, a: Action, id: u32)
    requires Run(config, acts) == At(s) && Enabled(s, a) && Next(s, a).Some?
    requires s.cmd.parkedJfc == Some(id)
             || (id in s.q.ceqOf && s.cmd.parkedCeq == Some(s.q.ceqOf[id]))
    ensures var t := Next(s, a).value; Pending(t, id) + Flying(t, id) <= Pending(s, id) + Flying(s, id)
  {
    RunSafe(config, acts);
    hide Run, Safe, Enabled, Next;
    StepTallies(s, a, id);
  }

  // ------------------------------------------------------------------ event queues

  predicate Creates(s: Engine, a: Action, id: u32) {
    a.ALoadCeq? && a.ok && a.shift < 18 && id <= 255 && s.cmd.load == Some(NewCeq(id))
  }

  /** An entry of event queue `id` has been written. */
  predicate Fills(s: Engine, a: Action, id: u32) {
    a == AEventWritten(true) && s.ev.active.Some? && s.ev.active.value.event.ceq == id
  }

  /** Entries written since the event queue was created. */
  ghost function Filled(config: Config, acts: seq<Action>, id: u32): nat {
    if acts == [] then 0
    else
      var o, a := Run(config, acts[..|acts| - 1]), acts[|acts| - 1];
      if !o.At? || Creates(o.s, a, id) then 0
      else Filled(config, acts[..|acts| - 1], id) + One(Fills(o.s, a, id))
  }

  lemma QueueSteps(s: Engine, a: Action, id: u32)
    requires Enabled(s, a) && Next(s, a).Some? && id in Next(s, a).value.ev.ceqs
    ensures !Creates(s, a, id) ==> id in s.ev.ceqs
    ensures var c := Next(s, a).value.ev.ceqs[id];
            c.producer == if Creates(s, a, id) then 0 else (s.ev.ceqs[id].producer + One(Fills(s, a, id))) % WORD
  {
    hide JfcBusy, CeqBusy, FirstEligible, Moves, Outstanding, CeqDepth, JfcDepth, RingStep, Admit, Expire, WriteDone;
    if a.AAdmit? {
      AdmitKeepsCeqs(s);
    } else if a.AExpire? {
      ExpireKeepsCeqs(s);
    } else if a.AWriteDone? {
      WriteDoneKeepsCeqs(s, a.id, a.r, a.ok);
    } else if a.AReadDone? {
      ReadDoneKeepsCeqs(s, a.id, a.r, a.ok, a.value);
      hide ReadDone;
    }
  }

  lemma ReadDoneKeepsCeqs(s: Engine, id: u32, r: nat, ok: bool, value: u32)
    requires id in s.q.pubs
    ensures ReadDone(s, id, r, ok, value).ev == s.ev
  {
    hide NoRoom;
  }

  /** The producer of an event queue counts the entries written since it was created, modulo 2^32. */
  lemma {:induction false} ProducerCounts(config: Config, acts: seq<Action>, id: u32)
    requires Run(config, acts).At? && id in Run(config, acts).s.ev.ceqs
    ensures Run(config, acts).s.ev.ceqs[id].producer == Filled(config, acts, id) % WORD
  {
    hide Next, Enabled, Creates, Fills;
    if acts != [] {
      var before, a := acts[..|acts| - 1], acts[|acts| - 1];
      var s := Run(config, before).s;
      QueueSteps(s, a, id);
      if !Creates(s, a, id) {
        ProducerCounts(config, before, id);
        RemainderStep(Filled(config, before, id), One(Fills(s, a, id)), WORD);
      }
    }
  }

  /** An entry that is written is one the guest has still to take, unless it has reported it before its write was
      acknowledged: then the guest has taken everything.  One that is not written changes neither index; a guest that
      reported it is wrong, and the queue is faulted. */
  lemma AcknowledgementCounts(config: Config, acts: seq<Action>, s: Engine, ok: bool)
    requires Run(config, acts) == At(s) && Enabled(s, AEventWritten(ok))
    ensures var id := s.ev.active.value.event.ceq;
            && id in s.ev.ceqs && Next(s, AEventWritten(ok)).Some?
            && var c, d := s.ev.ceqs[id], Next(s, AEventWritten(ok)).value.ev.ceqs[id];
               && d.early.None? && d.depth == c.depth
               && (ok ==> Outstanding(d) == (if c.early.Some? then 0 else Outstanding(c) + 1) && d.fault == c.fault)
               && (!ok ==> d.producer == c.producer && d.consumer == c.consumer
                           && d.fault == (c.fault || c.early.Some?))
  {
    RunSafe(config, acts);
    hide Run;
    var id := s.ev.active.value.event.ceq;
    assert ActiveKnown(s.ev.ceqs, s.ev.active) && Credit(s.ev.ceqs[id], BeingWritten(s.ev.active, id));
    hide Safe;
    Charged(s.ev.ceqs[id], ok);
  }

  lemma Charged(c: Ceq, ok: bool)
    requires Credit(c, true)
    ensures var d := Acknowledged(c, ok);
            && d.early.None? && d.depth == c.depth
            && (ok ==> Outstanding(d) == (if c.early.Some? then 0 else Outstanding(c) + 1) && d.fault == c.fault)
            && (!ok ==> d.producer == c.producer && d.consumer == c.consumer && d.fault == (c.fault || c.early.Some?))
  {
    if ok && c.early.None? {
      var d := Outstanding(c);
      assert d + 1 < WORD;
      assert ((c.producer + 1) % WORD - c.consumer) % WORD == d + 1 by {
        OneMore(c.producer, c.consumer);
      }
    }
  }

  lemma OneMore(p: u32, c: u32)
    requires (p - c) % WORD + 1 < WORD
    ensures ((p + 1) % WORD - c) % WORD == (p - c) % WORD + 1
  {
  }

  // ------------------------------------------------------------------ arming

  /** Events of a JFC. */
  function Notices(events: seq<Event>, id: u32): nat {
    if events == [] then 0 else Notices(events[..|events| - 1], id) + One(events[|events| - 1].jfc == id)
  }

  lemma NoticesAppend(events: seq<Event>, e: Event, id: u32)
    ensures Notices(events + [e], id) == Notices(events, id) + One(e.jfc == id)
  {
    assert (events + [e])[..|events|] == events;
  }

  /** What a step adds to the events of JFC `id`. */
  function Added(s: Engine, t: Engine, id: u32): int { Notices(t.log.accepted, id) - Notices(s.log.accepted, id) }

  function Arms(acts: seq<Action>, id: u32): nat {
    if acts == [] then 0 else Arms(acts[..|acts| - 1], id) + One(acts[|acts| - 1] == AArm(id))
  }

  /** What emitting for JFC `x` touches of the events and of the armed queues. */
  lemma EmitTouches(s: Engine, x: u32, r: nat)
    ensures var t := Emit(s, x, r);
            && (Silent(s, x) ==> t.log.accepted == s.log.accepted)
            && (!Silent(s, x) ==> exists e: Event :: e.jfc == x && t.log.accepted == s.log.accepted + [e])
            && t.q.jfcs == s.q.jfcs && t.q.armed <= s.q.armed && (s.config.oneShot ==> x !in t.q.armed)
  {
    if !Silent(s, x) {
      var e := Event(x, s.q.ceqOf[x], r);
      assert Emit(s, x, r).log.accepted == s.log.accepted + [e] && e.jfc == x;
    }
  }

  /** Emitting for JFC `x` adds one event of `x`, or none if it is silent; with one-shot notifications the JFC has to
      be armed and is not any more. */
  lemma EmitAdds(s: Engine, x: u32, r: nat, id: u32)
    ensures var t := Emit(s, x, r);
            && Added(s, t, id) == One(x == id && !Silent(s, x)) && t.q.jfcs == s.q.jfcs
            && t.q.armed <= s.q.armed && (s.config.oneShot && !Silent(s, x) ==> x in s.q.armed && x !in t.q.armed)
  {
    EmitTouches(s, x, r);
    assert s.config.oneShot && !Silent(s, x) ==> x in s.q.armed;
    hide Emit, Silent, Notices;
    if !Silent(s, x) {
      var e: Event :| e.jfc == x && Emit(s, x, r).log.accepted == s.log.accepted + [e];
      NoticesAppend(s.log.accepted, e, id);
    }
  }

  /** What the steps of the pump and of the publications do to events and to arming. */
  predicate Spends(s: Engine, t: Engine, id: u32) {
    && t.config == s.config && t.q.armed <= s.q.armed
    && 0 <= Added(s, t, id) <= 1
    && (s.config.oneShot && Added(s, t, id) == 1 ==> id in s.q.armed && id !in t.q.armed)
  }

  lemma WriteDoneSpends(s: Engine, x: u32, r: nat, ok: bool, id: u32)
    requires x in s.q.pubs
    ensures Spends(s, WriteDone(s, x, r, ok), id)
  {
    hide Committed, Emit, Notices;
    if x !in s.q.jfcs || (s.config.pipelined && s.q.jfcs[x].writing == 0) {
    } else {
      var (j, verdict) := Committed(s.q.jfcs[x], s.config.pipelined, ok, s.now);
      if verdict.Due? {
        var u := s.(q := s.q.(jfcs := s.q.jfcs[x := j], pubs := WithFlight(s.q.pubs, x, r, Finishing(false))));
        EmitAdds(u, x, r, id);
        EmitView(u, x, r);
      }
    }
  }

  lemma ExpireSpends(s: Engine, id: u32)
    requires s.work.pump.Expiring?
    ensures Spends(s, Expire(s), id)
  {
    hide Emit, Notices;
    var timers := s.work.pump.timers;
    if timers == [] || s.pool.inUse >= s.config.slots {
    } else if timers[0] !in s.q.jfcs {
    } else {
      var u := TimerTaken(s, timers[0]);
      EmitAdds(u, timers[0], s.pool.nextSlot, id);
      EmitView(u, timers[0], s.pool.nextSlot);
    }
  }

  lemma IssueSpends(s: Engine, x: u32, r: nat)
    requires x in s.q.pubs
    ensures Issue(s, x, r).log == s.log && Issue(s, x, r).q.armed == s.q.armed && Issue(s, x, r).config == s.config
  {
    hide NoRoom, Held, Taken, Masked;
  }

  lemma AdmitSpends(s: Engine, id: u32)
    requires s.work.pump.Admitting?
    ensures Spends(s, Admit(s), id)
  {
    hide Blocked, Issue, Notices;
    if s.work.pump.more && Admits(s, s.work.pump.id) {
      IssueSpends(Reserving(s, s.work.pump.id, s.work.pump.ids), s.work.pump.id, s.pool.nextSlot);
    }
  }

  predicate IsCommand(a: Action) {
    a.ADestroyCeq? || a.ADestroyJfc? || a.ACheckCeq? || a.ACheckJfc? || a.ABegin? || a.ALoadCeq? || a.ALoadJfc?
    || a.AQueried? || a.AModify? || a.ARing?
  }

  /** Commands accept no event and arm nothing. */
  lemma CommandSpends(s: Engine, a: Action, id: u32)
    requires Enabled(s, a) && Next(s, a).Some? && IsCommand(a)
    ensures Spends(s, Next(s, a).value, id)
  {
    hide CeqBusy, JfcBusy, RingStep, CeqDepth, JfcDepth, Masked, Admissible;
    assert Next(s, a).value.log == s.log;
    hide Notices;
  }

  lemma StepSpends(s: Engine, a: Action, id: u32)
    requires Enabled(s, a) && Next(s, a).Some?
    ensures a != AArm(id) ==> Spends(s, Next(s, a).value, id) || (a.AArm? && Next(s, a).value.log == s.log
                              && (id in Next(s, a).value.q.armed ==> id in s.q.armed))
    ensures a == AArm(id) ==> Next(s, a).value.log == s.log
  {
    if a.AWriteDone? {
      hide WriteDone;
      WriteDoneSpends(s, a.id, a.r, a.ok, id);
    } else if a.AExpire? {
      hide Expire;
      ExpireSpends(s, id);
    } else if a.AAdmit? {
      hide Admit;
      AdmitSpends(s, id);
    } else if IsCommand(a) {
      CommandSpends(s, a, id);
      hide Next;
    } else {
      hide Notices, FirstEligible, Moves, Reported, Acknowledged, NoRoom, Masked, Taken;
    }
  }

  /** With one-shot notifications the events of a JFC never outnumber the times the guest has armed it. */
  lemma {:induction false} NoEventUnarmed(config: Config, acts: seq<Action>, id: u32)
    requires Run(config, acts).At? && config.oneShot
    ensures Run(config, acts).s.config == config
    ensures Notices(Run(config, acts).s.log.accepted, id) + One(id in Run(config, acts).s.q.armed) <= Arms(acts, id)
  {
    hide Next, Enabled;
    if acts != [] {
      var before, a := acts[..|acts| - 1], acts[|acts| - 1];
      NoEventUnarmed(config, before, id);
      var s := Run(config, before).s;
      RunSafe(config, before);
      RunSafe(config, acts);
      hide Run, Safe;
      StepSpends(s, a, id);
    }
  }
}
