/** Runs in which a promise of the engine is broken: it comes to rest, or delivers nothing, while something waits
    that nobody will look at again. */
module EngineRuns {
  import opened Cq
  import opened Engine
  import opened EngineEvents
  import opened EngineTheorems
  import opened Optional
  import opened Words

  lemma Go(config: Config, acts: seq<Action>, s: Engine, a: Action, s': Engine)
    requires Run(config, acts) == At(s) && Enabled(s, a) && Next(s, a) == Some(s')
    ensures Run(config, acts + [a]) == At(s')
  {
    assert (acts + [a])[..|acts + [a]| - 1] == acts;
    hide Next, Enabled;
  }

  lemma EmptyRun(config: Config)
    ensures Run(config, []) == At(Boot(config))
  {
  }

  // ------------------------------------------------------------------ commands

  /** The command queue while one command is at work. */
  const TAKEN := IDLE.(busy := true)

  /** The guest rings the doorbell of the idle command queue, and a descriptor arrives. */
  lemma CommandArrives(config: Config, acts: seq<Action>, s: Engine) returns (acts': seq<Action>)
    requires Run(config, acts) == At(s) && s.cmd.ring == IDLE
    ensures Run(config, acts') == At(WithRing(s, TAKEN.(fetching := 1)))
  {
    hide Run, RingStep;
    assert RingStep(IDLE, Ringing(true)) == TAKEN.(fetching := 1) by {
      RingSteps();
    }
    var a := ARing(Ringing(true));
    Go(config, acts, s, a, WithRing(s, TAKEN.(fetching := 1)));
    acts' := acts + [a];
  }

  /** Its answer is written, and there is no other. */
  lemma CommandEnds(config: Config, acts: seq<Action>, s: Engine) returns (acts': seq<Action>)
    requires Run(config, acts) == At(s) && s.cmd.ring == TAKEN.(answering := 1)
    ensures Run(config, acts') == At(WithRing(s, IDLE))
  {
    hide Run, RingStep;
    RingSteps();
    var a := ARing(Written(true, false));
    Go(config, acts, s, a, WithRing(s, IDLE));
    acts' := acts + [a];
  }

  lemma RingSteps()
    ensures RingStep(IDLE, Ringing(true)) == TAKEN.(fetching := 1)
    ensures RingStep(TAKEN.(answering := 1), Written(true, false)) == IDLE
  {
  }

  /** The context of a new JFC: 64 entries, its event queue the first. */
  function NewContext(moderation: nat, period: nat): Jfc { Jfc(JfcDepth(0), 0, 0, moderation, period, 0, 0, 0) }

  function WithJfc(s: Engine, id: u32, j: Jfc): Engine {
    s.(q := s.q.(jfcs := s.q.jfcs[id := j], ceqOf := s.q.ceqOf[id := 0], armed := s.q.armed - {id}))
  }

  /** A command that needs a context is taken up, and the context is being read. */
  lemma Begun(config: Config, acts: seq<Action>, s: Engine, what: Load) returns (acts': seq<Action>)
    requires Run(config, acts) == At(s) && s.cmd == Commands(None, None, None, IDLE) && Admissible(s, what)
    ensures Run(config, acts') == At(s.(cmd := Commands(None, None, Some(what), TAKEN)))
  {
    acts' := CommandArrives(config, acts, s);
    hide Run;
    var s0 := WithRing(s, TAKEN.(fetching := 1));
    assert Admissible(s0, what) by {
      SameAdmissible(s, s0, what);
    }
    hide Admissible;
    Go(config, acts', s0, ABegin(what), s.(cmd := Commands(None, None, Some(what), TAKEN)));
    acts' := acts' + [ABegin(what)];
  }

  lemma SameAdmissible(s: Engine, t: Engine, what: Load)
    requires t.q == s.q && t.ev == s.ev && Admissible(s, what)
    ensures Admissible(t, what)
  {
    if what.NewCeq? {
      assert forall jfc :: QueueOnCeq(t, jfc, what.id) == QueueOnCeq(s, jfc, what.id);
    }
  }

  /** The guest has a JFC created. */
  lemma JfcCreated(config: Config, acts: seq<Action>, s: Engine, id: u32, moderation: nat, period: nat)
    returns (acts': seq<Action>)
    requires Run(config, acts) == At(s) && s.cmd == Commands(None, None, None, IDLE) && id !in s.q.jfcs
    requires moderation > 0
    ensures Run(config, acts') == At(WithJfc(s, id, NewContext(moderation, period)))
  {
    acts' := Begun(config, acts, s, NewJfc(id));
    hide Run, JfcDepth;
    var s1 := s.(cmd := Commands(None, None, Some(NewJfc(id)), TAKEN));
    var load := ALoadJfc(true, 0, 0, moderation, period);
    var s2 := WithJfc(WithRing(s, TAKEN.(answering := 1)), id, NewContext(moderation, period));
    assert LoadJfc(s1, true, 0, 0, moderation, period) == s2;
    Restored(s, id, NewContext(moderation, period));
    hide LoadJfc, WithJfc, WithRing;
    Go(config, acts', s1, load, s2);
    acts' := CommandEnds(config, acts' + [load], s2);
  }

  lemma Restored(s: Engine, id: u32, j: Jfc)
    requires s.cmd.ring == IDLE
    ensures WithJfc(WithRing(s, TAKEN.(answering := 1)), id, j).cmd.ring == TAKEN.(answering := 1)
    ensures WithRing(WithJfc(WithRing(s, TAKEN.(answering := 1)), id, j), IDLE) == WithJfc(s, id, j)
  {
  }

  // ------------------------------------------------------------------ one publication

  /** With nothing to do, a call of the pump returns. */
  lemma EmptyRound(config: Config, acts: seq<Action>, s: Engine) returns (acts': seq<Action>)
    requires Run(config, acts) == At(s) && s.work.pump == Start && s.q.pubs == map[]
    requires forall id :: id in s.q.jfcs ==> !Expired(s.q.jfcs[id], s.now)
    ensures Run(config, acts') == At(s.(work := s.work.(pump := Idle, kick := false)))
  {
    hide Run, Expired;
    var s1 := s.(work := s.work.(pump := Expiring([]), kick := false));
    Go(config, acts, s, AScan([]), s1);
    var s2 := s.(work := s.work.(pump := Gather, kick := false));
    Go(config, acts + [AScan([])], s1, AExpire, s2);
    acts' := acts + [AScan([])] + [AExpire];
    var s3 := s.(work := s.work.(pump := Visiting([]), kick := false));
    Go(config, acts', s2, AGather([]), s3);
    acts' := acts' + [AGather([])];
    Go(config, acts', s3, AEnter, s3.(work := s.work.(pump := Idle, kick := false)));
    acts' := acts' + [AEnter];
  }

  /** Nothing is published, no timer runs out and no destroy is parked. */
  predicate Still(s: Engine) {
    && s.config.pipelined && s.work.pump.Idle? && !s.work.kick && s.q.pubs == map[]
    && (forall x :: x in s.q.jfcs ==> !Expired(s.q.jfcs[x], s.now))
    && s.cmd.parkedJfc.None? && s.cmd.parkedCeq.None?
  }

  /** There is a slot, and room in the ring of JFC `id`. */
  predicate Roomy(s: Engine, id: u32) {
    && s.pool.inUse < s.config.slots && id in s.q.jfcs && Held(s.q.jfcs[id]) < s.q.jfcs[id].depth
    && !NoRoom(s.q.jfcs[id], Masked(s.q.jfcs[id].consumer))
  }

  /** A publication has been posted and the pump has come to it. */
  function Visited(s: Engine, id: u32): Engine {
    s.(q := s.q.(pubs := map[id := Publications(1, false, 0, map[])]),
       work := Work(Admitting(id, [], true), false, s.work.last))
  }

  lemma Posted(config: Config, acts: seq<Action>, s: Engine, id: u32) returns (acts': seq<Action>)
    requires Run(config, acts) == At(s) && Still(s)
    ensures Run(config, acts') == At(Visited(s, id))
  {
    hide Run, Expired;
    var t := s.(q := s.q.(pubs := map[id := Publications(1, false, 0, map[])]));
    assert s.q.pubs[id := Publications(1, false, 0, map[])] == t.q.pubs;
    var s1 := t.(work := Work(Start, true, s.work.last));
    Go(config, acts, s, APost(id), s1);
    var s2 := t.(work := Work(Expiring([]), false, s.work.last));
    Go(config, acts + [APost(id)], s1, AScan([]), s2);
    acts' := acts + [APost(id)] + [AScan([])];
    var s3 := t.(work := Work(Gather, false, s.work.last));
    Go(config, acts', s2, AExpire, s3);
    acts' := acts' + [AExpire];
    acts' := Listed(config, acts', s3, id);
  }

  lemma Listed(config: Config, acts: seq<Action>, s: Engine, id: u32) returns (acts': seq<Action>)
    requires Run(config, acts) == At(s) && s.work.pump == Gather && s.config.pipelined && s.q.pubs.Keys == {id}
    ensures Run(config, acts') == At(s.(work := s.work.(pump := Admitting(id, [], true))))
  {
    hide Run;
    var s4 := s.(work := s.work.(pump := Visiting([id])));
    Go(config, acts, s, AGather([id]), s4);
    acts' := acts + [AGather([id])];
    assert [id][1..] == [];
    Go(config, acts', s4, AEnter, s.(work := s.work.(pump := Admitting(id, [], true))));
    acts' := acts' + [AEnter];
  }

  /** The publication has been admitted and its CQE is being written. */
  function InTransit(s: Engine, id: u32): Engine
    requires id in s.q.jfcs
  {
    var j, r := s.q.jfcs[id], s.pool.nextSlot;
    s.(q := s.q.(pubs := map[id := Publications(0, false, 1, map[r := Writing])],
                 jfcs := s.q.jfcs[id := Taken(j, Masked(j.consumer), true)]),
       pool := Pool(s.pool.inUse + 1, s.pool.owners[r := Publication(id)], r + 1),
       work := Work(Admitting(id, [], true), false, Some(id)))
  }

  lemma AdmitStep(s: Engine, id: u32)
    requires s.config.pipelined && Roomy(s, id)
    ensures Admit(Visited(s, id)) == InTransit(s, id)
  {
    hide Held, NoRoom, Expired, Taken;
    var u := Reserving(Visited(s, id), id, []);
    assert u.q.pubs == map[id := Publications(0, false, 1, map[])];
    assert WithFlight(u.q.pubs, id, s.pool.nextSlot, Writing) == InTransit(s, id).q.pubs;
  }

  lemma Admission(config: Config, acts: seq<Action>, s: Engine, id: u32) returns (acts': seq<Action>)
    requires Run(config, acts) == At(s) && Still(s) && Roomy(s, id)
    ensures Run(config, acts') == At(InTransit(s, id))
  {
    acts' := Posted(config, acts, s, id);
    AdmitStep(s, id);
    hide Run, Roomy, Admit, InTransit;
    Go(config, acts', Visited(s, id), AAdmit, InTransit(s, id));
    acts' := acts' + [AAdmit];
  }

  // ------------------------------------------------------------------ publications that nobody admits

  /** A publication for a JFC without a context, the pump done with it. */
  function WaitingForContext(config: Config, id: u32): Engine {
    Boot(config).(q := Queues(map[], map[], {}, map[id := Publications(1, false, 0, map[])]))
  }

  lemma WaitsForContext(config: Config, id: u32) returns (acts: seq<Action>)
    requires config.pipelined
    ensures Run(config, acts) == At(WaitingForContext(config, id))
  {
    EmptyRun(config);
    acts := Posted(config, [], Boot(config), id);
    hide Run;
    var s5 := Visited(Boot(config), id);
    var s6 := s5.(work := Work(Visiting([]), false, None));
    Go(config, acts, s5, AAdmit, s6);
    acts := acts + [AAdmit];
    Go(config, acts, s6, AEnter, WaitingForContext(config, id));
    acts := acts + [AEnter];
  }

  /** Creating the context runs no pump, so the engine comes to rest with a queue that could be admitted at once
      and nothing in flight that would ever wake it. */
  lemma NewContextStrandsPublications(config: Config, id: u32) returns (acts: seq<Action>, s: Engine)
    requires config.pipelined && config.slots > 0
    ensures Run(config, acts) == At(s) && AtRest(s)
    ensures Admits(s, id) && s.pool.owners == map[] && s.q.pubs[id].flights == map[]
  {
    acts := WaitsForContext(config, id);
    var s0 := WaitingForContext(config, id);
    acts := JfcCreated(config, acts, s0, id, 1, 0);
    hide Run;
    s := WithJfc(s0, id, NewContext(1, 0));
  }

  // ------------------------------------------------------------------ events that nobody delivers

  /** The context after a completion that is notified at once. */
  function Done(j: Jfc): Jfc {
    j.(consumer := Masked(j.consumer), producer := j.producer + 1, completions := 0, deadline := 0)
  }

  /** A completion of JFC `id` has been written and notified, and the publication has ended. */
  function Notified(s: Engine, id: u32): Engine
    requires id in s.q.jfcs && id in s.q.ceqOf
  {
    var r := s.pool.nextSlot;
    var e := Event(id, s.q.ceqOf[id], r);
    s.(q := s.q.(jfcs := s.q.jfcs[id := Done(s.q.jfcs[id])]),
       pool := Pool(s.pool.inUse + 1, s.pool.owners[r := Notification], r + 1),
       work := Work(Idle, false, Some(id)),
       ev := s.ev.(queue := s.ev.queue + [e], dispatching := s.ev.dispatching || s.ev.active.None?),
       debt := s.debt.(checksCeq := s.debt.checksCeq + 1, checksJfc := s.debt.checksJfc + 1),
       log := s.log.(accepted := s.log.accepted + [e]))
  }

  /** The same with the publication and the pump as they are meanwhile, before the queue is erased. */
  function Placed(s: Engine, id: u32, p: Publications, work: Work): Engine
    requires id in s.q.jfcs && id in s.q.ceqOf
  {
    var t := Notified(s, id);
    t.(q := t.q.(pubs := map[id := p]), work := work, debt := s.debt)
  }

  predicate Immediate(s: Engine, id: u32) {
    && !s.config.oneShot && id in s.q.jfcs && id in s.q.ceqOf
    && s.q.jfcs[id].moderation == 1 && s.q.jfcs[id].completions == 0 && s.q.jfcs[id].writing == 0
  }

  lemma WrittenStep(s: Engine, id: u32)
    requires s.config.pipelined && Immediate(s, id)
    ensures WriteDone(InTransit(s, id), id, s.pool.nextSlot, true) ==
            Placed(s, id, Publications(0, false, 1, map[s.pool.nextSlot := Finishing(false)]),
                    Work(Admitting(id, [], true), false, Some(id)))
  {
    var r := s.pool.nextSlot;
    var u := InTransit(s, id);
    hide Masked;
    assert Committed(u.q.jfcs[id], true, true, s.now) == (Done(s.q.jfcs[id]), Due);
    assert u.q.jfcs[id := Done(s.q.jfcs[id])] == Notified(s, id).q.jfcs;
    hide Done, Committed, Taken;
    assert map[r := Writing][r := Finishing(false)] == map[r := Finishing(false)];
    assert WithFlight(u.q.pubs, id, r, Finishing(false))
        == map[id := Publications(0, false, 1, map[r := Finishing(false)])];
    assert s.pool.owners[r := Publication(id)][r := Notification] == s.pool.owners[r := Notification];
  }

  lemma ReleaseStep(s: Engine, id: u32)
    requires s.config.pipelined && id in s.q.jfcs && id in s.q.ceqOf
    ensures Release(Placed(s, id, Publications(0, false, 1, map[s.pool.nextSlot := Finishing(false)]),
                           Work(Admitting(id, [], true), false, Some(id))), id, s.pool.nextSlot)
         == Placed(s, id, Publications(0, false, 0, map[]), Work(Admitting(id, [], true), true, Some(id)))
  {
    hide Done;
    var r := s.pool.nextSlot;
    var u := Placed(s, id, Publications(0, false, 1, map[r := Finishing(false)]),
                    Work(Admitting(id, [], true), false, Some(id)));
    assert u.q.pubs[id].flights == map[r := Finishing(false)] && !u.q.pubs[id].flights[r].slot;
    assert map[r := Finishing(false)] - {r} == map[];
    assert Released(Publications(0, false, 1, map[r := Finishing(false)]), r, true) == Publications(0, false, 0, map[]);
    assert map[id := Publications(0, false, 1, map[r := Finishing(false)])][id := Publications(0, false, 0, map[])]
        == map[id := Publications(0, false, 0, map[])];
  }

  lemma RetireStep(s: Engine, id: u32)
    requires s.config.pipelined && id in s.q.jfcs && id in s.q.ceqOf && s.q.pubs == map[]
    ensures Admit(Placed(s, id, Publications(0, false, 0, map[]), Work(Admitting(id, [], true), true, Some(id))))
         == Notified(s, id).(work := Work(Visiting([]), true, Some(id)))
  {
    hide Done;
    assert map[id := Publications(0, false, 0, map[])] - {id} == map[];
  }

  /** A publication is posted, written, notified and ended, and the pump returns. */
  lemma Completion(config: Config, acts: seq<Action>, s: Engine, id: u32) returns (acts': seq<Action>)
    requires Run(config, acts) == At(s) && Still(s) && Roomy(s, id) && Immediate(s, id)
    ensures Run(config, acts') == At(Notified(s, id))
  {
    acts' := Admission(config, acts, s, id);
    var r, pump := s.pool.nextSlot, Admitting(id, [], true);
    var s0 := InTransit(s, id);
    var s1 := Placed(s, id, Publications(0, false, 1, map[r := Finishing(false)]), Work(pump, false, Some(id)));
    var s2 := Placed(s, id, Publications(0, false, 0, map[]), Work(pump, true, Some(id)));
    var s3 := Notified(s, id).(work := Work(Visiting([]), true, Some(id)));
    WrittenStep(s, id);
    ReleaseStep(s, id);
    RetireStep(s, id);
    hide Run, Still, Roomy, Immediate, WriteDone, Release, Admit, Done, Taken, Notified;
    Go(config, acts', s0, AWriteDone(id, r, true), s1);
    acts' := acts' + [AWriteDone(id, r, true)];
    Go(config, acts', s1, ARelease(id, r), s2);
    acts' := acts' + [ARelease(id, r)];
    Go(config, acts', s2, AAdmit, s3);
    acts' := acts' + [AAdmit];
    acts' := PumpReturns(config, acts', s, id, s3);
  }

  lemma PumpReturns(config: Config, acts: seq<Action>, s: Engine, id: u32, s3: Engine) returns (acts': seq<Action>)
    requires Run(config, acts) == At(s3) && Still(s) && id in s.q.jfcs && id in s.q.ceqOf
    requires s3 == Notified(s, id).(work := Work(Visiting([]), true, Some(id)))
    ensures Run(config, acts') == At(Notified(s, id))
  {
    hide Run, Masked;
    var s4 := s3.(work := Work(Start, true, Some(id)));
    assert forall x :: x in s4.q.jfcs && x != id ==> s4.q.jfcs[x] == s.q.jfcs[x];
    assert !Expired(Done(s.q.jfcs[id]), s.now);
    hide Done, Expired;
    Go(config, acts, s3, AEnter, s4);
    acts' := EmptyRound(config, acts + [AEnter], s4);
  }

  /** The context of a new event queue, and what a write that fails after an early report leaves of it. */
  const NEW := Ceq(CeqDepth(0), 0, 0, None, false)

  const FAULTED := Ceq(CeqDepth(0), 0, 0, None, true)

  /** The entry of the only event is written; the guest reports it early, the write fails, and the queue is
      faulted. */
  lemma Faulted(config: Config, acts: seq<Action>, s: Engine, e: Event) returns (acts': seq<Action>, t: Engine)
    requires Run(config, acts) == At(s) && s.ev == Events([e], None, true, map[0 := NEW]) && e.ceq == 0
    requires s.debt.owed == 0
    ensures Run(config, acts') == At(t) && t.debt.owed == 0
    ensures t == s.(pool := s.pool.(owners := s.pool.owners[e.slot := Leaving]),
                    ev := Events([], None, false, map[0 := FAULTED]), debt := t.debt, log := t.log)
  {
    hide Run, CeqDepth;
    var s1 := Delivered(s, e);
    var s2 := s1.(ev := s1.ev.(dispatching := false), debt := Looks(s1.debt));
    assert Eligible(s.ev.ceqs, [e][0]);
    assert [e][..0] + [e][1..] == [];
    Go(config, acts, s, ADeliver, s1);
    Go(config, acts + [ADeliver], s1, ADeliver, s2);
    acts' := acts + [ADeliver] + [ADeliver];
    var s3 := s2.(ev := s2.ev.(ceqs := map[0 := NEW.(early := Some(1))]));
    assert map[0 := NEW][0 := NEW.(early := Some(1))] == s3.ev.ceqs;
    Go(config, acts', s2, AReport(0, 1), s3);
    acts' := acts' + [AReport(0, 1)];
    acts', t := WriteFails(config, acts', s3, e);
  }

  function Looks(d: Debts): Debts { d.(checksCeq := d.checksCeq + 1, checksJfc := d.checksJfc + 1) }

  function Delivered(s: Engine, e: Event): Engine {
    s.(ev := s.ev.(queue := [], active := Some(Active(e, true))),
       log := s.log.(dispatched := s.log.dispatched + [e]))
  }

  lemma WriteFails(config: Config, acts: seq<Action>, s: Engine, e: Event) returns (acts': seq<Action>, t: Engine)
    requires Run(config, acts) == At(s) && e.ceq == 0 && s.debt.owed == 0
    requires s.ev == Events([], Some(Active(e, true)), false, map[0 := NEW.(early := Some(1))])
    ensures Run(config, acts') == At(t) && t.debt.owed == 0
    ensures t == s.(pool := s.pool.(owners := s.pool.owners[e.slot := Leaving]),
                    ev := Events([], None, false, map[0 := FAULTED]), debt := t.debt)
  {
    hide Run, CeqDepth;
    var s1 := s.(pool := s.pool.(owners := s.pool.owners[e.slot := Leaving]),
                 ev := Events([], None, false, map[0 := FAULTED]), debt := s.debt.(owed := 1));
    assert map[0 := NEW.(early := Some(1))][0 := FAULTED] == s1.ev.ceqs;
    Go(config, acts, s, AEventWritten(false), s1);
    acts' := acts + [AEventWritten(false)];
    var s2 := s1.(ev := s1.ev.(dispatching := true), debt := Looks(s.debt));
    Go(config, acts', s1, AReturn, s2);
    acts' := acts' + [AReturn];
    t := s2.(ev := s1.ev, debt := Looks(s2.debt));
    Go(config, acts', s2, ADeliver, t);
    acts' := acts' + [ADeliver];
  }

  /** The context of the event queue arrives, and the command is answered. */
  lemma QueueLoads(config: Config, acts: seq<Action>, s: Engine) returns (acts': seq<Action>)
    requires Run(config, acts) == At(s) && s.cmd == Commands(None, None, Some(NewCeq(0)), TAKEN)
    ensures Run(config, acts') ==
            At(s.(cmd := Commands(None, None, None, IDLE), ev := s.ev.(ceqs := s.ev.ceqs[0 := NEW])))
  {
    hide Run, CeqDepth;
    var t := s.(cmd := Commands(None, None, None, TAKEN.(answering := 1)), ev := s.ev.(ceqs := s.ev.ceqs[0 := NEW]));
    Go(config, acts, s, ALoadCeq(true, 0), t);
    acts' := CommandEnds(config, acts + [ALoadCeq(true, 0)], t);
  }

  /** With no destroy parked, looking at parked destroys does nothing. */
  lemma {:induction false} AllLooked(config: Config, acts: seq<Action>, s: Engine) returns (acts': seq<Action>)
    requires Run(config, acts) == At(s) && s.cmd.parkedJfc.None? && s.cmd.parkedCeq.None?
    ensures Run(config, acts') == At(s.(debt := Debts(s.debt.owed, 0, 0)))
    decreases s.debt.checksCeq + s.debt.checksJfc
  {
    hide Run;
    if s.debt.checksCeq > 0 {
      var t := s.(debt := s.debt.(checksCeq := s.debt.checksCeq - 1));
      Go(config, acts, s, ACheckCeq, t);
      acts' := AllLooked(config, acts + [ACheckCeq], t);
    } else if s.debt.checksJfc > 0 {
      var t := s.(debt := s.debt.(checksJfc := s.debt.checksJfc - 1));
      Go(config, acts, s, ACheckJfc, t);
      acts' := AllLooked(config, acts + [ACheckJfc], t);
    } else {
      acts' := acts;
    }
  }

  /** A JFC that notifies at once, on event queue 0. */
  function TwoQueues(config: Config, id: u32, producer: nat, c: Ceq): Engine {
    var j := NewContext(1, 0).(producer := producer);
    Boot(config).(q := Queues(map[id := j], map[id := 0], {}, map[]), ev := Events([], None, false, map[0 := c]))
  }

  lemma QueuesCreated(config: Config, id: u32) returns (acts: seq<Action>)
    ensures Run(config, acts) == At(TwoQueues(config, id, 0, NEW))
  {
    EmptyRun(config);
    acts := Begun(config, [], Boot(config), NewCeq(0));
    hide Run, JfcDepth, CeqDepth;
    acts := QueueLoads(config, acts, Boot(config).(cmd := Commands(None, None, Some(NewCeq(0)), TAKEN)));
    var s := Boot(config).(ev := Events([], None, false, map[0 := NEW]));
    acts := JfcCreated(config, acts, s, id, 1, 0);
    assert WithJfc(s, id, NewContext(1, 0)) == TwoQueues(config, id, 0, NEW);
  }

  lemma RoomLeft(config: Config, id: u32, c: Ceq)
    requires config.pipelined && !config.oneShot && config.slots > 0
    ensures var s := TwoQueues(config, id, 0, c); Still(s) && Roomy(s, id) && Immediate(s, id) && id in s.q.ceqOf
  {
  }

  /** The two queues after one completion, the notification of which failed: the event queue is faulted. */
  function AfterFault(config: Config, id: u32, pool: Pool, debt: Debts, log: History): Engine {
    TwoQueues(config, id, 1, FAULTED).(pool := pool, work := Work(Idle, false, Some(id)), debt := debt, log := log)
  }

  lemma FirstNotified(config: Config, id: u32)
    ensures var t := Notified(TwoQueues(config, id, 0, NEW), id);
            && t.ev == Events([Event(id, 0, 0)], None, true, map[0 := NEW]) && t.debt.owed == 0
            && forall debt, log ::
                 t.(pool := t.pool.(owners := t.pool.owners[0 := Leaving]),
                    ev := Events([], None, false, map[0 := FAULTED]), debt := debt, log := log)
                 == AfterFault(config, id, Pool(1, map[0 := Leaving], 1), debt, log)
  {
    hide JfcDepth, CeqDepth;
    var s := TwoQueues(config, id, 0, NEW);
    assert s.q.jfcs[id := NewContext(1, 0).(producer := 1)] == TwoQueues(config, id, 1, FAULTED).q.jfcs;
    assert s.pool.owners[0 := Notification][0 := Leaving] == map[0 := Leaving];
  }

  lemma QueueFaults(config: Config, id: u32) returns (acts: seq<Action>, t: Engine)
    requires config.pipelined && !config.oneShot && config.slots > 0
    ensures Run(config, acts) == At(t) && t.debt.owed == 0
    ensures t == AfterFault(config, id, Pool(1, map[0 := Leaving], 1), t.debt, t.log)
  {
    FirstNotified(config, id);
    RoomLeft(config, id, NEW);
    hide Run, Still, Roomy, Immediate, Notified, TwoQueues, AfterFault;
    acts := QueuesCreated(config, id);
    var s := TwoQueues(config, id, 0, NEW);
    acts := Completion(config, acts, s, id);
    acts, t := Faulted(config, acts, Notified(s, id), Event(id, 0, 0));
  }

  /** The event queue is faulted, and at rest nothing else is left. */
  lemma QueueFaulted(config: Config, id: u32) returns (acts: seq<Action>, t: Engine)
    requires config.pipelined && !config.oneShot && config.slots > 0
    ensures Run(config, acts) == At(t) && t.debt.owed == 0
    ensures t == AfterFault(config, id, Pool(0, map[], 1), t.debt, t.log)
  {
    hide Run, JfcDepth, CeqDepth;
    acts, t := QueueFaults(config, id);
    acts := SlotFreed(config, acts, t);
    t := t.(pool := Pool(0, map[], 1));
  }

  /** The only slot is given back, and the pump finds nothing to do. */
  lemma SlotFreed(config: Config, acts: seq<Action>, s: Engine) returns (acts': seq<Action>)
    requires Run(config, acts) == At(s) && s.pool == Pool(1, map[0 := Leaving], 1)
    requires s.work.pump.Idle? && !s.work.kick && s.q.pubs == map[]
    requires forall id :: id in s.q.jfcs ==> !Expired(s.q.jfcs[id], s.now)
    ensures Run(config, acts') == At(s.(pool := Pool(0, map[], 1)))
  {
    hide Run, Expired;
    assert map[0 := Leaving] - {0} == map[];
    var t := s.(pool := Pool(0, map[], 1), work := Work(Start, true, s.work.last));
    Go(config, acts, s, AFree(0), t);
    acts' := EmptyRound(config, acts + [AFree(0)], t);
  }

  /** An event is queued for the faulted queue while the context of a new one is being read, and the search for an
      event with credit ends without one. */
  lemma EventQueued(config: Config, id: u32) returns (acts: seq<Action>, s: Engine)
    requires config.pipelined && !config.oneShot && config.slots > 0
    ensures Run(config, acts) == At(s) && s.cmd == Commands(None, None, Some(NewCeq(0)), TAKEN)
    ensures s.work.pump.Idle? && s.pool.inUse == 1 && s.debt.owed == 0
    ensures s.ev == Events([Event(id, 0, 1)], None, false, map[0 := FAULTED])
  {
    acts, s := QueueFaulted(config, id);
    AnotherQueued(config, id, s);
    var s1 := s.(cmd := Commands(None, None, Some(NewCeq(0)), TAKEN));
    hide Run, Still, Roomy, Immediate, Notified, AfterFault, Admissible, Eligible;
    acts := Begun(config, acts, s, NewCeq(0));
    acts := Completion(config, acts, s1, id);
    s := Notified(s1, id);
    acts := NothingFound(config, acts, s);
    s := s.(ev := s.ev.(dispatching := false), debt := Looks(s.debt));
  }

  lemma AnotherQueued(config: Config, id: u32, s: Engine)
    requires config.pipelined && !config.oneShot && config.slots > 0
    requires s == AfterFault(config, id, Pool(0, map[], 1), s.debt, s.log) && s.debt.owed == 0
    ensures s.cmd == Commands(None, None, None, IDLE) && Admissible(s, NewCeq(0))
    ensures var s1 := s.(cmd := Commands(None, None, Some(NewCeq(0)), TAKEN));
            && Still(s1) && Roomy(s1, id) && Immediate(s1, id)
            && var t := Notified(s1, id);
               && t.cmd == s1.cmd && t.work.pump.Idle? && t.pool.inUse == 1 && t.debt.owed == 0
               && t.ev == Events([Event(id, 0, 1)], None, true, map[0 := FAULTED])
               && !Eligible(t.ev.ceqs, t.ev.queue[0])
  {
  }

  lemma NothingFound(config: Config, acts: seq<Action>, s: Engine) returns (acts': seq<Action>)
    requires Run(config, acts) == At(s) && s.ev.active.None? && s.ev.dispatching && |s.ev.queue| == 1
    requires !Eligible(s.ev.ceqs, s.ev.queue[0])
    ensures Run(config, acts') == At(s.(ev := s.ev.(dispatching := false), debt := Looks(s.debt)))
  {
    hide Run, Eligible;
    Go(config, acts, s, ADeliver, s.(ev := s.ev.(dispatching := false), debt := Looks(s.debt)));
    acts' := acts + [ADeliver];
  }

  /** Creating an event queue again runs no dispatch: an event that was queued while the context was read waits
      for a queue with nothing outstanding and no fault, nothing is being delivered, and nobody will look. */
  lemma NewQueueStrandsEvents(config: Config, id: u32) returns (acts: seq<Action>, s: Engine)
    requires config.pipelined && !config.oneShot && config.slots > 0
    ensures Run(config, acts) == At(s) && AtRest(s) && s.ev.active.None? && s.pool.inUse == 1
    ensures |s.ev.queue| == 1 && s.ev.queue[0].ceq == 0
    ensures 0 in s.ev.ceqs && !s.ev.ceqs[0].fault && Outstanding(s.ev.ceqs[0]) == 0
  {
    hide Run, CeqDepth;
    acts, s := EventQueued(config, id);
    acts := QueueLoads(config, acts, s);
    s := s.(cmd := Commands(None, None, None, IDLE), ev := s.ev.(ceqs := s.ev.ceqs[0 := NEW]));
    acts := AllLooked(config, acts, s);
    s := s.(debt := Debts(0, 0, 0));
  }

  // ------------------------------------------------------------------ a destroy that is not woken

  /** One completion queue that notifies after two completions or four microseconds. */
  function Moderated(producer: nat, completions: nat, deadline: nat): Jfc {
    Jfc(JfcDepth(0), producer, 0, 2, 1, completions, deadline, 0)
  }

  function OneQueue(config: Config, id: u32, j: Jfc, pubs: map<u32, Publications>, pool: Pool, work: Work): Engine {
    Boot(config).(q := Queues(map[id := j], map[id := 0], {}, pubs), pool := pool, work := work)
  }

  lemma QueueCreated(config: Config, id: u32) returns (acts: seq<Action>)
    ensures Run(config, acts) ==
            At(OneQueue(config, id, Moderated(0, 0, 0), map[], Pool(0, map[], 0), Work(Idle, false, None)))
  {
    EmptyRun(config);
    acts := JfcCreated(config, [], Boot(config), id, 2, 1);
    hide Run, JfcDepth;
    assert WithJfc(Boot(config), id, NewContext(2, 1)) ==
           OneQueue(config, id, Moderated(0, 0, 0), map[], Pool(0, map[], 0), Work(Idle, false, None));
  }

  function CqeInFlight(config: Config, id: u32): Engine {
    OneQueue(config, id, Moderated(1, 0, 0).(writing := 1), map[id := Publications(0, false, 1, map[0 := Writing])],
             Pool(1, map[0 := Publication(id)], 1), Work(Admitting(id, [], true), false, Some(id)))
  }

  /** A publication is admitted and its CQE write starts. */
  lemma QueueWriting(config: Config, id: u32) returns (acts: seq<Action>)
    requires config.pipelined && config.slots > 0
    ensures Run(config, acts) == At(CqeInFlight(config, id))
  {
    acts := QueueCreated(config, id);
    hide Run, JfcDepth;
    var s := OneQueue(config, id, Moderated(0, 0, 0), map[], Pool(0, map[], 0), Work(Idle, false, None));
    acts := Admission(config, acts, s, id);
    assert InTransit(s, id) == CqeInFlight(config, id) by {
      assert s.q.jfcs[id := Moderated(1, 0, 0).(writing := 1)] == CqeInFlight(config, id).q.jfcs;
      assert s.pool.owners[0 := Publication(id)] == map[0 := Publication(id)];
    }
  }

  /** Its CQE is written and the completion moderated: only the timer is left. */
  lemma QueueCompleted(config: Config, id: u32) returns (acts: seq<Action>)
    requires config.pipelined && config.slots > 0
    ensures Run(config, acts) ==
            At(OneQueue(config, id, Moderated(1, 1, 4_000_000), map[id := Publications(0, false, 0, map[])],
                        Pool(0, map[], 1),
                        Work(Admitting(id, [], true), true, Some(id))))
  {
    acts := QueueWriting(config, id);
    hide Run, JfcDepth;
    var work := Work(Admitting(id, [], true), false, Some(id));
    var s1 := CqeInFlight(config, id);
    var s2 := OneQueue(config, id, Moderated(1, 1, 4_000_000),
                       map[id := Publications(0, false, 1, map[0 := Finishing(true)])],
                       Pool(1, map[0 := Publication(id)], 1), work);
    assert map[0 := Writing][0 := Finishing(true)] == map[0 := Finishing(true)];
    assert s1.q.jfcs[id := Moderated(1, 1, 4_000_000)] == s2.q.jfcs;
    assert WithFlight(s1.q.pubs, id, 0, Finishing(true)) == s2.q.pubs;
    assert WriteDone(s1, id, 0, true) == s2;
    Go(config, acts, s1, AWriteDone(id, 0, true), s2);
    acts := CompletionReturned(config, id, acts + [AWriteDone(id, 0, true)], s2);
  }

  lemma CompletionReturned(config: Config, id: u32, acts: seq<Action>, s2: Engine) returns (acts': seq<Action>)
    requires config.pipelined && Run(config, acts) == At(s2)
    requires s2 == OneQueue(config, id, Moderated(1, 1, 4_000_000),
                            map[id := Publications(0, false, 1, map[0 := Finishing(true)])],
                            Pool(1, map[0 := Publication(id)], 1), Work(Admitting(id, [], true), false, Some(id)))
    ensures Run(config, acts') ==
            At(OneQueue(config, id, Moderated(1, 1, 4_000_000), map[id := Publications(0, false, 0, map[])],
                        Pool(0, map[], 1),
                        Work(Admitting(id, [], true), true, Some(id))))
  {
    hide Run, JfcDepth;
    var s3 := OneQueue(config, id, Moderated(1, 1, 4_000_000), map[id := Publications(0, false, 0, map[])],
                       Pool(1, map[0 := Leaving], 1), Work(Admitting(id, [], true), true, Some(id)));
    assert map[0 := Finishing(true)] - {0} == map[];
    assert Released(s2.q.pubs[id], 0, true) == Publications(0, false, 0, map[]);
    assert s2.q.pubs[id := Publications(0, false, 0, map[])] == s3.q.pubs;
    assert s2.pool.owners[0 := Leaving] == s3.pool.owners;
    Go(config, acts, s2, ARelease(id, 0), s3);
    acts' := acts + [ARelease(id, 0)];
    assert map[0 := Leaving] - {0} == map[];
    Go(config, acts', s3, AFree(0), s3.(pool := Pool(0, map[], 1)));
    acts' := acts' + [AFree(0)];
  }

  function TimerOnly(config: Config, id: u32): Engine {
    OneQueue(config, id, Moderated(1, 1, 4_000_000), map[], Pool(0, map[], 1), Work(Idle, false, Some(id)))
  }

  /** The queue is erased, the pump returns and nobody owes a look. */
  lemma QueueIdles(config: Config, id: u32) returns (acts: seq<Action>)
    requires config.pipelined && config.slots > 0
    ensures Run(config, acts) == At(TimerOnly(config, id))
  {
    acts := QueueCompleted(config, id);
    hide Run, JfcDepth;
    var j := Moderated(1, 1, 4_000_000);
    var s0 := OneQueue(config, id, j, map[id := Publications(0, false, 0, map[])], Pool(0, map[], 1),
                       Work(Admitting(id, [], true), true, Some(id)));
    var s1 := OneQueue(config, id, j, map[], Pool(0, map[], 1), Work(Visiting([]), true, Some(id)))
                .(debt := Debts(0, 1, 1));
    assert map[id := Publications(0, false, 0, map[])] - {id} == map[];
    Go(config, acts, s0, AAdmit, s1);
    acts := acts + [AAdmit];
    var s2 := s1.(work := Work(Start, true, Some(id)));
    Go(config, acts, s1, AEnter, s2);
    acts := EmptyRound(config, acts + [AEnter], s2);
    acts := LooksInVain(config, id, acts);
  }

  lemma LooksInVain(config: Config, id: u32, earlier: seq<Action>) returns (acts: seq<Action>)
    requires Run(config, earlier) == At(TimerOnly(config, id).(debt := Debts(0, 1, 1)))
    ensures Run(config, acts) == At(TimerOnly(config, id))
  {
    hide Run, JfcDepth;
    acts := earlier;
    var s3 := TimerOnly(config, id).(debt := Debts(0, 1, 1));
    var s4 := TimerOnly(config, id).(debt := Debts(0, 0, 1));
    Go(config, acts, s3, ACheckCeq, s4);
    acts := acts + [ACheckCeq];
    Go(config, acts, s4, ACheckJfc, TimerOnly(config, id));
    acts := acts + [ACheckJfc];
  }

  /** The exception of `ParkedMeansBusy` is real: a destroy that waits for the moderation timer of a JFC that
      the guest has not armed is not looked at when the timer runs out, and the command queue stays taken. */
  lemma SilentTimerStrandsDestroy(config: Config, id: u32) returns (acts: seq<Action>, s: Engine)
    requires config.pipelined && config.oneShot && config.slots > 0
    ensures Run(config, acts) == At(s) && AtRest(s) && s.pool.owners == map[]
    ensures s.cmd.parkedJfc == Some(id) && !JfcBusy(s, id)
  {
    acts := QueueIdles(config, id);
    var s0 := TimerOnly(config, id);
    acts := CommandArrives(config, acts, s0);
    hide Run, JfcDepth;
    var s1 := s0.(cmd := Commands(None, Some(id), None, TAKEN));
    assert TimerBusy(s0, id);
    Go(config, acts, WithRing(s0, TAKEN.(fetching := 1)), ADestroyJfc(id), s1);
    acts := acts + [ADestroyJfc(id)];
    var s2 := s1.(now := 4_000_000, work := Work(Start, true, Some(id)));
    Go(config, acts, s1, AAdvance(4_000_000), s2);
    acts := acts + [AAdvance(4_000_000)];
    var s3 := s2.(work := Work(Expiring([id]), false, Some(id)));
    assert TimersOf(s2, [id]);
    Go(config, acts, s2, AScan([id]), s3);
    acts := acts + [AScan([id])];
    acts, s := SilentExpiry(config, id, acts, s3);
  }

  lemma SilentExpiry(config: Config, id: u32, acts: seq<Action>, s3: Engine) returns (acts': seq<Action>, s: Engine)
    requires config.oneShot && config.slots > 0 && Run(config, acts) == At(s3)
    requires s3 == TimerOnly(config, id).(cmd := Commands(None, Some(id), None, TAKEN), now := 4_000_000,
                                          work := Work(Expiring([id]), false, Some(id)))
    ensures Run(config, acts') == At(s) && AtRest(s) && s.pool.owners == map[]
    ensures s.cmd.parkedJfc == Some(id) && !JfcBusy(s, id)
  {
    hide Run, JfcDepth;
    var quiet := s3.(q := Queues(map[id := Moderated(1, 0, 0)], map[id := 0], {}, map[]));
    var s4 := quiet.(pool := Pool(1, map[1 := Leaving], 2), work := Work(Expiring([]), false, Some(id)));
    assert [id][1..] == [];
    assert s3.q.jfcs[id := Moderated(1, 0, 0)] == quiet.q.jfcs;
    assert s3.pool.owners[1 := Leaving] == map[1 := Leaving]
        && s3.pool.owners[1 := Leaving][1 := Leaving] == map[1 := Leaving];
    assert Expire(s3) == s4;
    Go(config, acts, s3, AExpire, s4);
    acts' := acts + [AExpire];
    var s5 := s4.(work := Work(Gather, false, Some(id)));
    Go(config, acts', s4, AExpire, s5);
    acts' := acts' + [AExpire];
    assert map[1 := Leaving] - {1} == map[];
    var s6 := quiet.(pool := Pool(0, map[], 2), work := Work(Gather, true, Some(id)));
    Go(config, acts', s5, AFree(1), s6);
    assert forall x :: x in s6.q.jfcs ==> !Expired(s6.q.jfcs[x], s6.now);
    acts' := NothingGathered(config, acts' + [AFree(1)], s6);
    s := s6.(work := Work(Idle, false, Some(id)));
  }

  /** The pump goes on with no queues, and once more as it was called meanwhile. */
  lemma NothingGathered(config: Config, acts: seq<Action>, s: Engine) returns (acts': seq<Action>)
    requires Run(config, acts) == At(s) && s.work.pump == Gather && s.work.kick && s.q.pubs == map[]
    requires forall id :: id in s.q.jfcs ==> !Expired(s.q.jfcs[id], s.now)
    ensures Run(config, acts') == At(s.(work := s.work.(pump := Idle, kick := false)))
  {
    hide Run, Expired;
    var s1 := s.(work := s.work.(pump := Visiting([])));
    Go(config, acts, s, AGather([]), s1);
    acts' := acts + [AGather([])];
    var s2 := s.(work := s.work.(pump := Start));
    Go(config, acts', s1, AEnter, s2);
    acts' := EmptyRound(config, acts' + [AEnter], s2);
  }
}
