/** No wakeup is lost: when the engine comes to rest, everything that waits has a reason to wait. */
module EngineWake {
  import opened Cq
  import opened Engine
  import opened EngineInv
  import opened EngineProof
  import opened Optional
  import opened Words

  // ------------------------------------------------------------------ the work pump

  /** The pump, as it stands, will still come to queue `id`. */
  predicate Coming(pump: Pump, id: u32) {
    match pump
    case Idle => false
    case Visiting(ids) => id in ids
    case Admitting(x, ids, more) => (x == id && more) || id in ids
    case _ => true
  }

  predicate Pumped(w: Work, id: u32) { w.kick || Coming(w.pump, id) }

  /** A queue that could be admitted now is one the pump will come to. */
  predicate Prompt(s: Engine, id: u32) { Admits(s, id) ==> Pumped(s.work, id) }

  /** At least when it has nothing in flight that would run the pump when it ends. */
  predicate Driven(s: Engine, id: u32) {
    Admits(s, id) && !s.q.pubs[id].running && s.q.pubs[id].inFlight == 0 ==> Pumped(s.work, id)
  }

  predicate Scanned(w: Work, id: u32) { w.kick || w.pump.Start? || (w.pump.Expiring? && id in w.pump.timers) }

  /** An expired timer waits only for a slot. */
  predicate Timely(s: Engine, id: u32) {
    id in s.q.jfcs && Expired(s.q.jfcs[id], s.now) && s.pool.inUse < s.config.slots ==> Scanned(s.work, id)
  }

  /** Without a context nothing is in flight. */
  predicate Waiting(s: Engine, id: u32) {
    s.config.pipelined && id in s.q.pubs && id !in s.q.jfcs ==> s.q.pubs[id].inFlight == 0
  }

  ghost predicate Awake(s: Engine) {
    && (s.work.pump.Idle? ==> !s.work.kick)
    && (forall id {:trigger Timely(s, id)} :: Timely(s, id))
    && (forall id {:trigger Waiting(s, id)} :: Waiting(s, id))
  }

  // ------------------------------------------------------------------ the steps that open a queue unseen

  /** Queue `id` has publications waiting, there is a slot, and the pump will not come by. */
  predicate Overlooked(s: Engine, id: u32) {
    && s.config.pipelined && id in s.q.pubs && s.q.pubs[id].pending > 0 && s.pool.inUse < s.config.slots
    && !Pumped(s.work, id)
  }

  /** The context of JFC `id` is created. */
  predicate Arrives(s: Engine, a: Action, id: u32) {
    a.ALoadJfc? && a.ok && s.cmd.load.Some? && s.cmd.load.value.id == id
  }

  /** A consumer index is read that makes room in the ring of JFC `id`. */
  predicate MakesRoom(s: Engine, a: Action, id: u32) {
    id in s.q.jfcs
    && var j := s.q.jfcs[id];
       if a.AReadDone? then
         a.id == id && a.ok && !NoRoom(j, Masked(a.value)) && Held(Taken(j, Masked(a.value), true)) < j.depth
       else if a.AQueried? then
         a.ok && s.cmd.load.Some? && s.cmd.load.value.id == id && Held(j.(consumer := Masked(a.value))) < j.depth
       else false
  }

  predicate Opens(s: Engine, a: Action, id: u32) {
    Overlooked(s, id) && (Arrives(s, a, id) || MakesRoom(s, a, id))
  }

  predicate OpensNew(s: Engine, a: Action, id: u32) { Overlooked(s, id) && Arrives(s, a, id) }

  // ------------------------------------------------------------------ what one step keeps

  predicate Kept(s: Engine, t: Engine, id: u32) {
    (Prompt(s, id) ==> Prompt(t, id)) && (Driven(s, id) ==> Driven(t, id))
  }

  ghost predicate Keeps(s: Engine, t: Engine) {
    Awake(t) && forall id {:trigger Kept(s, t, id)} :: Kept(s, t, id)
  }

  lemma KickKeeps(s: Engine, u: Engine)
    requires forall id :: Waiting(u, id)
    ensures Keeps(s, Kick(u))
  {
    var t := Kick(u);
    forall id
      ensures Kept(s, t, id) && Timely(t, id) && Waiting(t, id)
    {
      assert Waiting(u, id);
    }
  }

  /** What the properties look at. */
  predicate SameView(s: Engine, t: Engine) {
    && t.config == s.config && t.now == s.now && t.q.pubs == s.q.pubs && t.q.jfcs == s.q.jfcs
    && t.pool.inUse == s.pool.inUse && t.work == s.work
  }

  lemma SameKeeps(s: Engine, t: Engine)
    requires Awake(s) && SameView(s, t)
    ensures Keeps(s, t)
  {
    forall id
      ensures Kept(s, t, id) && Timely(t, id) && Waiting(t, id)
    {
      assert Timely(s, id) && Waiting(s, id);
    }
  }

  predicate Quiet(j: Jfc, j': Jfc, now: nat) { Expired(j', now) ==> Expired(j, now) }

  predicate SameRing(j: Jfc, j': Jfc) { Held(j') == Held(j) && j'.depth == j.depth }

  /** One queue and its context change, its ring perhaps while something is in flight: only the queue itself can
      become admissible, and only by room in its ring. */
  lemma OneKeeps(s: Engine, t: Engine, id: u32)
    requires Awake(s) && t.config == s.config && t.now == s.now && t.pool.inUse == s.pool.inUse && t.work == s.work
    requires id in s.q.pubs && id in t.q.pubs
    requires t.q.pubs == s.q.pubs[id := s.q.pubs[id].(flights := t.q.pubs[id].flights)]
    requires id in s.q.jfcs ==>
              id in t.q.jfcs && t.q.jfcs == s.q.jfcs[id := t.q.jfcs[id]] && Quiet(s.q.jfcs[id], t.q.jfcs[id], s.now)
    requires id !in s.q.jfcs ==> t.q.jfcs == s.q.jfcs
    requires s.config.pipelined && id in s.q.jfcs && !SameRing(s.q.jfcs[id], t.q.jfcs[id]) ==>
               t.q.jfcs[id].depth == s.q.jfcs[id].depth && s.q.pubs[id].inFlight > 0
    ensures Awake(t) && forall x {:trigger Kept(s, t, x)} :: x != id ==> Kept(s, t, x)
    ensures Driven(s, id) ==> Driven(t, id)
    ensures Kept(s, t, id)
            || (s.config.pipelined && id in s.q.jfcs && Held(s.q.jfcs[id]) >= s.q.jfcs[id].depth
                && Held(t.q.jfcs[id]) < t.q.jfcs[id].depth)
  {
    forall x
      ensures Timely(t, x) && Waiting(t, x) && (x != id ==> Kept(s, t, x))
    {
      assert Timely(s, x) && Waiting(s, x);
    }
  }

  lemma FlightCounted(s: Engine, id: u32, r: nat)
    requires Safe(s) && InFlight(s, id, r)
    ensures if s.config.pipelined then s.q.pubs[id].inFlight > 0 else s.q.pubs[id].running
  {
    assert Counted(s.config.pipelined, s.q.pubs[id]);
    assert r in s.q.pubs[id].flights.Keys;
  }

  /** The only way a finished read opens its queue unseen is by making room. */
  lemma ReadDoneKeeps(s: Engine, id: u32, r: nat, ok: bool, value: u32)
    requires Safe(s) && Awake(s) && InFlight(s, id, r)
    ensures var t := ReadDone(s, id, r, ok, value);
            && Awake(t) && (forall x {:trigger Kept(s, t, x)} :: x != id ==> Kept(s, t, x))
            && (Driven(s, id) ==> Driven(t, id))
            && (Prompt(s, id) ==> (Prompt(t, id) <==> !Opens(s, AReadDone(id, r, ok, value), id)))
  {
    FlightCounted(s, id, r);
    var t := ReadDone(s, id, r, ok, value);
    hide Safe, Awake, Held, Masked;
    if !ok || id !in s.q.jfcs {
      OneKeeps(s, t, id);
    } else if NoRoom(s.q.jfcs[id], Masked(value)) {
      OneKeeps(s, t, id);
    } else {
      OneKeeps(s, t, id);
      hide NoRoom;
    }
  }

  /** Committing a CQE moves no ring index the pump looks at, and starts no timer that has expired. */
  lemma CommittedQuiet(j: Jfc, pipelined: bool, ok: bool, now: nat)
    requires JfcOk(j) && (pipelined ==> j.writing > 0)
    ensures Quiet(j, Committed(j, pipelined, ok, now).0, now)
    ensures pipelined ==> SameRing(j, Committed(j, pipelined, ok, now).0)
  {
  }

  lemma EmitView(s: Engine, id: u32, r: nat)
    ensures SameView(s, Emit(s, id, r))
  {
    if Silent(s, id) {
    } else {
    }
  }

  lemma Onward(s: Engine, u: Engine, t: Engine)
    requires Keeps(s, u) && Keeps(u, t)
    ensures Keeps(s, t)
  {
    hide Awake, Prompt, Driven;
    forall id
      ensures Kept(s, t, id)
    {
      assert Kept(s, u, id) && Kept(u, t, id);
    }
  }

  lemma WriteDoneKeeps(s: Engine, id: u32, r: nat, ok: bool)
    requires Safe(s) && Awake(s) && InFlight(s, id, r) && s.q.pubs[id].flights[r] == Writing
    ensures Keeps(s, WriteDone(s, id, r, ok))
  {
    WritingCounted(s, id, r);
    CommittedQuiet(s.q.jfcs[id], s.config.pipelined, ok, s.now);
    var (j, verdict) := Committed(s.q.jfcs[id], s.config.pipelined, ok, s.now);
    FlightCounted(s, id, r);
    hide Safe, Awake, Committed, Emit, Quiet, Held, SameView, Prompt, Driven;
    if verdict.Due? {
      var u := s.(q := s.q.(jfcs := s.q.jfcs[id := j], pubs := WithFlight(s.q.pubs, id, r, Finishing(false))));
      OneKeeps(s, u, id);
      EmitView(u, id, r);
      SameKeeps(u, Emit(u, id, r));
      Onward(s, u, Emit(u, id, r));
    } else {
      OneKeeps(s, WriteDone(s, id, r, ok), id);
    }
  }

  /** Nothing becomes admissible, and the pump comes to whatever it was to come to. */
  lemma PumpKeeps(s: Engine, t: Engine)
    requires Awake(s) && t.config == s.config && t.now == s.now && t.q.jfcs == s.q.jfcs && t.q.pubs == s.q.pubs
    requires t.pool.inUse == s.pool.inUse && (t.work.pump.Idle? ==> !t.work.kick)
    requires forall id :: Pumped(s.work, id) && Admits(s, id) ==> Pumped(t.work, id)
    requires forall id :: Timely(s, id) ==> Timely(t, id)
    ensures Keeps(s, t)
  {
    forall id
      ensures Kept(s, t, id) && Timely(t, id) && Waiting(t, id)
    {
      assert Timely(s, id) && Waiting(s, id);
    }
  }

  /** More slots in use, a timer taken: nothing becomes admissible. */
  lemma ExpireKeeps(s: Engine)
    requires Awake(s) && s.work.pump.Expiring?
    ensures Keeps(s, Expire(s))
  {
    var timers := s.work.pump.timers;
    if timers == [] || s.pool.inUse >= s.config.slots {
      PumpKeeps(s, Expire(s));
    } else if timers[0] !in s.q.jfcs {
      PumpKeeps(s, Expire(s));
    } else {
      TimerKeeps(s, timers[0]);
      hide Awake, Emit, TimerTaken, SameView, Kept;
      var u := TimerTaken(s, timers[0]);
      EmitView(u, timers[0], s.pool.nextSlot);
      SameKeeps(u, Emit(u, timers[0], s.pool.nextSlot));
      Onward(s, u, Emit(u, timers[0], s.pool.nextSlot));
    }
  }

  lemma TimerKeeps(s: Engine, id: u32)
    requires Awake(s) && s.work.pump.Expiring? && s.work.pump.timers != [] && id == s.work.pump.timers[0]
        && id in s.q.jfcs
    ensures Keeps(s, TimerTaken(s, id))
  {
    hide Silent;
    var t := TimerTaken(s, id);
    forall x
      ensures Kept(s, t, x) && Timely(t, x) && Waiting(t, x)
    {
      assert Timely(s, x) && Waiting(s, x);
    }
  }

  lemma EnterKeeps(s: Engine)
    requires Awake(s) && s.work.pump.Visiting?
    ensures Keeps(s, Enter(s))
  {
    if s.work.pump.ids == [] {
      PumpKeeps(s, Enter(s));
    } else if s.work.pump.ids[0] !in s.q.pubs || (!s.config.pipelined && s.q.pubs[s.work.pump.ids[0]].running) {
      PumpKeeps(s, Enter(s));
    } else {
      PumpKeeps(s, Enter(s));
    }
  }

  /** The queue that is left cannot be admitted any more now. */
  lemma LeaveKeeps(s: Engine, t: Engine)
    requires Awake(s) && s.work.pump.Admitting? && !(s.work.pump.more && Admits(s, s.work.pump.id))
    requires t.config == s.config && t.now == s.now && t.q.jfcs == s.q.jfcs && t.pool.inUse == s.pool.inUse
    requires t.q.pubs == s.q.pubs || t.q.pubs == s.q.pubs - {s.work.pump.id}
    requires t.work == s.work.(pump := Visiting(s.work.pump.ids))
    ensures Keeps(s, t)
  {
    forall id
      ensures Kept(s, t, id) && Timely(t, id) && Waiting(t, id)
    {
      assert Timely(s, id) && Waiting(s, id);
    }
  }

  lemma IssueView(s: Engine, id: u32, r: nat)
    requires id in s.q.pubs
    ensures var t := Issue(s, id, r);
            && t.config == s.config && t.now == s.now && t.pool == s.pool && t.work == s.work
            && id in t.q.pubs && t.q.pubs == s.q.pubs[id := s.q.pubs[id].(flights := t.q.pubs[id].flights)]
            && (id in s.q.jfcs ==> id in t.q.jfcs && t.q.jfcs == s.q.jfcs[id := t.q.jfcs[id]]
                                   && Quiet(s.q.jfcs[id], t.q.jfcs[id], s.now))
            && (id !in s.q.jfcs ==> t.q.jfcs == s.q.jfcs)
  {
    hide NoRoom, Held;
    if id !in s.q.jfcs {
    } else if s.config.pipelined && Held(s.q.jfcs[id]) < s.q.jfcs[id].depth {
      if NoRoom(s.q.jfcs[id], Masked(s.q.jfcs[id].consumer)) {
      } else {
      }
    } else {
    }
  }

  lemma AdmitKeeps(s: Engine)
    requires Awake(s) && s.work.pump.Admitting?
    ensures Keeps(s, Admit(s))
  {
    var id, ids := s.work.pump.id, s.work.pump.ids;
    if s.work.pump.more && Admits(s, id) {
      var u := Reserving(s, id, ids);
      IssueView(u, id, s.pool.nextSlot);
      hide Issue, Awake, Quiet, Expired;
      AdmittedKeeps(s, id, ids, Issue(u, id, s.pool.nextSlot));
    } else if id in s.q.pubs && !Publishing(s.q.pubs[id]) {
      LeaveKeeps(s, Admit(s));
    } else {
      LeaveKeeps(s, Admit(s));
    }
  }

  lemma AdmittedKeeps(s: Engine, id: u32, ids: seq<u32>, t: Engine)
    requires Awake(s) && s.work.pump == Admitting(id, ids, true) && Admits(s, id)
    requires t.config == s.config && t.now == s.now && t.pool.inUse == s.pool.inUse + 1
    requires t.work.kick == s.work.kick && t.work.pump == Admitting(id, ids, s.config.pipelined)
    requires id in t.q.pubs
    requires t.q.pubs == s.q.pubs[id := Admitted(s.q.pubs[id], s.config.pipelined).(flights := t.q.pubs[id].flights)]
    requires id in s.q.jfcs ==>
              id in t.q.jfcs && t.q.jfcs == s.q.jfcs[id := t.q.jfcs[id]] && Quiet(s.q.jfcs[id], t.q.jfcs[id], s.now)
    requires id !in s.q.jfcs ==> t.q.jfcs == s.q.jfcs
    ensures Keeps(s, t)
  {
    forall x
      ensures Kept(s, t, x) && Timely(t, x) && Waiting(t, x)
    {
      assert Timely(s, x) && Waiting(s, x);
    }
  }

  lemma RemovedKeeps(s: Engine, t: Engine, id: u32)
    requires Awake(s) && !PubBusy(s, id)
    requires t.config == s.config && t.now == s.now && t.q.jfcs == s.q.jfcs - {id} && t.q.pubs == s.q.pubs
    requires t.pool == s.pool && t.work == s.work
    ensures Keeps(s, t)
  {
    forall x
      ensures Kept(s, t, x) && Timely(t, x) && Waiting(t, x)
    {
      assert Timely(s, x) && Waiting(s, x);
    }
  }

  /** A context appears, or changes its indices or moderation: nothing else becomes admissible. */
  lemma ContextKeeps(s: Engine, t: Engine, id: u32, j: Jfc)
    requires Awake(s) && t.config == s.config && t.now == s.now && t.q.pubs == s.q.pubs && t.pool == s.pool
        && t.work == s.work
    requires t.q.jfcs == s.q.jfcs[id := j]
    requires if id in s.q.jfcs then Quiet(s.q.jfcs[id], j, s.now) else j.deadline == 0
    ensures Awake(t) && forall x {:trigger Kept(s, t, x)} :: x != id ==> Kept(s, t, x)
  {
    forall x
      ensures Timely(t, x) && Waiting(t, x) && (x != id ==> Kept(s, t, x))
    {
      assert Timely(s, x) && Waiting(s, x);
    }
  }

  /** What a step promises: everything is kept but for the queue it opens. */
  ghost predicate OpensOnly(s: Engine, a: Action, t: Engine) {
    && Awake(t)
    && (forall id {:trigger Prompt(t, id)} {:trigger Opens(s, a, id)} ::
          Prompt(s, id) ==> (Prompt(t, id) <==> !Opens(s, a, id)))
    && (forall id {:trigger Driven(t, id)} {:trigger OpensNew(s, a, id)} ::
          Driven(s, id) ==> (Driven(t, id) <==> !OpensNew(s, a, id)))
  }

  lemma KeepsOpensOnly(s: Engine, a: Action, t: Engine)
    requires Keeps(s, t) && (forall id :: !Arrives(s, a, id)) && forall id :: !MakesRoom(s, a, id)
    ensures OpensOnly(s, a, t)
  {
    assert forall id :: !Opens(s, a, id) && !OpensNew(s, a, id);
    hide Awake, Prompt, Driven, Opens, OpensNew;
    forall id
      ensures (Prompt(s, id) ==> Prompt(t, id)) && (Driven(s, id) ==> Driven(t, id))
    {
      assert Kept(s, t, id);
    }
  }

  lemma PumpSteps(s: Engine, a: Action)
    requires Awake(s) && Enabled(s, a)
    requires a.APost? || a.AAdvance? || a.AScan? || a.AExpire? || a.AGather? || a.AEnter? || a.AAdmit?
        || (a.AFree? && s.pool.inUse > 0)
    ensures Keeps(s, Next(s, a).value)
  {
    hide Kick, Expire, Admit, Enter, Keeps;
    if a.APost? {
      if Refused(s, a.id) {
        SameKeeps(s, s);
      } else {
        var p := Queue(if a.id in s.q.pubs then Some(s.q.pubs[a.id]) else None);
        var u := s.(q := s.q.(pubs := s.q.pubs[a.id := p]));
        forall id
          ensures Waiting(u, id)
        {
          assert Waiting(s, id);
        }
        KickKeeps(s, u);
      }
    } else if a.AAdvance? {
      if a.now < s.now {
        SameKeeps(s, s);
      } else {
        var u := s.(now := a.now);
        assert forall id :: Waiting(s, id) ==> Waiting(u, id);
        KickKeeps(s, u);
      }
    } else if a.AScan? {
      PumpKeeps(s, Next(s, a).value);
    } else if a.AExpire? {
      ExpireKeeps(s);
    } else if a.AGather? {
      PumpKeeps(s, Next(s, a).value);
    } else if a.AEnter? {
      EnterKeeps(s);
    } else if a.AAdmit? {
      AdmitKeeps(s);
    } else {
      var u := s.(pool := s.pool.(inUse := s.pool.inUse - 1, owners := s.pool.owners - {a.r}));
      assert forall id :: Waiting(s, id) ==> Waiting(u, id);
      KickKeeps(s, u);
    }
  }

  lemma FlightSteps(s: Engine, a: Action)
    requires Safe(s) && Awake(s) && Enabled(s, a) && (a.AWriteDone? || a.ARelease?) && Next(s, a).Some?
    ensures Keeps(s, Next(s, a).value)
  {
    hide Safe, WriteDone, Kick, Keeps;
    if a.AWriteDone? {
      WriteDoneKeeps(s, a.id, a.r, a.ok);
    } else {
      var p := s.q.pubs[a.id];
      var owners := if p.flights[a.r].slot then s.pool.owners[a.r := Leaving] else s.pool.owners;
      var u := s.(q := s.q.(pubs := s.q.pubs[a.id := Released(p, a.r, s.config.pipelined)]),
                  pool := s.pool.(owners := owners));
      forall id
        ensures Waiting(u, id)
      {
        assert Waiting(s, id);
      }
      KickKeeps(s, u);
    }
  }

  lemma EventSteps(s: Engine, a: Action)
    requires Awake(s) && Enabled(s, a) && Next(s, a).Some?
    requires a.ADeliver? || a.AEventWritten? || a.AInterrupted? || a.AReturn? || a.AReport? || a.AArm?
             || a.ADestroyCeq? || a.ACheckCeq? || a.ABegin? || a.ALoadCeq? || a.ARing? || a.AMailboxEvent?
    ensures Keeps(s, Next(s, a).value)
  {
    hide Awake, Keeps, CeqBusy, FirstEligible, Moves, Reported, Outstanding, CeqDepth, Acknowledged, RingStep;
    if a.ADeliver? {
      SameKeeps(s, Deliver(s));
    } else if a.AEventWritten? {
      SameKeeps(s, EventWritten(s, a.ok));
    } else if a.AReport? {
      SameKeeps(s, Report(s, a.id, a.report));
    } else if a.ACheckCeq? {
      SameKeeps(s, CheckCeq(s));
    } else if a.ALoadCeq? {
      SameKeeps(s, LoadCeq(s, a.ok, a.shift));
    } else {
      SameKeeps(s, Next(s, a).value);
    }
  }

  lemma DestroySteps(s: Engine, a: Action)
    requires Awake(s) && Enabled(s, a) && (a.ADestroyJfc? || a.ACheckJfc?)
    ensures Keeps(s, Next(s, a).value)
  {
    var t := Next(s, a).value;
    hide Awake, Keeps;
    if a.ADestroyJfc? {
      if JfcBusy(s, a.id) {
        SameKeeps(s, t);
      } else {
        RemovedKeeps(s, t, a.id);
      }
    } else if s.cmd.parkedJfc.None? || JfcBusy(s, s.cmd.parkedJfc.value) {
      SameKeeps(s, t);
    } else {
      RemovedKeeps(s, t, s.cmd.parkedJfc.value);
    }
  }

  lemma ModifySteps(s: Engine, a: Action)
    requires Awake(s) && Enabled(s, a) && a.AModify?
    ensures Keeps(s, Next(s, a).value)
  {
    var t := Next(s, a).value;
    var id := s.cmd.load.value.id;
    if !a.ok || id !in s.q.jfcs {
      hide Awake;
      SameKeeps(s, t);
    } else {
      assert SameRing(s.q.jfcs[id], t.q.jfcs[id]);
      hide Awake, Held;
      ContextKeeps(s, t, id, t.q.jfcs[id]);
      assert Kept(s, t, id);
    }
  }

  /** A new context opens its queue exactly if publications wait for it, there is a slot and no pump comes. */
  lemma NewContextSteps(s: Engine, a: Action)
    requires Safe(s) && Awake(s) && Enabled(s, a) && a.ALoadJfc?
    ensures OpensOnly(s, a, Next(s, a).value)
  {
    var t := Next(s, a).value;
    var id := s.cmd.load.value.id;
    assert id !in s.q.jfcs && Waiting(s, id) by {
      assert OneCommand(s.cmd, s.q.jfcs);
    }
    assert id in s.q.pubs ==> Counted(s.config.pipelined, s.q.pubs[id]);
    hide Awake, Safe, Held;
    if !a.ok {
      SameKeeps(s, t);
      KeepsOpensOnly(s, a, t);
    } else {
      ContextKeeps(s, t, id, t.q.jfcs[id]);
      forall x
        ensures Prompt(s, x) ==> (Prompt(t, x) <==> !Opens(s, a, x))
        ensures Driven(s, x) ==> (Driven(t, x) <==> !OpensNew(s, a, x))
      {
        if x != id {
          assert Kept(s, t, x);
        } else {
          EmptyRing(t.q.jfcs[id]);
        }
      }
    }
  }

  lemma EmptyRing(j: Jfc)
    requires j.producer == j.consumer
    ensures Held(j) == 0
  {
  }

  lemma QuerySteps(s: Engine, a: Action)
    requires Safe(s) && Awake(s) && Enabled(s, a) && a.AQueried?
    ensures OpensOnly(s, a, Next(s, a).value)
  {
    var t := Next(s, a).value;
    var id := s.cmd.load.value.id;
    hide Awake, Safe, Held, Masked;
    if !a.ok || id !in s.q.jfcs {
      SameKeeps(s, t);
      KeepsOpensOnly(s, a, t);
    } else {
      ContextKeeps(s, t, id, t.q.jfcs[id]);
      forall x
        ensures Prompt(s, x) ==> (Prompt(t, x) <==> !Opens(s, a, x))
        ensures Driven(s, x) ==> (Driven(t, x) <==> !OpensNew(s, a, x))
      {
        if x != id {
          assert Kept(s, t, x);
        }
      }
    }
  }

  lemma ReadSteps(s: Engine, a: Action)
    requires Safe(s) && Awake(s) && Enabled(s, a) && a.AReadDone?
    ensures OpensOnly(s, a, Next(s, a).value)
  {
    var t := Next(s, a).value;
    ReadDoneKeeps(s, a.id, a.r, a.ok, a.value);
    hide Awake, Safe, Prompt, Driven, ReadDone;
    forall x
      ensures Prompt(s, x) ==> (Prompt(t, x) <==> !Opens(s, a, x))
      ensures Driven(s, x) ==> (Driven(t, x) <==> !OpensNew(s, a, x))
    {
      if x != a.id {
        assert Kept(s, t, x);
      }
    }
  }

  /** Every step keeps it that the pump comes to whatever could be admitted, but for two: a context arrives for
      publications that wait for it, or a fresh consumer index makes room in a full ring, and no pump comes.
      And for queues with nothing in flight, only the first of the two. */
  lemma StepAwake(s: Engine, a: Action)
    requires Safe(s) && Awake(s) && Enabled(s, a)
    ensures Next(s, a).Some? && OpensOnly(s, a, Next(s, a).value)
  {
    StepSafe(s, a);
    hide Awake, Safe, Enabled, Next, Keeps, OpensOnly, Overlooked;
    if a.AReadDone? {
      ReadSteps(s, a);
    } else if a.AQueried? {
      QuerySteps(s, a);
    } else if a.ALoadJfc? {
      NewContextSteps(s, a);
    } else {
      PlainSteps(s, a);
    }
  }

  lemma PlainSteps(s: Engine, a: Action)
    requires Safe(s) && Awake(s) && Enabled(s, a) && Next(s, a).Some?
    requires !a.AReadDone? && !a.AQueried? && !a.ALoadJfc?
    ensures OpensOnly(s, a, Next(s, a).value)
  {
    PlainKeeps(s, a);
    hide *;
    NeitherKind(s, a);
    KeepsOpensOnly(s, a, Next(s, a).value);
  }

  lemma NeitherKind(s: Engine, a: Action)
    requires !a.AReadDone? && !a.AQueried? && !a.ALoadJfc?
    ensures (forall id :: !Arrives(s, a, id)) && forall id :: !MakesRoom(s, a, id)
  {
  }

  lemma PlainKeeps(s: Engine, a: Action)
    requires Safe(s) && Awake(s) && Enabled(s, a) && Next(s, a).Some?
    requires !a.AReadDone? && !a.AQueried? && !a.ALoadJfc?
    ensures Keeps(s, Next(s, a).value)
  {
    assert a.AFree? ==> s.pool.inUse > 0;
    hide Awake, Safe, Enabled, Next, Keeps;
    if a.AWriteDone? || a.ARelease? {
      FlightSteps(s, a);
    } else if a.APost? || a.AAdvance? || a.AScan? || a.AExpire? || a.AGather? || a.AEnter? || a.AAdmit? || a.AFree? {
      PumpSteps(s, a);
    } else if a.ADestroyJfc? || a.ACheckJfc? {
      DestroySteps(s, a);
    } else if a.AModify? {
      ModifySteps(s, a);
    } else {
      EventSteps(s, a);
    }
  }

  lemma {:induction false} RunAwake(config: Config, acts: seq<Action>)
    requires Run(config, acts).At?
    ensures Awake(Run(config, acts).s) && Safe(Run(config, acts).s)
  {
    hide Next, Enabled, Safe, Awake;
    RunSafe(config, acts);
    if acts == [] {
      BootAwake(config);
    } else {
      RunAwake(config, acts[..|acts| - 1]);
      var s := Run(config, acts[..|acts| - 1]).s;
      StepAwake(s, acts[|acts| - 1]);
    }
  }

  lemma BootAwake(config: Config)
    ensures Awake(Boot(config))
  {
  }
}
