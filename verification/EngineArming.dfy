/** One-shot notifications: a JFC is armed exactly from the guest's doorbell to its next event. */
module EngineArming {
  import opened Cq
  import opened Engine
  import opened EngineInv
  import opened EngineLedger
  import opened EngineProof
  import opened EngineTheorems
  import opened Optional
  import opened Words

  /** The JFC comes into being in this step, or goes. */
  ghost predicate Changes(s: Engine, a: Action, t: Engine, id: u32) {
    (id in s.q.jfcs) != (id in t.q.jfcs) || (a.ALoadJfc? && a.ok && s.cmd.load.Some? && s.cmd.load.value.id == id)
  }

  /** The guest has rung for the JFC after its last event. */
  ghost predicate Rung(config: Config, acts: seq<Action>, id: u32) {
    acts != [] &&
    var before, a := acts[..|acts| - 1], acts[|acts| - 1];
    && Run(config, before).At? && Run(config, acts).At?
    && var s, t := Run(config, before).s, Run(config, acts).s;
       if a == AArm(id) then id in s.q.jfcs || Rung(config, before, id)
       else Rung(config, before, id) && Added(s, t, id) == 0 && !Changes(s, a, t, id)
  }

  lemma EmitArms(s: Engine, x: u32, r: nat, id: u32)
    requires s.config.oneShot && x in s.q.ceqOf
    ensures var t := Emit(s, x, r);
            && Added(s, t, id) == One(x == id && x in s.q.armed) && t.q.armed == s.q.armed - {x}
            && t.q.jfcs == s.q.jfcs
  {
    EmitAdds(s, x, r, id);
  }

  /** What a step means for the arming of JFC `id`. */
  predicate Tells(s: Engine, t: Engine, id: u32) {
    (id in t.q.armed <==> id in s.q.armed && Added(s, t, id) == 0) && t.q.jfcs.Keys == s.q.jfcs.Keys
  }

  lemma WriteDoneArms(s: Engine, x: u32, r: nat, ok: bool, id: u32)
    requires s.config.oneShot && x in s.q.pubs && s.q.jfcs.Keys == s.q.ceqOf.Keys
    ensures Tells(s, WriteDone(s, x, r, ok), id)
  {
    hide Committed, Emit, Notices;
    if x !in s.q.jfcs || (s.config.pipelined && s.q.jfcs[x].writing == 0) {
    } else {
      var (j, verdict) := Committed(s.q.jfcs[x], s.config.pipelined, ok, s.now);
      if verdict.Due? {
        var u := s.(q := s.q.(jfcs := s.q.jfcs[x := j], pubs := WithFlight(s.q.pubs, x, r, Finishing(false))));
        EmitArms(u, x, r, id);
      }
    }
  }

  lemma ExpireArms(s: Engine, id: u32)
    requires s.config.oneShot && s.work.pump.Expiring? && s.q.jfcs.Keys == s.q.ceqOf.Keys
    ensures Tells(s, Expire(s), id)
  {
    hide Emit, Notices;
    var timers := s.work.pump.timers;
    if timers == [] || s.pool.inUse >= s.config.slots {
    } else if timers[0] !in s.q.jfcs {
    } else {
      EmitArms(TimerTaken(s, timers[0]), timers[0], s.pool.nextSlot, id);
    }
  }

  lemma AdmitArms(s: Engine, id: u32)
    requires s.work.pump.Admitting?
    ensures Admit(s).log == s.log && Admit(s).q.armed == s.q.armed && Admit(s).q.jfcs.Keys == s.q.jfcs.Keys
  {
    hide Blocked, Issue;
    if s.work.pump.more && Admits(s, s.work.pump.id) {
      IssueArms(Reserving(s, s.work.pump.id, s.work.pump.ids), s.work.pump.id, s.pool.nextSlot);
    }
  }

  lemma IssueArms(s: Engine, x: u32, r: nat)
    requires x in s.q.pubs
    ensures Issue(s, x, r).log == s.log && Issue(s, x, r).q.armed == s.q.armed
    ensures Issue(s, x, r).q.jfcs.Keys == s.q.jfcs.Keys
  {
    hide NoRoom, Held, Taken, Masked;
  }

  /** What the guest's doorbell and the life of the JFC mean besides. */
  ghost predicate Settles(s: Engine, a: Action, t: Engine, id: u32) {
    && t.config == s.config
    && (id in t.q.armed <==>
          if a == AArm(id) then id in s.q.jfcs || id in s.q.armed
          else id in s.q.armed && Added(s, t, id) == 0 && !Changes(s, a, t, id))
    && (id in t.q.armed ==> id in t.q.jfcs)
  }

  lemma StepArms(s: Engine, a: Action, id: u32)
    requires s.config.oneShot && s.q.jfcs.Keys == s.q.ceqOf.Keys && (id in s.q.armed ==> id in s.q.jfcs)
    requires Enabled(s, a) && Next(s, a).Some?
    ensures Settles(s, a, Next(s, a).value, id)
  {
    if a.AWriteDone? || a.AExpire? || a.AAdmit? {
      PumpArms(s, a, id);
    } else if IsCommand(a) {
      CommandArms(s, a, id);
    } else {
      hide Notices, FirstEligible, Moves, Reported, Acknowledged, NoRoom, Masked, Taken;
    }
  }

  lemma PumpArms(s: Engine, a: Action, id: u32)
    requires s.config.oneShot && s.q.jfcs.Keys == s.q.ceqOf.Keys && (id in s.q.armed ==> id in s.q.jfcs)
    requires Enabled(s, a) && Next(s, a).Some? && (a.AWriteDone? || a.AExpire? || a.AAdmit?)
    ensures Settles(s, a, Next(s, a).value, id)
  {
    hide WriteDone, Expire, Admit, Notices;
    if a.AWriteDone? {
      WriteDoneArms(s, a.id, a.r, a.ok, id);
      WriteDoneConfig(s, a.id, a.r, a.ok);
    } else if a.AExpire? {
      ExpireArms(s, id);
      ExpireConfig(s);
    } else {
      AdmitArms(s, id);
      AdmitConfig(s);
    }
  }

  lemma CommandArms(s: Engine, a: Action, id: u32)
    requires (id in s.q.armed ==> id in s.q.jfcs) && Enabled(s, a) && Next(s, a).Some? && IsCommand(a)
    ensures Settles(s, a, Next(s, a).value, id)
  {
    hide Notices, CeqBusy, JfcBusy, RingStep, CeqDepth, JfcDepth, Masked, Admissible;
  }

  lemma WriteDoneConfig(s: Engine, x: u32, r: nat, ok: bool)
    requires x in s.q.pubs
    ensures WriteDone(s, x, r, ok).config == s.config
  {
    hide Committed, Silent;
  }

  lemma ExpireConfig(s: Engine)
    requires s.work.pump.Expiring?
    ensures Expire(s).config == s.config
  {
    hide Silent;
  }

  lemma AdmitConfig(s: Engine)
    requires s.work.pump.Admitting?
    ensures Admit(s).config == s.config
  {
    hide Blocked, NoRoom, Held, Taken, Masked;
  }

  lemma SameQueues(config: Config, acts: seq<Action>)
    requires Run(config, acts).At?
    ensures Run(config, acts).s.q.jfcs.Keys == Run(config, acts).s.q.ceqOf.Keys
  {
    RunSafe(config, acts);
    hide Run;
  }

  /** With one-shot notifications a JFC is armed exactly if the guest has rung for it, and since then it has neither had
      an event nor been created again. */
  lemma {:induction false} ArmedExactly(config: Config, acts: seq<Action>, id: u32)
    requires Run(config, acts).At? && config.oneShot
    ensures Run(config, acts).s.config == config
    ensures id in Run(config, acts).s.q.armed <==> Rung(config, acts, id)
    ensures id in Run(config, acts).s.q.armed ==> id in Run(config, acts).s.q.jfcs
  {
    hide Next, Enabled, Changes;
    if acts != [] {
      var before, a := acts[..|acts| - 1], acts[|acts| - 1];
      ArmedExactly(config, before, id);
      SameQueues(config, before);
      StepArms(Run(config, before).s, a, id);
    }
  }
}
