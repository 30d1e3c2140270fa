/** Moderation: every completion is announced, in batches no larger than the guest asked for and not too late. */
module EngineModeration {
  import opened Cq
  import opened Engine
  import opened EngineInv
  import opened EngineLedger
  import opened EngineProof
  import opened EngineTheorems
  import opened EngineWake
  import opened Optional
  import opened Words

  /** A completion of JFC `id` has been written. */
  predicate Succeeds(a: Action, id: u32) { a.AWriteDone? && a.id == id && a.ok }

  /** The moderation timer of JFC `id` has run out and is taken. */
  predicate TimesOut(s: Engine, a: Action, id: u32) {
    && a.AExpire? && s.work.pump.Expiring? && s.work.pump.timers != [] && s.pool.inUse < s.config.slots
    && s.work.pump.timers[0] == id && id in s.q.jfcs
  }

  /** Since JFC `id` was created: completions written, events accepted for it, timers that ran out. */
  ghost function Successes(config: Config, acts: seq<Action>, id: u32): nat {
    if acts == [] then 0
    else
      var o, a := Run(config, acts[..|acts| - 1]), acts[|acts| - 1];
      if !o.At? || Arrives(o.s, a, id) then 0
      else Successes(config, acts[..|acts| - 1], id) + One(Succeeds(a, id))
  }

  ghost function Announced(config: Config, acts: seq<Action>, id: u32): int {
    if acts == [] then 0
    else
      var o, a := Run(config, acts[..|acts| - 1]), acts[|acts| - 1];
      if !o.At? || !Run(config, acts).At? || Arrives(o.s, a, id) then 0
      else Announced(config, acts[..|acts| - 1], id) + Added(o.s, Run(config, acts).s, id)
  }

  ghost function Timeouts(config: Config, acts: seq<Action>, id: u32): nat {
    if acts == [] then 0
    else
      var o, a := Run(config, acts[..|acts| - 1]), acts[|acts| - 1];
      if !o.At? || Arrives(o.s, a, id) then 0
      else Timeouts(config, acts[..|acts| - 1], id) + One(TimesOut(o.s, a, id))
  }

  // ------------------------------------------------------------------ what one step does to one context

  predicate SameModeration(j: Jfc, k: Jfc) { k.moderation == j.moderation && k.period == j.period }

  /** One more completion. */
  predicate Grown(j: Jfc, k: Jfc, now: nat) {
    SameModeration(j, k) && k.completions == j.completions + 1
    && k.deadline == if j.deadline == 0 && j.period != 0 then now + Period(j.period) else j.deadline
  }

  predicate Cleared(j: Jfc, k: Jfc) { SameModeration(j, k) && k.completions == 0 && k.deadline == 0 }

  predicate Same(j: Jfc, k: Jfc) { SameModeration(j, k) && k.completions == j.completions && k.deadline == j.deadline }

  /** What a step does to the moderation of JFC `id`. */
  predicate Moderates(s: Engine, a: Action, t: Engine, id: u32)
    requires id in t.q.jfcs
  {
    var k := t.q.jfcs[id];
    if Arrives(s, a, id) then k.completions == 0 && k.deadline == 0 && k.moderation > 0
    else
      id in s.q.jfcs
      && var j := s.q.jfcs[id];
         if Succeeds(a, id) then
           if j.completions + 1 >= j.moderation then Cleared(j, k) && Added(s, t, id) == 1
           else Grown(j, k, s.now) && Added(s, t, id) == 0
         else if TimesOut(s, a, id) then Cleared(j, k) && Added(s, t, id) == 1
         else Same(j, k) && Added(s, t, id) == 0
  }

  lemma CommittedCounts(j: Jfc, pipelined: bool, ok: bool, now: nat)
    requires pipelined ==> j.writing > 0
    ensures var (k, verdict) := Committed(j, pipelined, ok, now);
            if !ok then Same(j, k) && verdict.Failed?
            else if j.completions + 1 >= j.moderation then Cleared(j, k) && verdict.Due?
            else Grown(j, k, now) && verdict.Moderated?
  {
  }

  lemma WriteModerates(s: Engine, a: Action, id: u32)
    requires Safe(s) && Enabled(s, a) && a.AWriteDone? && !s.config.oneShot && id in Next(s, a).value.q.jfcs
    ensures Moderates(s, a, Next(s, a).value, id)
  {
    WritingCounted(s, a.id, a.r);
    CommittedCounts(s.q.jfcs[a.id], s.config.pipelined, a.ok, s.now);
    assert s.q.jfcs.Keys == s.q.ceqOf.Keys;
    hide Safe, Committed, Emit, Notices, Same, Grown, Cleared;
    var (j, verdict) := Committed(s.q.jfcs[a.id], s.config.pipelined, a.ok, s.now);
    if verdict.Due? {
      var u := s.(q := s.q.(jfcs := s.q.jfcs[a.id := j], pubs := WithFlight(s.q.pubs, a.id, a.r, Finishing(false))));
      EmitAdds(u, a.id, a.r, id);
    }
    ItselfSame(s, id);
  }

  lemma ItselfSame(s: Engine, id: u32)
    ensures id in s.q.jfcs ==> Same(s.q.jfcs[id], s.q.jfcs[id])
  {
  }

  lemma ExpireModerates(s: Engine, id: u32)
    requires Safe(s) && s.work.pump.Expiring? && !s.config.oneShot && id in Expire(s).q.jfcs
    ensures Moderates(s, AExpire, Expire(s), id)
  {
    assert s.q.jfcs.Keys == s.q.ceqOf.Keys;
    hide Safe, Emit, Notices;
    var timers := s.work.pump.timers;
    if timers == [] || s.pool.inUse >= s.config.slots {
    } else if timers[0] !in s.q.jfcs {
    } else {
      EmitAdds(TimerTaken(s, timers[0]), timers[0], s.pool.nextSlot, id);
    }
  }

  lemma IssueModerates(s: Engine, x: u32, r: nat, id: u32)
    requires x in s.q.pubs && id in Issue(s, x, r).q.jfcs
    ensures id in s.q.jfcs && Same(s.q.jfcs[id], Issue(s, x, r).q.jfcs[id]) && Issue(s, x, r).log == s.log
  {
    hide NoRoom, Held, Masked;
  }

  lemma AdmitModerates(s: Engine, id: u32)
    requires s.work.pump.Admitting? && id in Admit(s).q.jfcs
    ensures Moderates(s, AAdmit, Admit(s), id)
  {
    hide Blocked, Issue, Notices;
    if s.work.pump.more && Admits(s, s.work.pump.id) {
      IssueModerates(Reserving(s, s.work.pump.id, s.work.pump.ids), s.work.pump.id, s.pool.nextSlot, id);
    }
  }

  lemma StepModerates(s: Engine, a: Action, id: u32)
    requires Safe(s) && Enabled(s, a) && Next(s, a).Some? && !s.config.oneShot && !a.AModify?
    requires id in Next(s, a).value.q.jfcs
    ensures Moderates(s, a, Next(s, a).value, id)
  {
    if a.AWriteDone? {
      hide Next, Enabled, Safe, Moderates;
      WriteModerates(s, a, id);
    } else if a.AExpire? {
      hide Safe, Expire, Moderates;
      ExpireModerates(s, id);
    } else if a.AAdmit? {
      hide Safe, Admit, Moderates;
      AdmitModerates(s, id);
    } else {
      hide Next, Enabled, Safe, Moderates;
      OtherModerates(s, a, id);
    }
  }

  lemma OtherModerates(s: Engine, a: Action, id: u32)
    requires Enabled(s, a) && Next(s, a).Some? && id in Next(s, a).value.q.jfcs
    requires !a.AModify? && !a.AWriteDone? && !a.AExpire? && !a.AAdmit?
    ensures Moderates(s, a, Next(s, a).value, id)
  {
    hide Notices, CeqBusy, JfcBusy, FirstEligible, Moves, Reported, Acknowledged, RingStep, CeqDepth, JfcDepth, NoRoom;
  }

  // ------------------------------------------------------------------ over runs

  /** Less than a batch is unannounced, and its timer is running if the JFC has one. */
  predicate InTime(j: Jfc, now: nat) {
    && j.completions < j.moderation
    && (j.completions > 0 && j.period != 0 ==> 0 < j.deadline <= now + Period(j.period))
    && (j.completions == 0 ==> j.deadline == 0)
  }

  /** Announcements cover all completions but those of the batch that is being collected, each at most a batch, and
      exactly a batch if no timer ran out. */
  predicate Covered(j: Jfc, successes: nat, announced: int, timeouts: nat) {
    && successes - j.completions <= j.moderation * announced
    && (timeouts == 0 ==> successes - j.completions == j.moderation * announced)
  }

  lemma PeriodPositive(code: nat)
    ensures code != 0 ==> Period(code) > 0
  {
  }

  lemma TimeGoesOn(s: Engine, a: Action)
    requires Enabled(s, a) && Next(s, a).Some?
    ensures Next(s, a).value.now >= s.now
  {
    hide CeqBusy, JfcBusy, FirstEligible, Moves, Reported, Acknowledged, RingStep, CeqDepth, JfcDepth, NoRoom, Emit;
    hide Committed, Admit, Expire, WriteDone;
    if a.AAdmit? {
      AdmitTime(s);
    } else if a.AExpire? {
      ExpireTime(s);
    } else if a.AWriteDone? {
      WriteTime(s, a.id, a.r, a.ok);
    }
  }

  lemma AdmitTime(s: Engine)
    requires s.work.pump.Admitting?
    ensures Admit(s).now == s.now
  {
    hide Blocked;
    if s.work.pump.more && Admits(s, s.work.pump.id) {
      IssueView(Reserving(s, s.work.pump.id, s.work.pump.ids), s.work.pump.id, s.pool.nextSlot);
      hide Issue;
    }
  }

  lemma ExpireTime(s: Engine)
    requires s.work.pump.Expiring?
    ensures Expire(s).now == s.now
  {
    hide Emit;
    var timers := s.work.pump.timers;
    if timers != [] && s.pool.inUse < s.config.slots && timers[0] in s.q.jfcs {
      EmitView(TimerTaken(s, timers[0]), timers[0], s.pool.nextSlot);
    }
  }

  lemma WriteTime(s: Engine, id: u32, r: nat, ok: bool)
    requires id in s.q.pubs
    ensures WriteDone(s, id, r, ok).now == s.now
  {
    hide Emit, Committed;
    if id in s.q.jfcs && !(s.config.pipelined && s.q.jfcs[id].writing == 0) {
      var (j, verdict) := Committed(s.q.jfcs[id], s.config.pipelined, ok, s.now);
      EmitView(s.(q := s.q.(jfcs := s.q.jfcs[id := j], pubs := WithFlight(s.q.pubs, id, r, Finishing(false)))), id, r);
    }
  }

  lemma StepCovers(j: Jfc, k: Jfc, s: Engine, t: Engine, a: Action, id: u32, successes: nat, announced: int,
                   timeouts: nat)
    requires id in s.q.jfcs && s.q.jfcs[id] == j && id in t.q.jfcs && t.q.jfcs[id] == k && !Arrives(s, a, id)
    requires Moderates(s, a, t, id) && t.now >= s.now && InTime(j, s.now) && Covered(j, successes, announced, timeouts)
    ensures InTime(k, t.now)
    ensures Covered(k, successes + One(Succeeds(a, id)), announced + Added(s, t, id),
                    timeouts + One(TimesOut(s, a, id)))
  {
    hide Notices, Period, Added;
    PeriodPositive(j.period);
    assert j.moderation * (announced + 1) == j.moderation * announced + j.moderation;
  }

  lemma {:induction false} RunModerates(config: Config, acts: seq<Action>, id: u32)
    requires Run(config, acts).At? && !config.oneShot && id in Run(config, acts).s.q.jfcs
    requires forall i :: 0 <= i < |acts| ==> !acts[i].AModify?
    ensures var s := Run(config, acts).s;
            && InTime(s.q.jfcs[id], s.now)
            && Covered(s.q.jfcs[id], Successes(config, acts, id), Announced(config, acts, id),
                       Timeouts(config, acts, id))
  {
    hide Next, Enabled, Arrives, Succeeds, TimesOut, Moderates, Notices, Safe, InTime, Covered, Added;
    if acts != [] {
      var before, a := acts[..|acts| - 1], acts[|acts| - 1];
      var s, t := Run(config, before).s, Run(config, acts).s;
      RunSafe(config, before);
      assert a == acts[|acts| - 1] && !a.AModify?;
      StepModerates(s, a, id);
      if Arrives(s, a, id) {
        Anew(s, a, t, id);
      } else {
        WasThere(s, a, t, id);
        RunModerates(config, before, id);
        TimeGoesOn(s, a);
        StepCovers(s.q.jfcs[id], t.q.jfcs[id], s, t, a, id, Successes(config, before, id),
                   Announced(config, before, id), Timeouts(config, before, id));
      }
    }
  }

  lemma Anew(s: Engine, a: Action, t: Engine, id: u32)
    requires id in t.q.jfcs && Moderates(s, a, t, id) && Arrives(s, a, id)
    ensures InTime(t.q.jfcs[id], t.now) && Covered(t.q.jfcs[id], 0, 0, 0)
  {
  }

  lemma WasThere(s: Engine, a: Action, t: Engine, id: u32)
    requires id in t.q.jfcs && Moderates(s, a, t, id) && !Arrives(s, a, id)
    ensures id in s.q.jfcs
  {
  }

  /** Unless a guest changes its moderation: less than a batch of written completions is ever unannounced, and if the
      JFC has a period, its timer then runs out within the period; all others are covered by the events accepted
      for it, each of which stands for at most a batch, and for exactly one if no timer ran out. */
  lemma EveryCompletionIsAnnounced(config: Config, acts: seq<Action>, s: Engine, id: u32)
    requires Run(config, acts) == At(s) && !config.oneShot && id in s.q.jfcs
    requires forall i :: 0 <= i < |acts| ==> !acts[i].AModify?
    ensures var j := s.q.jfcs[id];
            && j.completions < j.moderation
            && (j.completions > 0 && j.period != 0 ==> 0 < j.deadline <= s.now + Period(j.period))
            && Successes(config, acts, id) - j.completions <= j.moderation * Announced(config, acts, id)
            && (Timeouts(config, acts, id) == 0 ==>
                  Successes(config, acts, id) == j.moderation * Announced(config, acts, id) + j.completions)
  {
    RunModerates(config, acts, id);
    hide Run, Successes, Announced, Timeouts, Period;
  }
}
