/** Queues are served in turn: the one served last comes last. */
module EngineTurns {
  import opened Cq
  import opened Engine
  import opened Optional
  import opened Words

  /** How far queue `id` is behind queue `x`, going up and round. */
  function Behind(x: u32, id: u32): nat { (id - x - 1) % WORD }

  /** The visiting order is the order round from the queue served last, which therefore comes last itself. */
  lemma InTurn(ids: seq<u32>, x: u32, i: nat, j: nat)
    requires RoundRobin(ids, Some(x)) && i < j < |ids|
    ensures Behind(x, ids[i]) < Behind(x, ids[j]) && ids[i] != x
  {
    var a, b := ids[i], ids[j];
    assert if (a > x) != (b > x) then a > x else a < b;
    assert Behind(x, a) == if a > x then a - x - 1 else a - x - 1 + WORD;
    assert Behind(x, b) == if b > x then b - x - 1 else b - x - 1 + WORD;
  }

  /** The queue of the last publication admitted in a run, told by the reservation it took. */
  ghost function ServedLast(config: Config, acts: seq<Action>): Option<u32> {
    if acts == [] then None
    else
      var before, a := acts[..|acts| - 1], acts[|acts| - 1];
      if Serves(config, acts) then Some(Run(config, before).s.work.pump.id) else ServedLast(config, before)
  }

  ghost predicate Serves(config: Config, acts: seq<Action>)
    requires acts != []
  {
    var before := acts[..|acts| - 1];
    && acts[|acts| - 1].AAdmit? && Run(config, before).At? && Run(config, acts).At?
    && Run(config, acts).s.pool.nextSlot > Run(config, before).s.pool.nextSlot
    && Run(config, before).s.work.pump.Admitting?
  }

  lemma IssueView(s: Engine, id: u32, r: nat)
    requires id in s.q.pubs
    ensures Issue(s, id, r).work == s.work && Issue(s, id, r).pool == s.pool
  {
    hide NoRoom, Held, Taken, Masked;
  }

  lemma AdmitTurn(s: Engine)
    requires s.work.pump.Admitting?
    ensures var t := Admit(s);
            && (t.pool.nextSlot > s.pool.nextSlot ==> t.work.last == Some(s.work.pump.id))
            && (t.pool.nextSlot <= s.pool.nextSlot ==> t.work.last == s.work.last)
  {
    hide Blocked, Issue;
    if s.work.pump.more && Admits(s, s.work.pump.id) {
      IssueView(Reserving(s, s.work.pump.id, s.work.pump.ids), s.work.pump.id, s.pool.nextSlot);
    }
  }

  lemma StepTurn(s: Engine, a: Action)
    requires Enabled(s, a) && Next(s, a).Some?
    ensures var t := Next(s, a).value;
            t.work.last == if a.AAdmit? && t.pool.nextSlot > s.pool.nextSlot then Some(s.work.pump.id) else s.work.last
  {
    hide Emit, Admit, NoRoom, Held, Taken, Masked, Committed, CeqBusy, JfcBusy, FirstEligible, Moves, Reported;
    hide Acknowledged, RingStep, CeqDepth, JfcDepth, Blocked;
    if a.AAdmit? {
      AdmitTurn(s);
    } else if a.AWriteDone? {
      WriteDoneTurn(s, a.id, a.r, a.ok);
      hide WriteDone;
    } else if a.AExpire? {
      ExpireTurn(s);
      hide Expire;
    }
  }

  lemma WriteDoneTurn(s: Engine, x: u32, r: nat, ok: bool)
    requires x in s.q.pubs
    ensures WriteDone(s, x, r, ok).work.last == s.work.last
  {
    hide Committed, Silent;
  }

  lemma ExpireTurn(s: Engine)
    requires s.work.pump.Expiring?
    ensures Expire(s).work.last == s.work.last
  {
    hide Silent;
  }

  lemma {:induction false} LastIsServedLast(config: Config, acts: seq<Action>)
    requires Run(config, acts).At?
    ensures Run(config, acts).s.work.last == ServedLast(config, acts)
  {
    hide Next, Enabled;
    if acts != [] {
      var before, a := acts[..|acts| - 1], acts[|acts| - 1];
      LastIsServedLast(config, before);
      StepTurn(Run(config, before).s, a);
      if a.AAdmit? {
        PumpAdmits(Run(config, before).s, a);
      }
    }
  }

  lemma PumpAdmits(s: Engine, a: Action)
    requires Enabled(s, a) && a.AAdmit?
    ensures s.work.pump.Admitting?
  {
  }

  /** Whenever the pump lists the queues to visit, they come in the order round from the queue admitted last, and that
      one comes after all others: no queue is admitted twice before the others have been visited. */
  lemma NobodyIsPassedOver(config: Config, acts: seq<Action>, s: Engine, ids: seq<u32>, x: u32)
    requires Run(config, acts) == At(s) && Enabled(s, AGather(ids)) && ServedLast(config, acts) == Some(x)
    ensures forall i, j :: 0 <= i < j < |ids| ==> Behind(x, ids[i]) < Behind(x, ids[j])
    ensures x in s.q.pubs ==> ids != [] && ids[|ids| - 1] == x
  {
    LastIsServedLast(config, acts);
    Listed(s, ids);
    hide Run, RoundRobin, Enabled, ServedLast;
    Ordered(ids, x);
  }

  lemma Listed(s: Engine, ids: seq<u32>)
    requires Enabled(s, AGather(ids))
    ensures RoundRobin(ids, s.work.last) && forall id :: id in ids <==> id in s.q.pubs
  {
  }

  lemma Ordered(ids: seq<u32>, x: u32)
    requires RoundRobin(ids, Some(x))
    ensures forall i, j :: 0 <= i < j < |ids| ==> Behind(x, ids[i]) < Behind(x, ids[j])
    ensures x in ids ==> ids[|ids| - 1] == x
  {
    hide RoundRobin, Behind;
    forall i, j | 0 <= i < j < |ids|
      ensures Behind(x, ids[i]) < Behind(x, ids[j]) && ids[i] != x
    {
      InTurn(ids, x, i, j);
    }
    forall i | 0 <= i < |ids| - 1
      ensures ids[i] != x
    {
      InTurn(ids, x, i, |ids| - 1);
    }
  }
}
