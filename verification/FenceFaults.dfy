/** Which faults of a fence run raise an exception, which runs raise none, and what the fence does not stop. */
module FenceFaults {
  import opened Fence
  import opened FenceProof
  import opened Optional

  // ------------------------------------------------------------------ what a device remembers

  /** The device forwards the fence it was told last.  That one is newer than every fence it has committed, or is
      the last of them. */
  ghost predicate Remembers(d: Device) {
    && (d.forwarded ==> d.prepareSeen && d.sent == d.fence)
    && (d.prepareSeen ==> d.generationSeen)
    && (d.commits != [] ==> d.generationSeen)
    && (forall f :: f in d.commits ==> f.generation < d.fence.generation + if d.prepareSeen then 0 else 1)
    && (!d.prepareSeen && d.generationSeen ==> d.commits != [] && d.fence == d.commits[|d.commits| - 1])
    && d.active == (d.commits != [] && d.commits[|d.commits| - 1].target)
  }

  lemma StepRemembers(l: Lane, a: LaneAction, epoch: nat)
    requires Remembers(l.dev) && LaneApply(l, a, epoch).Some?
    ensures Remembers(LaneApply(l, a, epoch).value.dev)
  {
    var d := LaneApply(l, a, epoch).value.dev;
    hide Remembers;
    if a.DevPollHost? {
      HeardRemembers(l.dev, l.h2d.Head());
    } else if a.DevPollNet? {
      GotRemembers(l.dev, l.f2d.Head());
    } else if a.DevCommit? {
      CommitRemembers(l);
    } else if a.DevForward? {
      ForwardRemembers(l);
    } else {
      SameMemory(l, a, epoch);
      hide LaneApply;
      KeepsMemory(l.dev, d);
    }
  }

  lemma HeardRemembers(d: Device, m: Msg)
    requires Remembers(d) && Hears(d, m).Some?
    ensures Remembers(Hears(d, m).value)
  {
  }

  lemma GotRemembers(d: Device, m: Msg)
    requires Remembers(d) && Gets(d, m).Some?
    ensures Remembers(Gets(d, m).value)
  {
  }

  lemma CommitRemembers(l: Lane)
    requires Remembers(l.dev) && DevCommitStep(l).Some?
    ensures Remembers(DevCommitStep(l).value.dev)
  {
  }

  lemma ForwardRemembers(l: Lane)
    requires Remembers(l.dev) && DevForwardStep(l).Some?
    ensures Remembers(DevForwardStep(l).value.dev)
  {
  }

  predicate SameFences(d: Device, t: Device) {
    && t.forwarded == d.forwarded && t.prepareSeen == d.prepareSeen && t.sent == d.sent && t.fence == d.fence
    && t.generationSeen == d.generationSeen && t.commits == d.commits && t.active == d.active
  }

  lemma SameMemory(l: Lane, a: LaneAction, epoch: nat)
    requires LaneApply(l, a, epoch).Some? && !a.DevPollHost? && !a.DevPollNet? && !a.DevCommit? && !a.DevForward?
    ensures SameFences(l.dev, LaneApply(l, a, epoch).value.dev)
  {
    if a.HostPoll? {
    } else if a.EpPoll? {
    } else {
    }
  }

  lemma KeepsMemory(d: Device, t: Device)
    requires Remembers(d) && SameFences(d, t)
    ensures Remembers(t)
  {
  }

  /** In every run, whatever its commit passes. */
  lemma {:induction false} RunRemembers(n: nat, acts: seq<Action>, i: nat)
    requires Exec(n, acts).Some? && i < |Exec(n, acts).value.lanes|
    ensures Remembers(Exec(n, acts).value.lanes[i].dev)
  {
    hide LaneApply, Remembers;
    if acts == [] {
      assert Remembers(INITIAL_LANE.dev) by {
        InitialMemory();
      }
    } else {
      var s, a := Exec(n, acts[..|acts| - 1]).value, acts[|acts| - 1];
      RunRemembers(n, acts[..|acts| - 1], i);
      if a.On? && a.lane == i {
        StepRemembers(s.lanes[i], a.a, |s.commits|);
      }
    }
  }

  lemma InitialMemory()
    ensures Remembers(INITIAL_LANE.dev)
  {
  }

  /** A COMMIT for a fence the device has carried out already, as the pass that follows a partial one sends it, ends
      the device process when it is polled.  In every run. */
  lemma RepeatedCommitRaises(n: nat, acts: seq<Action>, i: nat, f: Fence)
    requires Exec(n, acts).Some? && i < |Exec(n, acts).value.lanes|
    requires var l := Exec(n, acts).value.lanes[i];
             f in l.dev.commits && !l.dev.commitSeen && !l.f2d.Empty() && l.f2d.Head() == Commit(f)
    ensures Raises(Exec(n, acts).value, On(i, DevPollNet))
  {
    RunRemembers(n, acts, i);
    hide Exec;
  }

  // ------------------------------------------------------------------ runs in which nobody raises an exception

  predicate Plan(plan: seq<Fence>) { Increasing(plan) && Alternating(plan) }

  lemma Later(plan: seq<Fence>, i: nat)
    requires Plan(plan) && 0 < i < |plan|
    ensures plan[i - 1].generation < plan[i].generation && plan[i].target != plan[i - 1].target
  {
  }

  lemma CountsHead(q: Ring<Msg>, k: Kind)
    requires !q.Empty() && q.Head().Data? && q.Head().kind == k
    ensures Count(q, k) > 0
  {
  }

  /** A PREPARE on its way to the device is the one its host has just announced. */
  lemma PrepareIsNew(l: Lane, fabric: seq<Fence>)
    requires LaneInv(l, fabric) && !l.h2d.Empty() && l.h2d.Head().Prepare?
    ensures PhaseOf(l, |fabric|).Announced? && !l.dev.prepareSeen && |l.dev.commits| == |fabric|
    ensures |fabric| < |l.host.prepares| && l.h2d.Head().fence == l.host.prepares[|fabric|]
  {
    hide Owed, Marked;
    if PhaseOf(l, |fabric|).Announced? {
      MarkedPop(l.h2d, |fabric|, ToDevice, Prepare(l.host.prepares[|fabric|]), |fabric|, Answers);
    }
  }

  lemma PrepareIsTaken(l: Lane, fabric: seq<Fence>, plan: seq<Fence>)
    requires LaneInv(l, fabric) && Remembers(l.dev) && Plan(plan) && IsPrefix(l.host.prepares, plan)
    requires !l.h2d.Empty() && l.h2d.Head().Prepare?
    ensures Hears(l.dev, l.h2d.Head()).Some?
  {
    PrepareIsNew(l, fabric);
    var e := |fabric|;
    assert fabric == l.host.prepares[..e] && l.dev.commits == fabric[..e];
    if l.dev.generationSeen {
      assert l.dev.fence == plan[e - 1] && l.h2d.Head().fence == plan[e];
      Later(plan, e);
    }
    hide LaneInv;
  }

  /** The fence a device forwards is the next one of the plan, and the one COMMIT is for. */
  lemma DecidedIsForwarded(l: Lane, fabric: seq<Fence>)
    requires LaneInv(l, fabric) && |l.dev.commits| != |fabric|
    ensures |fabric| == |l.host.commits| + 1 == |l.dev.commits| + 1 == |l.host.prepares|
    ensures l.dev.forwarded && l.dev.sent == l.dev.fence == fabric[|l.host.commits|]
    ensures l.dev.commitSeen ==> l.dev.seen == l.dev.fence
  {
    hide Owed, Marked, Only;
  }

  lemma CommitIsTaken(l: Lane, fabric: seq<Fence>)
    requires LaneInv(l, fabric) && !l.dev.commitSeen && !l.f2d.Empty() && l.f2d.Head().Commit?
    ensures Gets(l.dev, l.f2d.Head()).Some?
  {
    NoPrepare(l, fabric);
    DecidedIsForwarded(l, fabric);
    var h := |l.host.commits|;
    assert Marked(l.f2d, h, Unanswered, Commit(fabric[h]), |fabric|, FromFabric);
    MarkedPop(l.f2d, h, Unanswered, Commit(fabric[h]), |fabric|, FromFabric);
    hide LaneInv;
  }

  lemma CommitIsCarriedOut(l: Lane, fabric: seq<Fence>, plan: seq<Fence>)
    requires LaneInv(l, fabric) && Remembers(l.dev) && Plan(plan) && IsPrefix(l.host.prepares, plan)
    requires l.dev.forwarded && l.dev.commitSeen
    ensures l.dev.seen == l.dev.fence && l.dev.fence.target != l.dev.active
  {
    assert |l.dev.commits| != |fabric| by {
      hide Owed, Marked, Only;
    }
    DecidedIsForwarded(l, fabric);
    var h := |l.host.commits|;
    assert fabric == l.host.prepares[..h + 1] && l.dev.commits == fabric[..h];
    assert l.dev.fence == plan[h];
    if h > 0 {
      assert l.dev.commits[h - 1] == plan[h - 1];
      Later(plan, h);
    }
    hide LaneInv;
  }

  lemma NoDeviceRaises(l: Lane, fabric: seq<Fence>, plan: seq<Fence>, a: LaneAction)
    requires LaneInv(l, fabric) && Remembers(l.dev) && Plan(plan) && IsPrefix(l.host.prepares, plan)
    ensures !DeviceRaises(l, a)
    ensures a.EpPoll? && !l.d2f.Empty() ==> Takes(l.ep, l.d2f.Head()).Some?
  {
    assert Owed(l);
    hide LaneInv, Remembers;
    if a.DevPollHost? && !l.h2d.Empty() {
      if l.h2d.Head().Prepare? {
        PrepareIsTaken(l, fabric, plan);
      } else if l.h2d.Head().Data? && l.h2d.Head().kind == DmaDone {
        CountsHead(l.h2d, DmaDone);
      }
    } else if a.DevPollNet? && !l.dev.commitSeen && !l.f2d.Empty() && l.f2d.Head().Commit? {
      CommitIsTaken(l, fabric);
    } else if a.DevCommit? && l.dev.forwarded && l.dev.commitSeen {
      CommitIsCarriedOut(l, fabric, plan);
    } else if a.EpPoll? && !l.d2f.Empty() && l.d2f.Head().Data? && l.d2f.Head().kind == TargetDone {
      CountsHead(l.d2f, TargetDone);
    }
  }

  lemma EndpointsAgree(s: System, plan: seq<Fence>)
    requires Inv(s) && Quiescent(s) && Plan(plan)
    requires forall i :: 0 <= i < |s.lanes| ==> IsPrefix(s.lanes[i].host.prepares, plan)
    ensures Agreed(s)
  {
    hide LaneInv;
    var e := |s.commits|;
    forall i | 0 <= i < |s.lanes|
      ensures e < |plan| && s.lanes[i].ep.fence == plan[e] && s.commits == plan[..e]
    {
      assert LaneInv(s.lanes[i], s.commits);
      FabricCommits(s.lanes[i], s.commits);
      AnnouncedInOrder(s.lanes[i], s.commits);
    }
    assert s.lanes[0].ep.fence == plan[e];
    if e > 0 {
      Later(plan, e);
    }
  }

  lemma AnnouncedInOrder(l: Lane, fabric: seq<Fence>)
    requires LaneInv(l, fabric)
    ensures |fabric| <= |l.host.prepares| && fabric == l.host.prepares[..|fabric|]
  {
    hide Owed, Marked, Only;
  }

  /** If commit passes reach all endpoints or none, and the hosts announce the fences of one plan, of increasing
      generations and alternating targets, no process ever raises an exception: no fence is repeated, refused or
      mismatched, and nothing answers a question that was not asked. */
  lemma NoParticipantRaises(n: nat, acts: seq<Action>, plan: seq<Fence>, a: Action)
    requires Exec(n, acts).Some? && AllOrNoneRun(n, acts) && Plan(plan)
    requires forall i :: 0 <= i < |Exec(n, acts).value.lanes| ==>
                           IsPrefix(Exec(n, acts).value.lanes[i].host.prepares, plan)
    ensures !Raises(Exec(n, acts).value, a)
  {
    RunInv(n, acts);
    var s := Exec(n, acts).value;
    if a.On? && a.lane < |s.lanes| {
      RunRemembers(n, acts, a.lane);
      hide LaneInv, Exec, Remembers, DeviceRaises;
      NoDeviceRaises(s.lanes[a.lane], s.commits, plan, a.a);
    } else if a.CommitPass? && Quiescent(s) {
      hide LaneInv, Exec;
      EndpointsAgree(s, plan);
    }
  }

  // ------------------------------------------------------------------ work requests and epochs

  ghost predicate Current(s: System) {
    && (forall t :: t in s.tasks ==> s.tasks[t].epoch == |s.commits| && t < s.nextTask && t !in s.ended)
    && (forall t :: t in s.ended ==> s.ended[t].epoch <= |s.commits| && t < s.nextTask)
  }

  lemma StepCurrent(s: System, a: Action)
    requires Current(s) && Apply(s, a).Some?
    ensures Current(Apply(s, a).value)
  {
    hide LaneApply, Submits, Belongs, Committed;
    match a
    case On(i, la) =>
    case FinishTask(t) =>
    case CommitPass(_) =>
  }

  /** Every open work request was submitted in the fabric's present epoch, in every run: a fence is committed only
      when none is open.  So results go back only in the epoch of their request. */
  lemma {:induction false} OpenWorkIsCurrent(n: nat, acts: seq<Action>)
    requires Exec(n, acts).Some?
    ensures Current(Exec(n, acts).value)
  {
    hide Apply, Current;
    if acts == [] {
      NoneOpen(n);
    } else {
      OpenWorkIsCurrent(n, acts[..|acts| - 1]);
      StepCurrent(Exec(n, acts[..|acts| - 1]).value, acts[|acts| - 1]);
    }
  }

  lemma NoneOpen(n: nat)
    ensures Current(Initial(n))
  {
  }

  // ------------------------------------------------------------------ an execution that comes late

  /** A lane whose device has sent one WQE, before and after it finished the work and the fabric polled the WQE. */
  function Sending(work: nat, polled: nat): Lane {
    INITIAL_LANE.(
      h2d := Ring([Data(0, Mmio)], 1), dev := INITIAL_LANE.dev.(work := work, outgoing := Ring([Request(1)], 1)),
      d2f := Ring([Data(0, Request(1))], polled))
  }

  lemma SendingSteps()
    ensures var told := INITIAL_LANE.(h2d := Ring([Data(0, Mmio)], 0));
            var works := told.(h2d := Ring([Data(0, Mmio)], 1), dev := told.dev.(work := 1));
            var asks := works.(dev := works.dev.(outgoing := Ring([Request(1)], 0)));
            && LaneApply(INITIAL_LANE, HostMmio, 0) == Some(told)
            && LaneApply(told, DevPollHost, 0) == Some(works)
            && LaneApply(works, DevRequest(1), 0) == Some(asks)
            && LaneApply(asks, DevFlush, 0) == Some(Sending(1, 0))
            && LaneApply(Sending(1, 0), DevFinishWork, 0) == Some(Sending(0, 0))
            && LaneApply(Sending(0, 0), EpPoll, 0) == Some(Sending(0, 1))
            && Submits(Sending(0, 0), EpPoll) == Some(1)
  {
    var l := INITIAL_LANE;
    assert l.h2d.items + [Data(0, Mmio)] == [Data(0, Mmio)];
    assert l.dev.outgoing.items + [Request(1)] == [Request(1)];
    assert l.d2f.items + [Data(0, Request(1))] == [Data(0, Request(1))];
  }

  lemma Goes(acts: seq<Action>, s: System, a: LaneAction, l': Lane) returns (acts': seq<Action>, s': System)
    requires Exec(2, acts) == Some(s) && |s.lanes| == 2 && s.commits == []
    requires LaneApply(s.lanes[0], a, 0) == Some(l') && !NeedsTask(a) && Submits(s.lanes[0], a).None?
    ensures Exec(2, acts') == Some(s') && s' == s.(lanes := [l', s.lanes[1]])
  {
    hide LaneApply, Exec, Submits;
    Extend(2, acts, s, 0, a, l');
    assert s.lanes[0 := l'] == [l', s.lanes[1]];
    acts', s' := acts + [On(0, a)], s.(lanes := s.lanes[0 := l']);
  }

  lemma Then(acts: seq<Action>, s: System, a: Action, s': System)
    requires Exec(2, acts) == Some(s) && Apply(s, a) == Some(s')
    ensures Exec(2, acts + [a]) == Some(s')
  {
    hide Apply;
    assert (acts + [a])[..|acts|] == acts;
  }

  /** Two endpoints; the first has submitted one WQE for the second, and it has ended. */
  function WithEnded(l: Lane): System { System(map[], map[0 := Task(0, 1, 0)], 1, false, [], [l, INITIAL_LANE]) }

  lemma HasSent() returns (acts: seq<Action>)
    ensures Exec(2, acts) == Some(Initial(2).(lanes := [Sending(0, 0), INITIAL_LANE]))
  {
    SendingSteps();
    var told := INITIAL_LANE.(h2d := Ring([Data(0, Mmio)], 0));
    var works := told.(h2d := Ring([Data(0, Mmio)], 1), dev := told.dev.(work := 1));
    var asks := works.(dev := works.dev.(outgoing := Ring([Request(1)], 0)));
    var s := Initial(2);
    assert Exec(2, []) == Some(s);
    hide Exec, LaneApply, INITIAL_LANE, Sending;
    acts := [];
    acts, s := Goes(acts, s, HostMmio, told);
    acts, s := Goes(acts, s, DevPollHost, works);
    acts, s := Goes(acts, s, DevRequest(1), asks);
    acts, s := Goes(acts, s, DevFlush, Sending(1, 0));
    acts, s := Goes(acts, s, DevFinishWork, Sending(0, 0));
    assert s == Initial(2).(lanes := [Sending(0, 0), INITIAL_LANE]);
  }

  lemma HasEnded() returns (acts: seq<Action>)
    ensures Exec(2, acts) == Some(WithEnded(Sending(0, 1)))
  {
    acts := HasSent();
    SendingSteps();
    hide Exec, LaneApply, INITIAL_LANE, Sending, Submits;
    var s := Initial(2).(lanes := [Sending(0, 0), INITIAL_LANE]);
    var open := System(map[0 := Task(0, 1, 0)], map[], 1, false, [], [Sending(0, 1), INITIAL_LANE]);
    assert Apply(s, On(0, EpPoll)) == Some(open) by {
      assert s.lanes[0 := Sending(0, 1)] == open.lanes;
    }
    Then(acts, s, On(0, EpPoll), open);
    assert map[0 := Task(0, 1, 0)] - {0} == map[];
    Then(acts + [On(0, EpPoll)], open, FinishTask(0), WithEnded(Sending(0, 1)));
    acts := acts + [On(0, EpPoll)] + [FinishTask(0)];
  }

  /** The same lane, ready for the fence. */
  function SendingReady(f: Fence): Lane {
    var l := Sending(0, 1);
    l.(host := Host(true, [f], []), h2d := Ring([Data(0, Mmio), Prepare(f)], 2),
       dev := l.dev.(prepareSeen := true, generationSeen := true, fence := f, forwarded := true, sent := f),
       d2f := Ring([Data(0, Request(1)), Prepare(f)], 2), ep := l.ep.(prepared := true, fence := f))
  }

  lemma ReadySteps(f: Fence)
    ensures var l := Sending(0, 1);
            var told := l.(host := Host(true, [f], []), h2d := Ring([Data(0, Mmio), Prepare(f)], 1));
            var seen := told.(h2d := Ring([Data(0, Mmio), Prepare(f)], 2),
                              dev := l.dev.(prepareSeen := true, generationSeen := true, fence := f));
            var sent := SendingReady(f).(d2f := Ring([Data(0, Request(1)), Prepare(f)], 1), ep := l.ep);
            && LaneApply(l, HostPrepare(f), 0) == Some(told)
            && LaneApply(told, DevPollHost, 0) == Some(seen)
            && LaneApply(seen, DevForward, 0) == Some(sent)
            && LaneApply(sent, EpPoll, 0) == Some(SendingReady(f)) && Submits(sent, EpPoll).None?
  {
    var l := Sending(0, 1);
    assert l.host.prepares + [f] == [f];
    assert l.h2d.items + [Prepare(f)] == [Data(0, Mmio), Prepare(f)];
    assert l.d2f.items + [Prepare(f)] == [Data(0, Request(1)), Prepare(f)];
  }

  lemma BothPrepared(f: Fence) returns (acts: seq<Action>)
    ensures Exec(2, acts) == Some(WithEnded(SendingReady(f)).(lanes := [SendingReady(f), ReadyLane(f)]))
  {
    ReadySteps(f);
    var l := Sending(0, 1);
    var told := l.(host := Host(true, [f], []), h2d := Ring([Data(0, Mmio), Prepare(f)], 1));
    var seen := told.(h2d := Ring([Data(0, Mmio), Prepare(f)], 2),
                      dev := l.dev.(prepareSeen := true, generationSeen := true, fence := f));
    var sent := SendingReady(f).(d2f := Ring([Data(0, Request(1)), Prepare(f)], 1), ep := l.ep);
    acts := HasEnded();
    hide Exec, LaneApply, INITIAL_LANE, Sending, SendingReady, ReadyLane;
    var s := WithEnded(l);
    acts, s := Goes(acts, s, HostPrepare(f), told);
    acts, s := Goes(acts, s, DevPollHost, seen);
    acts, s := Goes(acts, s, DevForward, sent);
    acts, s := Goes(acts, s, EpPoll, SendingReady(f));
    acts := Approaches(2, acts, s, 1, f);
    assert s.lanes[1 := ReadyLane(f)] == [SendingReady(f), ReadyLane(f)];
  }

  /** The fence does not stop a segment that is still in the native network when its work request ends: here one of a
      request of the first epoch is executed at its target in the second. */
  lemma LateExecutionCrosses(f: Fence) returns (acts: seq<Action>)
    requires f.target
    ensures Exec(2, acts).Some? && Apply(Exec(2, acts).value, On(1, EpExecute(0))).Some?
    ensures var s := Exec(2, acts).value; 0 in s.ended && s.ended[0].epoch == 0 && s.commits == [f]
  {
    acts := BothPrepared(f);
    Ready(f);
    hide Exec, Apply, ReadyLane, SendingReady, ReadyToCommit;
    var s := WithEnded(SendingReady(f)).(lanes := [SendingReady(f), ReadyLane(f)]);
    var t := PassOfTwo(s, f);
    Then(acts, s, CommitPass({0, 1}), t);
    acts := acts + [CommitPass({0, 1})];
    Executable(t);
  }

  lemma PassOfTwo(s: System, f: Fence) returns (t: System)
    requires ReadyToCommit(s) && |s.lanes| == 2 && s.commits == [] && s.lanes[0].ep.fence == f
    ensures Apply(s, CommitPass({0, 1})) == Some(t) && t.ended == s.ended && t.commits == [f] && |t.lanes| == 2
  {
    hide ReadyToCommit, Committed;
    var reached: set<nat> := {0, 1};
    assert 0 in reached && 1 in reached;
    t := Apply(s, CommitPass(reached)).value;
  }

  lemma Ready(f: Fence)
    requires f.target
    ensures var s := WithEnded(SendingReady(f)).(lanes := [SendingReady(f), ReadyLane(f)]);
            ReadyToCommit(s) && s.lanes[0].ep.fence == f
  {
  }

  lemma Executable(s: System)
    requires |s.lanes| == 2 && 0 in s.ended && s.ended[0] == Task(0, 1, 0)
    ensures Apply(s, On(1, EpExecute(0))).Some?
  {
  }
}
