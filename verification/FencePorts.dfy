/** The fence as the processes run it: the ports of a device and the commit pass of the fabric. */
module FencePorts {
  import opened Fence
  import opened Optional

  /** A device process with its rings; the host and the fabric endpoint at their far ends are ghosts. */
  class DeviceProcess {
    var dev: Device
    var h2d: Ring<Msg>
    var d2h: Ring<Msg>
    var d2f: Ring<Msg>
    var f2d: Ring<Msg>
    ghost var host: Host
    ghost var ep: Endpoint

    ghost function View(): Lane
      reads this
    {
      Lane(host, h2d, d2h, dev, d2f, f2d, ep)
    }

    constructor ()
      ensures View() == INITIAL_LANE
    {
      var none, ring := Fence(0, false), Ring([], 0);
      dev := Device(0, 0, 0, 0, false, Ring([], 0), false, false, none, false, none, false, none, false, []);
      h2d, d2h, d2f, f2d := ring, ring, ring, ring;
      host, ep := Host(false, [], []), Endpoint(Ring([], 0), 0, false, false, none);
    }

    /** `HostPort::Poll`; `threw` is an exception, after which the process is gone. */
    method PollHost() returns (polled: bool, threw: bool)
      modifies this`dev, this`h2d
      ensures !threw ==> polled == !old(h2d).Empty()
      ensures threw <==> !old(h2d).Empty() && DevPollHostStep(old(View())).None?
      ensures !threw ==> View() == if polled then DevPollHostStep(old(View())).value else old(View())
    {
      polled, threw := false, false;
      if h2d.Empty() {
        return;
      }
      var m := h2d.Head();
      if m.Data? && m.kind == DmaDone {
        if dev.dma == 0 {
          return true, true;
        }
        dev := dev.(dma := dev.dma - 1);
      } else if m.Data? && m.kind == Mmio {
        dev := dev.(work := dev.work + 1);
      } else if m.Prepare? {
        if dev.prepareSeen || (dev.generationSeen && m.fence.generation <= dev.fence.generation) {
          return true, true;
        }
        dev := dev.(prepareSeen := true, generationSeen := true, fence := m.fence);
      }
      h2d := h2d.Pop();
      polled := true;
    }

    /** `NetworkPort::Poll`. */
    method PollNetwork() returns (polled: bool, threw: bool)
      requires !dev.commitSeen
      modifies this`dev, this`f2d
      ensures !threw ==> polled == !old(f2d).Empty()
      ensures threw <==> !old(f2d).Empty() && DevPollNetStep(old(View())).None?
      ensures !threw ==> View() == if polled then DevPollNetStep(old(View())).value else old(View())
    {
      polled, threw := false, false;
      if f2d.Empty() {
        return;
      }
      var m := f2d.Head();
      if m.Data? && m.kind == Execute {
        dev := dev.(serving := dev.serving + 1);
      } else if m.Data? && m.kind == Deliver {
        dev := dev.(receiving := dev.receiving + 1);
      } else if m.Commit? {
        if !dev.forwarded || m.fence != dev.sent {
          return true, true;
        }
        dev := dev.(commitSeen := true, seen := m.fence);
      }
      f2d := f2d.Pop();
      polled := true;
    }

    /** `PollNetworkBatch`: a bounded batch that ends at COMMIT.  What follows COMMIT stays on the ring. */
    method PollNetworkBatch(batch: nat) returns (polls: nat, threw: bool)
      modifies this`dev, this`f2d
      ensures polls <= batch
      ensures !threw ==> PollsTo(old(View()), polls, View())
      ensures !threw ==> polls == batch || dev.commitSeen || f2d.Empty()
      ensures old(dev).commitSeen ==> polls == 0 && !threw
    {
      polls, threw := 0, false;
      while polls < batch && !dev.commitSeen
        invariant polls <= batch && !threw && PollsTo(old(View()), polls, View())
        invariant old(dev).commitSeen ==> polls == 0
        decreases batch - polls
      {
        ghost var before := View();
        var polled;
        polled, threw := PollNetwork();
        if threw || !polled {
          return;
        }
        MorePolls(old(View()), polls, before, View());
        polls := polls + 1;
      }
    }

    /** The fence part of the main loop: PREPARE goes on to the fabric once the device is idle. */
    method ForwardPrepare(room: bool) returns (sent: bool)
      modifies this`dev, this`d2f
      ensures sent == (room && DevForwardStep(old(View())).Some?)
      ensures var d := old(dev);
              sent == (room && d.prepareSeen && !d.forwarded && d.work == 0 && d.serving == 0 && d.receiving == 0
                       && d.dma == 0 && !d.cutting && d.outgoing.Empty())
      ensures View() == if sent then DevForwardStep(old(View())).value else old(View())
    {
      if !dev.prepareSeen || dev.forwarded || dev.work != 0 || dev.serving != 0 || dev.receiving != 0 || dev.dma != 0
         || dev.cutting || !dev.outgoing.Empty() || !room {
        return false;
      }
      dev := dev.(forwarded := true, sent := dev.fence);
      d2f := d2f.Push(Prepare(dev.fence));
      sent := true;
    }

    /** COMMIT, once polled, is carried out when the device is idle again; a mismatch ends the process. */
    method CommitFence(room: bool) returns (done: bool, failed: bool)
      modifies this`dev, this`d2h
      ensures done == (room && DevCommitStep(old(View())).Some?)
      ensures done == (room && old(dev).forwarded && old(dev).commitSeen && Idle(old(dev))
                       && old(dev).seen == old(dev).fence && old(dev).fence.target != old(dev).active)
      ensures View() == if done then DevCommitStep(old(View())).value else old(View())
      ensures failed == (old(dev).forwarded && old(dev).commitSeen && Idle(old(dev)) &&
                         (old(dev).seen != old(dev).fence || old(dev).fence.target == old(dev).active))
    {
      done, failed := false, false;
      if !dev.forwarded || !dev.commitSeen || dev.work != 0 || dev.serving != 0 || dev.receiving != 0 || dev.dma != 0
         || dev.cutting || !dev.outgoing.Empty() {
        return;
      }
      var f := dev.fence;
      if dev.seen != f || f.target == dev.active {
        return false, true;
      }
      if !room {
        return;
      }
      d2h := d2h.Push(Commit(f));
      dev := dev.(active := f.target, prepareSeen := false, forwarded := false, commitSeen := false,
                  commits := dev.commits + [f]);
      done := true;
    }
  }

  /** `n` polls lead from one lane state to the other. */
  ghost predicate PollsTo(from: Lane, n: nat, to: Lane) {
    if n == 0 then to == from
    else exists mid :: PollsTo(from, n - 1, mid) && DevPollNetStep(mid) == Some(to)
  }

  lemma MorePolls(from: Lane, n: nat, mid: Lane, to: Lane)
    requires PollsTo(from, n, mid) && DevPollNetStep(mid) == Some(to)
    ensures PollsTo(from, n + 1, to)
  {
  }

  /** No poll follows the one that takes COMMIT: the rest of the ring is left for the next epoch. */
  lemma {:induction false} BatchStopsAtCommit(from: Lane, n: nat, to: Lane, i: nat)
    requires PollsTo(from, n, to) && i < n
    ensures to.f2d.items == from.f2d.items && to.f2d.read == from.f2d.read + n <= |from.f2d.items|
    ensures from.f2d.items[from.f2d.read + i].Commit? ==> i == n - 1
  {
    var mid :| PollsTo(from, n - 1, mid) && DevPollNetStep(mid) == Some(to);
    if n == 1 {
      assert mid == from;
    } else {
      BatchStopsAtCommit(from, n - 1, mid, if i < n - 1 then i else 0);
      if i == n - 2 {
        LastPoll(from, n - 1, mid);
      } else if i < n - 2 {
        assert from.f2d.items[from.f2d.read + i].Commit? ==> i == n - 2;
      }
    }
  }

  /** The poll of a COMMIT leaves the port waiting for the main loop. */
  lemma LastPoll(from: Lane, n: nat, to: Lane)
    requires PollsTo(from, n, to) && n > 0
    ensures to.f2d.read > 0 && to.f2d.read <= |to.f2d.items|
    ensures to.f2d.items[to.f2d.read - 1].Commit? ==> to.dev.commitSeen
  {
    var mid :| PollsTo(from, n - 1, mid) && DevPollNetStep(mid) == Some(to);
  }

  // ------------------------------------------------------------------ the fabric

  class Fabric {
    var system: seq<Lane>
    var tasks: map<nat, Task>           // native_tasks_, and scheduled_packets_ as its size
    ghost var ended: map<nat, Task>
    var nextTask: nat
    var active: bool
    ghost var commits: seq<Fence>

    ghost function View(): System
      reads this
    {
      System(tasks, ended, nextTask, active, commits, system)
    }

    constructor (n: nat)
      ensures View() == Initial(n)
    {
      system, tasks, nextTask, active := seq(n, _ => INITIAL_LANE), map[], 0, false;
      ended, commits := map[], [];
    }

    /** Whether every endpoint is prepared and nothing is left to drain; the first endpoint's fence is the one
        to commit.  Endpoints that disagree, or a target already reached, are an exception. */
    method Ready() returns (ready: bool, threw: bool)
      ensures ready == ReadyToCommit(View())
      ensures ready <==> |system| > 0 && tasks == map[] && system[0].ep.fence.target != active &&
                         forall i :: 0 <= i < |system| ==>
                           var e := system[i].ep;
                           && e.prepared && e.targets == 0 && !e.partial && e.outgoing.Empty()
                           && e.fence == system[0].ep.fence
      ensures threw == (Quiescent(View()) && !Agreed(View()))
    {
      ready, threw := false, false;
      if tasks != map[] || |system| == 0 {
        return;
      }
      var i := 0;
      while i < |system|
        invariant 0 <= i <= |system|
        invariant forall j :: 0 <= j < i ==> DrainedEnd(system[j].ep)
      {
        if system[i].ep.targets != 0 || system[i].ep.partial || !system[i].ep.outgoing.Empty()
           || !system[i].ep.prepared {
          return;
        }
        i := i + 1;
      }
      i := 0;
      while i < |system|
        invariant 0 <= i <= |system|
        invariant forall j :: 0 <= j < i ==> system[j].ep.fence == system[0].ep.fence
      {
        if system[i].ep.fence != system[0].ep.fence {
          return false, true;
        }
        i := i + 1;
      }
      if system[0].ep.fence.target == active {
        return false, true;
      }
      ready := true;
    }

    /** The commit pass: COMMIT goes to every endpoint whose ring has room.  Only if that was all of them is
        the fence committed; otherwise the endpoints stay prepared and the next pass sends to all again. */
    method CommitPass(room: seq<bool>) returns (sent: bool)
      requires |room| == |system| && ReadyToCommit(View())
      modifies this`system, this`active, this`commits
      ensures sent <==> forall i :: 0 <= i < |room| ==> room[i]
      ensures Some(View()) == Apply(old(View()), Action.CommitPass(Reached(room)))
    {
      var f := system[0].ep.fence;
      ghost var before := View();
      sent := SendCommits(f, room);
      if sent {
        FinishPass(f);
        FullPass(before, room, View());
      } else {
        PartialPass(before, room, View());
      }
    }

    /** COMMIT to every endpoint that has room for it. */
    method SendCommits(f: Fence, room: seq<bool>) returns (sent: bool)
      requires |room| == |system|
      modifies this`system
      ensures sent <==> forall i :: 0 <= i < |room| ==> room[i]
      ensures |system| == |old(system)|
      ensures forall j :: 0 <= j < |system| ==> system[j] == if room[j] then Sent(old(system)[j], f) else old(system)[j]
    {
      sent := true;
      var i := 0;
      while i < |system|
        invariant 0 <= i <= |system| == |old(system)|
        invariant sent <==> forall j :: 0 <= j < i ==> room[j]
        invariant forall j :: 0 <= j < |system| ==>
                    system[j] == if j < i && room[j] then Sent(old(system)[j], f) else old(system)[j]
      {
        if room[i] {
          system := system[i := Sent(system[i], f)];
        } else {
          sent := false;
        }
        i := i + 1;
      }
    }

    /** The fence is committed: all endpoints start over. */
    method FinishPass(f: Fence)
      modifies this`system, this`active, this`commits
      ensures active == f.target && commits == old(commits) + [f] && |system| == |old(system)|
      ensures forall j :: 0 <= j < |system| ==>
                system[j] == old(system)[j].(ep := old(system)[j].ep.(prepared := false))
    {
      var i := 0;
      while i < |system|
        invariant 0 <= i <= |system| == |old(system)| && commits == old(commits)
        invariant forall j :: 0 <= j < |system| ==>
                    system[j] ==
                    if j < i then old(system)[j].(ep := old(system)[j].ep.(prepared := false)) else old(system)[j]
      {
        system := system[i := system[i].(ep := system[i].ep.(prepared := false))];
        i := i + 1;
      }
      active := f.target;
      commits := commits + [f];
    }
  }

  function Sent(l: Lane, f: Fence): Lane { l.(f2d := l.f2d.Push(Commit(f))) }

  lemma FullPass(s: System, room: seq<bool>, t: System)
    requires ReadyToCommit(s) && |room| == |s.lanes| == |t.lanes| && forall i :: 0 <= i < |room| ==> room[i]
    requires var f := s.lanes[0].ep.fence;
             && t.tasks == s.tasks && t.ended == s.ended && t.nextTask == s.nextTask
             && t.active == f.target && t.commits == s.commits + [f]
             && forall j :: 0 <= j < |s.lanes| ==>
                       t.lanes[j] == Sent(s.lanes[j], f).(ep := Sent(s.lanes[j], f).ep.(prepared := false))
    ensures Apply(s, CommitPass(Reached(room))) == Some(t)
  {
    hide ReadyToCommit;
    assert t.lanes == Apply(s, CommitPass(Reached(room))).value.lanes;
  }

  lemma PartialPass(s: System, room: seq<bool>, t: System)
    requires ReadyToCommit(s) && |room| == |s.lanes| == |t.lanes| && exists i :: 0 <= i < |room| && !room[i]
    requires var f := s.lanes[0].ep.fence;
             && t.tasks == s.tasks && t.ended == s.ended && t.nextTask == s.nextTask
             && t.active == s.active && t.commits == s.commits
             && forall j :: 0 <= j < |s.lanes| ==> t.lanes[j] == if room[j] then Sent(s.lanes[j], f) else s.lanes[j]
    ensures Apply(s, CommitPass(Reached(room))) == Some(t)
  {
    var i :| 0 <= i < |room| && !room[i];
    assert i !in Reached(room);
    assert forall j: nat :: j < |room| ==> (j in Reached(room) <==> room[j]);
    hide ReadyToCommit;
    assert t.lanes == Apply(s, CommitPass(Reached(room))).value.lanes;
  }

  /** The lanes whose ring has room. */
  function Reached(room: seq<bool>): set<nat> { set i: nat | i < |room| && room[i] }
}
