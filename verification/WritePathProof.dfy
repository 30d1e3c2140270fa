/** A WRITE of at most 65536 segments reaches the target's memory exactly, whatever the order of its events. */
module WritePathProof {
  import opened Optional
  import opened Words
  import opened Rma
  import opened RmaProof
  import opened Native
  import opened AckProof
  import opened WritePath
  import R = ReadPath
  import P = ReadPathProof

  // ------------------------------------------------------------------ what every reachable state satisfies

  /** The WRITEs the adapter carries through: it takes them up, their segments are told apart by 16 bits, and none of
      them starts beyond the address space. */
  predicate Carried(w: Job) {
    Posted(w) && R.Enters(w.r) && 0 < |w.cut| <= 0x1_0000 && w.r.remote <= LAST64 - At(w, |w.cut| - 1)
  }

  /** The target looks at every segment. */
  predicate RemoteFits(w: Job) { w.r.remote != 0 && w.r.remote + w.r.length - 1 <= LAST64 }

  predicate TaskFits(w: Job, s: Path) {
    && s.task.source == w.r.from && s.task.work == WorkOf(w) && |s.stage| <= |w.cut|
    && (s.stage != [] || s.ended ==> s.submitted) && s.task.next == Offset(w.cut, |s.stage|)
  }

  predicate Entry(w: Job, s: Path, k: nat)
    requires Wired(w) && k < |w.cut|
  {
    var key := Low16(R.Ssn(w.r, k));
    key in s.task.segments && s.task.segments[key].offset == At(w, k) && s.task.segments[key].bytes == w.cut[k]
  }

  function TargetOf(w: Job, k: nat): Target
    requires Wired(w) && k < |w.cut| && InRequest(WorkOf(w), At(w, k), w.cut[k])
  {
    Target(w.r.task, R.To(w.r), w.r.net[w.r.from].eid, w.r.net[R.To(w.r)].eid,
           Part(WorkOf(w), At(w, k), w.cut[k]), At(w, k))
  }

  predicate AtTarget(w: Job, s: Path, k: nat)
    requires Wired(w) && k < |w.cut| && k < |s.stage|
  {
    && InRequest(WorkOf(w), At(w, k), w.cut[k])
    && (R.Key(w.r, k) in s.targets <==> s.stage[k] == Executing)
    && (R.Key(w.r, k) in s.targets ==> s.targets[R.Key(w.r, k)] == TargetOf(w, k))
  }

  predicate Tables(w: Job, s: Path)
    requires Wired(w) && |s.stage| <= |w.cut|
  {
    && (forall k {:trigger Entry(w, s, k)} :: 0 <= k < |s.stage| ==> Entry(w, s, k))
    && (forall k {:trigger AtTarget(w, s, k)} :: 0 <= k < |s.stage| ==> AtTarget(w, s, k))
  }

  predicate Belongs(w: Job, n: nat, key: u16) { exists k :: 0 <= k < n && key == Low16(R.Ssn(w.r, k)) }

  /** Every entry is of a segment that was sent. */
  predicate NoStrays(w: Job, s: Path) {
    && (forall key :: key in s.task.segments ==> Belongs(w, |s.stage|, key))
    && (forall key :: key in s.targets ==>
          key == TargetKey(w.r.from, w.r.id, key.ssn) && Belongs(w, |s.stage|, key.ssn))
  }

  /** The acknowledgement of segment `k`, and the report of a failure, with where they go. */
  predicate AckOf(w: Job, x: Reply, k: nat)
    requires Wired(w)
  {
    k < |w.cut|
    && x == Reply(w.r.from, WRITE_ACK, w.r.peer, w.r.jetty, w.r.tpn, w.r.id,
                  Response(Low16(R.Ssn(w.r, k)), At(w, k), w.cut[k], []))
  }

  predicate ErrorOf(w: Job, x: Reply) {
    x == Reply(w.r.from, RMA_ERROR, w.r.peer, w.r.jetty, 0, w.r.id, Response(0, 0, 0, []))
  }

  predicate Broken(w: Job, s: Path) { s.ended && !AllAnswered(w, s) }

  predicate Replies(w: Job, s: Path)
    requires Wired(w)
  {
    && |s.replies| == |s.order| + (if Broken(w, s) then 1 else 0)
    && (Broken(w, s) ==> ErrorOf(w, s.replies[|s.order|]))
    && (forall i {:trigger s.order[i]} :: 0 <= i < |s.order| ==>
          s.order[i] < |s.stage| && s.stage[s.order[i]] == Answered && AckOf(w, s.replies[i], s.order[i]))
    && (forall i, j :: 0 <= i < j < |s.order| ==> s.order[i] != s.order[j])
    && (forall k :: 0 <= k < |s.stage| && s.stage[k] == Answered ==> k in s.order)
  }

  /** The acknowledgements that have arrived. */
  function Heard(s: Path): (acks: seq<Response>)
    requires |s.order| <= |s.replies|
    ensures |acks| == Min(s.arrived, |s.order|)
  {
    seq(Min(s.arrived, |s.order|), i requires 0 <= i < Min(s.arrived, |s.order|) => s.replies[i].response)
  }

  ghost predicate AllAcked(w: Job, s: Path) { forall k: nat :: k < |w.cut| ==> Acked(s, k) }

  ghost predicate Device(w: Job, s: Path)
    requires |s.order| <= |s.replies|
  {
    && s.arrived <= |s.replies| && s.errors == 0
    && Took(s.device.p, Heard(s)) && s.device.p.byteCount == w.r.length && s.device.p.responseDma == 0
    && s.completed == if Reported(s) then Some(REMOTE_FAILED) else if AllAcked(w, s) then Some(SUCCESS) else None
  }

  /** Bytes of written segments are those of the WRITE; nothing else of the memory has changed. */
  ghost function Expected(w: Job, s: Path, a: int): u8 {
    if 0 <= a - w.r.remote < |w.r.contents| && Reached(w, s, a - w.r.remote) then w.r.contents[a - w.r.remote]
    else w.r.before(a)
  }

  ghost predicate Memory(w: Job, s: Path) { forall a: int :: s.memory(a) == Expected(w, s, a) }

  ghost predicate Inv(w: Job, s: Path)
    requires Wired(w)
  {
    TaskFits(w, s) && Tables(w, s) && NoStrays(w, s) && Replies(w, s) && Device(w, s) && Memory(w, s)
  }

  // ------------------------------------------------------------------ segments

  /** Segments do not meet. */
  lemma SegmentsApart(w: Job, j: nat, k: nat)
    requires Wired(w) && j < |w.cut| && k < |w.cut| && j != k
    ensures At(w, j) + w.cut[j] <= At(w, k) || At(w, k) + w.cut[k] <= At(w, j)
  {
    if j < k {
      Before(w.cut, j, k);
    } else {
      Before(w.cut, k, j);
    }
  }

  lemma OneSegment(w: Job, j: nat, k: nat, b: int)
    requires Wired(w) && j < |w.cut| && k < |w.cut|
    requires At(w, j) <= b < At(w, j) + w.cut[j] && At(w, k) <= b < At(w, k) + w.cut[k]
    ensures j == k
  {
    if j != k {
      SegmentsApart(w, j, k);
    }
  }

  lemma {:induction false} SegmentWith(cut: seq<u32>, n: nat, b: nat) returns (k: nat)
    requires n <= |cut| && b < Offset(cut, n)
    ensures k < n && Offset(cut, k) <= b < Offset(cut, k) + cut[k]
  {
    if b >= Offset(cut, n - 1) {
      k := n - 1;
    } else {
      k := SegmentWith(cut, n - 1, b);
    }
  }

  /** Every byte of the WRITE belongs to a segment. */
  lemma SegmentAt(w: Job, b: nat) returns (k: nat)
    requires Wired(w) && b < w.r.length
    ensures k < |w.cut| && At(w, k) <= b < At(w, k) + w.cut[k]
  {
    k := SegmentWith(w.cut, |w.cut|, b);
  }

  lemma Numbers(w: Job, j: nat, k: nat)
    requires j < k < 0x1_0000
    ensures Low16(R.Ssn(w.r, j)) != Low16(R.Ssn(w.r, k))
  {
    P.KeysDiffer(w.r, j, k);
  }

  lemma LaterStarts(w: Job, k: nat)
    requires Wired(w) && k < |w.cut|
    ensures At(w, k) <= At(w, |w.cut| - 1)
  {
    if k < |w.cut| - 1 {
      Before(w.cut, k, |w.cut| - 1);
    }
  }

  // ------------------------------------------------------------------ what an event leaves alone

  lemma TablesUntouched(w: Job, s: Path, s': Path)
    requires Wired(w) && TaskFits(w, s) && Tables(w, s) && NoStrays(w, s)
    requires s'.task == s.task && s'.targets == s.targets && s'.stage == s.stage
    requires (s.submitted ==> s'.submitted) && (s'.ended ==> s.ended || s.submitted)
    ensures TaskFits(w, s') && Tables(w, s') && NoStrays(w, s')
  {
    forall k | 0 <= k < |s.stage|
      ensures Entry(w, s', k) && AtTarget(w, s', k)
    {
      assert Entry(w, s, k) && AtTarget(w, s, k);
    }
  }

  lemma RepliesUntouched(w: Job, s: Path, s': Path)
    requires Wired(w) && Replies(w, s)
    requires s'.replies == s.replies && s'.order == s.order && Broken(w, s') == Broken(w, s)
    requires |s'.stage| >= |s.stage|
    requires forall k :: 0 <= k < |s.stage| ==> (s'.stage[k] == Answered <==> s.stage[k] == Answered)
    requires forall k :: |s.stage| <= k < |s'.stage| ==> s'.stage[k] != Answered
    ensures Replies(w, s')
  {
  }

  lemma DeviceUntouched(w: Job, s: Path, s': Path)
    requires |s.order| <= |s.replies| && |s'.order| <= |s'.replies| && Device(w, s)
    requires s'.device == s.device && s'.completed == s.completed && s'.errors == s.errors && s'.arrived == s.arrived
    requires s.order <= s'.order && s.replies <= s'.replies && (|s.replies| > |s.order| ==> s'.order == s.order)
    ensures Device(w, s')
  {
    assert s.arrived <= |s.order| || s'.order == s.order;
    assert Heard(s') == Heard(s);
    forall k: nat
      ensures Acked(s', k) <==> Acked(s, k)
    {
      SameAck(s, s', k);
    }
    assert Reported(s') == Reported(s);
    hide Took, Acked;
  }

  lemma SameAck(s: Path, s': Path, k: nat)
    requires s'.arrived == s.arrived && s.order <= s'.order && (s.arrived <= |s.order| || s'.order == s.order)
    ensures Acked(s', k) <==> Acked(s, k)
  {
    if Acked(s, k) {
      var i :| AckedBy(s, i, k);
      assert AckedBy(s', i, k);
    }
    if Acked(s', k) {
      var i :| AckedBy(s', i, k);
      assert AckedBy(s, i, k);
    }
  }

  lemma MemoryUntouched(w: Job, s: Path, s': Path)
    requires Memory(w, s) && s'.memory == s.memory && |s'.stage| >= |s.stage|
    requires forall k :: 0 <= k < |s.stage| ==>
               (s'.stage[k] == Written || s'.stage[k] == Answered <==> s.stage[k] == Written || s.stage[k] == Answered)
    requires forall k :: |s.stage| <= k < |s'.stage| ==> s'.stage[k] == Sent
    ensures Memory(w, s')
  {
    forall a: int
      ensures s'.memory(a) == Expected(w, s', a)
    {
      SameReach(w, s, s', a - w.r.remote);
      assert s.memory(a) == Expected(w, s, a);
    }
  }

  lemma SameReach(w: Job, s: Path, s': Path, b: int)
    requires |s'.stage| >= |s.stage|
    requires forall k :: 0 <= k < |s.stage| ==>
               (s'.stage[k] == Written || s'.stage[k] == Answered <==> s.stage[k] == Written || s.stage[k] == Answered)
    requires forall k :: |s.stage| <= k < |s'.stage| ==> s'.stage[k] == Sent
    ensures Reached(w, s', b) <==> Reached(w, s, b)
  {
    if Reached(w, s, b) {
      var k :| ReachedBy(w, s, k, b);
      assert ReachedBy(w, s', k, b);
    }
    if Reached(w, s', b) {
      var k :| ReachedBy(w, s', k, b);
      assert ReachedBy(w, s, k, b);
    }
  }

  // ------------------------------------------------------------------ the adapter's events

  lemma SubmitKeeps(w: Job, s: Path)
    requires Carried(w) && Inv(w, s)
    ensures Submits(w, s).Some? && Inv(w, Submits(w, s).value)
  {
    var s' := s.(submitted := true);
    hide Device, Replies, Tables, NoStrays, Memory;
    TablesUntouched(w, s, s');
    RepliesUntouched(w, s, s') by {
      hide Tables;
    }
    Counted(w, s);
    Counted(w, s');
    DeviceUntouched(w, s, s');
    MemoryUntouched(w, s, s');
  }

  lemma Counted(w: Job, s: Path)
    requires Wired(w) && Replies(w, s)
    ensures |s.replies| == |s.order| + (if Broken(w, s) then 1 else 0)
  {
  }

  lemma FreshKey(w: Job, s: Path)
    requires NoStrays(w, s) && |s.stage| < 0x1_0000
    ensures Low16(R.Ssn(w.r, |s.stage|)) !in s.task.segments && R.Key(w.r, |s.stage|) !in s.targets
  {
    var m := |s.stage|;
    forall k | 0 <= k < m
      ensures Low16(R.Ssn(w.r, k)) != Low16(R.Ssn(w.r, m))
    {
      Numbers(w, k, m);
    }
  }

  lemma BelongsLater(w: Job, n: nat, key: u16)
    requires Belongs(w, n, key) || key == Low16(R.Ssn(w.r, n))
    ensures Belongs(w, n + 1, key)
  {
    if Belongs(w, n, key) {
      var k :| 0 <= k < n && key == Low16(R.Ssn(w.r, k));
    }
  }

  lemma SendTables(w: Job, s: Path, s': Path)
    requires Carried(w) && TaskFits(w, s) && Tables(w, s) && NoStrays(w, s) && |s.stage| < |w.cut|
    requires s' == s.(task := s'.task, stage := s.stage + [Sent])
    requires var key := Low16(R.Ssn(w.r, |s.stage|));
             s'.task.segments == s.task.segments[key := Segment(At(w, |s.stage|), w.cut[|s.stage|], [])]
    requires InRequest(WorkOf(w), At(w, |s.stage|), w.cut[|s.stage|])
    ensures Tables(w, s') && NoStrays(w, s')
  {
    var m := |s.stage|;
    FreshKey(w, s);
    forall k | 0 <= k < m
      ensures Entry(w, s', k) && AtTarget(w, s', k)
    {
      Numbers(w, k, m);
      assert Entry(w, s, k) && AtTarget(w, s, k);
    }
    hide R.Ssn, At;
    forall key: u16 | Belongs(w, m, key) || key == Low16(R.Ssn(w.r, m))
      ensures Belongs(w, m + 1, key)
    {
      BelongsLater(w, m, key);
    }
  }

  lemma Inside(w: Job, k: nat)
    requires Carried(w) && k < |w.cut|
    ensures w.r.remote + At(w, k) <= LAST64 && InRequest(WorkOf(w), At(w, k), w.cut[k])
  {
    LaterStarts(w, k);
    assert w.cut[k] > 0;
    hide Offset;
  }

  lemma SendStep(w: Job, s: Path)
    requires Carried(w) && TaskFits(w, s) && NoStrays(w, s) && |s.stage| < |w.cut|
    ensures var m := |s.stage|;
            var t := s.task.(segments := s.task.segments[Low16(R.Ssn(w.r, m)) := Segment(At(w, m), w.cut[m], [])],
                             next := At(w, m) + w.cut[m]);
            Sends(w, s) == Some(s.(task := t, stage := s.stage + [Sent]))
  {
    var m := |s.stage|;
    FreshKey(w, s);
    Before(w.cut, m, |w.cut|);
    assert Offset(w.cut, m + 1) == At(w, m) + w.cut[m];
    assert w.cut[m] > 0;
    hide R.Ssn, NoStrays;
  }

  lemma SendKeeps(w: Job, s: Path)
    requires Carried(w) && Inv(w, s) && Legal(w, s, Send)
    ensures Sends(w, s).Some? && Inv(w, Sends(w, s).value)
  {
    hide Device, Replies, Tables, NoStrays, Memory, Sends;
    SendStep(w, s);
    var s' := Sends(w, s).value;
    Inside(w, |s.stage|);
    SendTables(w, s, s');
    RepliesUntouched(w, s, s');
    Counted(w, s);
    Counted(w, s');
    DeviceUntouched(w, s, s');
    MemoryUntouched(w, s, s');
  }

  /** The tables after an event that concerns segment `k` alone. */
  lemma OnlyOne(w: Job, s: Path, s': Path, k: nat)
    requires Carried(w) && TaskFits(w, s) && Tables(w, s) && k < |s.stage|
    requires |s'.stage| == |s.stage| && Entry(w, s', k) && AtTarget(w, s', k)
    requires forall j :: 0 <= j < |s.stage| && j != k ==> s'.stage[j] == s.stage[j]
    requires s'.task == s.task
    requires forall key :: key != R.Key(w.r, k) ==> (key in s'.targets <==> key in s.targets)
    requires forall key :: key != R.Key(w.r, k) && key in s.targets ==> s'.targets[key] == s.targets[key]
    ensures Tables(w, s')
  {
    forall j | 0 <= j < |s.stage| && j != k
      ensures Entry(w, s', j) && AtTarget(w, s', j)
    {
      if j < k {
        Numbers(w, j, k);
      } else {
        Numbers(w, k, j);
      }
      assert Entry(w, s, j) && AtTarget(w, s, j);
    }
  }

  lemma NoMoreStrays(w: Job, s: Path, s': Path)
    requires NoStrays(w, s) && |s'.stage| == |s.stage| && s'.task == s.task && s'.targets.Keys <= s.targets.Keys
    ensures NoStrays(w, s')
  {
    hide Belongs;
    forall key | key in s'.targets
      ensures key in s.targets
    {
      assert key in s'.targets.Keys;
    }
  }

  /** The packet of a segment is taken at the target. */
  lemma SegmentTaken(w: Job, targets: map<TargetKey, Target>, k: nat)
    requires Carried(w) && k < |w.cut| && R.Key(w.r, k) !in targets
    ensures InRequest(WorkOf(w), At(w, k), w.cut[k])
    ensures TargetExecuted(w.r.net, targets, R.To(w.r), PacketOf(w, k))
            == Some(targets[R.Key(w.r, k) := TargetOf(w, k)])
  {
    Inside(w, k);
    ByNodeFinds(w.r.net, w.r.from);
    hide R.Ssn, Low16, Offset, ByNode;
  }

  lemma ExecuteKeeps(w: Job, s: Path, k: nat)
    requires Carried(w) && Inv(w, s) && Legal(w, s, Execute(k))
    ensures Executes(w, s, k).Some? && Inv(w, Executes(w, s, k).value)
  {
    assert Entry(w, s, k) && AtTarget(w, s, k);
    SegmentTaken(w, s.targets, k);
    var s' := s.(targets := s.targets[R.Key(w.r, k) := TargetOf(w, k)], stage := s.stage[k := Executing]);
    assert Executes(w, s, k) == Some(s') by {
      hide Tables, NoStrays, Device, Replies, Memory, R.Ssn, Low16, TargetExecuted, TargetOf;
    }
    hide TargetOf, TargetExecuted;
    OnlyOne(w, s, s', k);
    assert Belongs(w, |s.stage|, Low16(R.Ssn(w.r, k)));
    hide Tables, Device, Replies, Memory, R.Ssn, Low16;
    assert NoStrays(w, s');
    hide NoStrays;
    Alike(w, s, s', k);
  }

  /** What else holds after an event that concerns segment `k` alone and does not answer it. */
  lemma Alike(w: Job, s: Path, s': Path, k: nat)
    requires Wired(w) && Replies(w, s) && Device(w, s) && Memory(w, s) && k < |s.stage|
    requires s' == s.(targets := s'.targets, stage := s'.stage) && |s'.stage| == |s.stage|
    requires s'.stage == s.stage[k := s'.stage[k]] && s.stage[k] != Answered && s.stage[k] != Written
    requires s'.stage[k] != Answered && s'.stage[k] != Written
    ensures Replies(w, s') && Device(w, s') && Memory(w, s')
  {
    assert s.stage[k] != Answered && s'.stage[k] != Answered;
    hide Replies, Device, Memory;
    RepliesUntouched(w, s, s');
    Counted(w, s);
    Counted(w, s');
    DeviceUntouched(w, s, s');
    MemoryUntouched(w, s, s');
  }

  /** The target device looks at segment `k`. */
  predicate Answerable(w: Job, k: nat)
    requires Wired(w) && k < |w.cut|
  {
    w.r.remote + At(w, k) != 0 && w.r.remote + At(w, k) + w.cut[k] - 1 <= LAST64
  }

  /** Its answer passes every test of the adapter, whether the request is still known or has ended. */
  lemma AnswerTaken(w: Job, s: Path, k: nat, ok: bool)
    requires Carried(w) && TaskFits(w, s) && k < |s.stage| && Entry(w, s, k) && AtTarget(w, s, k)
    requires s.stage[k] == Executing
    ensures var a := WriteAnswer(TargetOf(w, k), Low16(R.Ssn(w.r, k)), w.cut[k], ok);
            var t := if s.ended then None else Some(s.task);
            if Answerable(w, k) then
              a.Some? && TargetCompleted(w.r.net, s.targets, R.To(w.r), t, a.value)
                         == Some((s.targets - {R.Key(w.r, k)}, t))
            else a.None?
  {
    Inside(w, k);
    ByEidFinds(w.r.net, w.r.from);
    assert w.r.net[w.r.from].eid != w.r.net[R.To(w.r)].eid by {
      if w.r.from < R.To(w.r) {
      } else {
        assert R.To(w.r) < w.r.from;
      }
    }
    hide R.Ssn, ByEid, Offset;
  }

  lemma ServeStep(w: Job, s: Path, k: nat, ok: bool)
    requires Carried(w) && TaskFits(w, s) && k < |s.stage| && Entry(w, s, k) && AtTarget(w, s, k)
    requires s.stage[k] == Executing
    ensures Serves(w, s, k, ok) ==
            Some(if !Answerable(w, k) then s
                 else s.(targets := s.targets - {R.Key(w.r, k)}, stage := s.stage[k := if ok then Written else Faulted],
                         memory := if ok then R.Patched(s.memory, w.r.remote + At(w, k), Slice(w, k)) else s.memory))
  {
    AnswerTaken(w, s, k, ok);
    assert s.targets[R.Key(w.r, k)] == TargetOf(w, k) && TargetOf(w, k).part.remote == w.r.remote + At(w, k);
    hide TargetCompleted, WriteAnswer, TargetOf, Carried, TaskFits, Entry, Answerable, Slice, At, R.Ssn;
  }

  lemma ServeKeeps(w: Job, s: Path, k: nat, ok: bool)
    requires Carried(w) && Inv(w, s) && Legal(w, s, Serve(k, ok))
    ensures Serves(w, s, k, ok).Some? && Inv(w, Serves(w, s, k, ok).value)
    ensures Serves(w, s, k, ok).value.stage ==
            if !Answerable(w, k) then s.stage else s.stage[k := if ok then Written else Faulted]
    ensures Serves(w, s, k, ok).value == s.(targets := Serves(w, s, k, ok).value.targets,
                                            stage := Serves(w, s, k, ok).value.stage,
                                            memory := Serves(w, s, k, ok).value.memory)
  {
    assert Entry(w, s, k) && AtTarget(w, s, k);
    ServeStep(w, s, k, ok);
    var s' := Serves(w, s, k, ok).value;
    hide Serves, Answerable, TargetOf, Carried, Device, Replies, Memory;
    if Answerable(w, k) {
      OnlyOne(w, s, s', k);
      hide Tables;
      NoMoreStrays(w, s, s');
      hide NoStrays;
      if ok {
        WriteLands(w, s, s', k);
      } else {
        Alike(w, s, s', k);
      }
    }
  }

  /** Segment `k` reaches the memory. */
  lemma WriteLands(w: Job, s: Path, s': Path, k: nat)
    requires Wired(w) && Replies(w, s) && Device(w, s) && Memory(w, s) && k < |s.stage| <= |w.cut|
    requires s' == s.(targets := s'.targets, stage := s.stage[k := Written],
                      memory := R.Patched(s.memory, w.r.remote + At(w, k), Slice(w, k)))
    requires s.stage[k] == Executing
    ensures Replies(w, s') && Device(w, s') && Memory(w, s')
  {
    assert s.stage[k] != Answered && s'.stage[k] != Answered;
    assert !Broken(w, s) == !Broken(w, s');
    hide Replies, Device, At, Slice, Memory;
    RepliesUntouched(w, s, s');
    Counted(w, s);
    Counted(w, s');
    DeviceUntouched(w, s, s');
    BytesLand(w, s, s', k);
  }

  lemma BytesLand(w: Job, s: Path, s': Path, k: nat)
    requires Wired(w) && Memory(w, s) && k < |s.stage| <= |w.cut| && s.stage[k] == Executing
    requires s'.stage == s.stage[k := Written]
    requires s'.memory == R.Patched(s.memory, w.r.remote + At(w, k), Slice(w, k))
    ensures Memory(w, s')
  {
    hide At, Slice, Reached;
    forall a: int
      ensures s'.memory(a) == Expected(w, s', a)
    {
      assert s.memory(a) == Expected(w, s, a);
      ByteLands(w, s, s', k, a - w.r.remote);
    }
  }

  lemma ByteLands(w: Job, s: Path, s': Path, k: nat, b: int)
    requires Wired(w) && k < |s.stage| <= |w.cut| && s'.stage == s.stage[k := Written] && s.stage[k] == Executing
    ensures Reached(w, s', b) <==> Reached(w, s, b) || At(w, k) <= b < At(w, k) + w.cut[k]
    ensures At(w, k) <= b < At(w, k) + w.cut[k] ==>
              0 <= b < w.r.length && Slice(w, k)[b - At(w, k)] == w.r.contents[b]
  {
    if Reached(w, s, b) {
      var j :| ReachedBy(w, s, j, b);
      assert ReachedBy(w, s', j, b);
    }
    if At(w, k) <= b < At(w, k) + w.cut[k] {
      assert ReachedBy(w, s', k, b);
    }
    if Reached(w, s', b) {
      var j :| ReachedBy(w, s', j, b);
      assert j == k || ReachedBy(w, s, j, b);
    }
  }

  lemma RepliesExtended(w: Job, s: Path, s': Path, k: nat, x: Reply)
    requires Wired(w) && Replies(w, s) && k < |s.stage| && s.stage[k] == Written && AckOf(w, x, k) && !s.ended
    requires s'.stage == s.stage[k := Answered] && s'.replies == s.replies + [x] && s'.order == s.order + [k]
    requires s'.ended == s.ended
    ensures Replies(w, s')
  {
    hide AckOf;
    assert k !in s.order;
    forall j | 0 <= j < |s'.stage| && s'.stage[j] == Answered
      ensures j in s'.order
    {
      if j == k {
        assert s'.order[|s.order|] == k;
      } else {
        assert j in s.order;
      }
    }
  }

  lemma ReturnStep(w: Job, s: Path, k: nat, x: Reply)
    requires Carried(w) && TaskFits(w, s) && k < |s.stage| && Entry(w, s, k) && AckOf(w, x, k)
    ensures Returns(w, s, k) ==
            Some(s.(replies := s.replies + [x], stage := s.stage[k := Answered], order := s.order + [k]))
  {
    hide R.Ssn, Low16, At;
  }

  lemma ReturnKeeps(w: Job, s: Path, k: nat)
    requires Carried(w) && Inv(w, s) && Legal(w, s, Return(k))
    ensures Returns(w, s, k).Some? && Inv(w, Returns(w, s, k).value)
  {
    assert Entry(w, s, k) && AtTarget(w, s, k);
    var x := Reply(w.r.from, WRITE_ACK, w.r.peer, w.r.jetty, w.r.tpn, w.r.id,
                   Response(Low16(R.Ssn(w.r, k)), At(w, k), w.cut[k], []));
    hide Device, Memory, R.Ssn, Low16, At, Replies, Returns, Carried, TargetOf;
    ReturnStep(w, s, k, x);
    var s' := s.(replies := s.replies + [x], stage := s.stage[k := Answered], order := s.order + [k]);
    OnlyOne(w, s, s', k);
    NoMoreStrays(w, s, s');
    hide Tables, NoStrays, Entry, AtTarget;
    RepliesExtended(w, s, s', k, x);
    Counted(w, s);
    Counted(w, s');
    DeviceUntouched(w, s, s');
    MemoryUntouched(w, s, s');
  }

  lemma FinishKeeps(w: Job, s: Path)
    requires Carried(w) && Inv(w, s) && Legal(w, s, Finish)
    ensures Inv(w, Finishes(w, s))
  {
    var s' := Finishes(w, s);
    hide Tables, NoStrays, Device, Memory, AckOf;
    TablesUntouched(w, s, s');
    assert ErrorOf(w, ErrorTo(s.task));
    hide ErrorTo, ErrorOf;
    assert Replies(w, s');
    hide Replies;
    Counted(w, s);
    Counted(w, s');
    DeviceUntouched(w, s, s');
    MemoryUntouched(w, s, s');
  }

  // ------------------------------------------------------------------ the requesting device

  /** No byte is missing exactly when every acknowledgement has arrived. */
  lemma CoveredIffAcked(w: Job, s: Path)
    requires Wired(w) && Replies(w, s)
    ensures (forall b :: 0 <= b < w.r.length ==> Covered(Heard(s), b)) <==> AllAcked(w, s)
  {
    if AllAcked(w, s) {
      forall b | 0 <= b < w.r.length
        ensures Covered(Heard(s), b)
      {
        var k := SegmentAt(w, b);
        assert Acked(s, k);
        var i: nat :| AckedBy(s, i, k);
        assert AckOf(w, s.replies[i], s.order[i]);
        assert Touches(Heard(s)[i], b);
      }
    }
    if forall b :: 0 <= b < w.r.length ==> Covered(Heard(s), b) {
      forall k: nat | k < |w.cut|
        ensures Acked(s, k)
      {
        CoveredIsAcked(w, s, k);
      }
    }
  }

  lemma CoveredIsAcked(w: Job, s: Path, k: nat)
    requires Wired(w) && Replies(w, s) && k < |w.cut| && Covered(Heard(s), At(w, k))
    ensures Acked(s, k)
  {
    var i :| 0 <= i < |Heard(s)| && Touches(Heard(s)[i], At(w, k));
    assert AckOf(w, s.replies[i], s.order[i]);
    assert w.cut[k] > 0;
    OneSegment(w, s.order[i], k, At(w, k));
    assert AckedBy(s, i, k);
  }

  /** Nothing is complete while an acknowledgement or the report of a failure is on its way. */
  lemma Outstanding(w: Job, s: Path)
    requires Wired(w) && Replies(w, s) && s.arrived < |s.replies| && |s.stage| <= |w.cut|
    ensures !Reported(s) && !AllAcked(w, s)
  {
    if s.arrived < |s.order| {
      var k := s.order[s.arrived];
      assert AckOf(w, s.replies[s.arrived], k);
      assert !Acked(s, k);
    } else if AllAcked(w, s) {
      hide AckOf;
      AckedIsAnswered(w, s);
    }
  }

  lemma AckedIsAnswered(w: Job, s: Path)
    requires Wired(w) && Replies(w, s) && AllAcked(w, s) && |s.stage| <= |w.cut|
    ensures AllAnswered(w, s)
  {
    forall k: nat | k < |w.cut|
      ensures k < |s.stage| && s.stage[k] == Answered
    {
      AnAckIsAnAnswer(w, s, k);
    }
    assert |w.cut| > 0;
    AnAckIsAnAnswer(w, s, |w.cut| - 1);
  }

  lemma AnAckIsAnAnswer(w: Job, s: Path, k: nat)
    requires Wired(w) && Replies(w, s) && Acked(s, k)
    ensures k < |s.stage| && s.stage[k] == Answered
  {
    var i: nat :| AckedBy(s, i, k);
    assert s.order[i] == k;
    hide AckOf;
  }

  lemma ArriveKeeps(w: Job, s: Path)
    requires Carried(w) && Inv(w, s) && Legal(w, s, Arrive)
    ensures Inv(w, Arrives(w, s))
  {
    var s' := Arrives(w, s);
    SameElsewhere(w, s);
    Outstanding(w, s);
    hide Tables, NoStrays, Device, Memory, Replies, Arrives, Carried;
    TablesUntouched(w, s, s');
    RepliesUntouched(w, s, s');
    MemoryUntouched(w, s, s');
    if s.arrived < |s.order| {
      AckArrives(w, s);
    } else {
      ErrorArrives(w, s);
    }
  }

  /** An arrival concerns the device alone. */
  lemma SameElsewhere(w: Job, s: Path)
    requires s.arrived < |s.replies|
    ensures var t := Arrives(w, s);
            t == s.(arrived := s.arrived + 1, device := t.device, completed := t.completed, errors := t.errors)
  {
    hide AckAcceptable, Acknowledge;
  }

  /** The next acknowledgement meets none before it: the device takes it. */
  lemma AckIsTaken(w: Job, s: Path)
    requires Carried(w) && Replies(w, s) && Device(w, s) && s.arrived < |s.order|
    ensures AckOf(w, s.replies[s.arrived], s.order[s.arrived])
    ensures AckAcceptable(s.device.p, s.replies[s.arrived].response)
    ensures Took(Acknowledge(s.device, s.replies[s.arrived].response).p, Heard(s) + [s.replies[s.arrived].response])
  {
    var x, k := s.replies[s.arrived].response, s.order[s.arrived];
    assert AckOf(w, s.replies[s.arrived], k);
    assert Within(x, w.r.length);
    forall i | 0 <= i < |Heard(s)|
      ensures Parted(Heard(s)[i], x)
    {
      assert AckOf(w, s.replies[i], s.order[i]);
      SegmentsApart(w, s.order[i], k);
      if s.order[i] < k {
        Numbers(w, s.order[i], k);
      } else {
        Numbers(w, k, s.order[i]);
      }
    }
    AckFits(s.device.p, Heard(s), x);
    AckTaken(s.device, Heard(s), x);
  }

  lemma AckArrives(w: Job, s: Path)
    requires Carried(w) && Replies(w, s) && Device(w, s) && s.arrived < |s.order| && Replies(w, Arrives(w, s))
    requires !Reported(s) && !AllAcked(w, s)
    ensures Device(w, Arrives(w, s))
  {
    AckIsTaken(w, s);
    AckStep(w, s);
    SameElsewhere(w, s);
    var s' := Arrives(w, s);
    hide Replies, Took, AckAcceptable, AckOf, Acknowledge, Carried, Arrives, AllAcked, Acked, Device, Heard;
    HeardGrows(s, s');
    FullIffAcked(w, s');
    NowDevice(w, s');
  }

  lemma HeardGrows(s: Path, s': Path)
    requires s.arrived < |s.order| <= |s.replies| && s'.arrived == s.arrived + 1
    requires s'.order == s.order && s'.replies == s.replies
    ensures Heard(s') == Heard(s) + [s.replies[s.arrived].response]
  {
  }

  lemma FullIffAcked(w: Job, s: Path)
    requires Wired(w) && Replies(w, s) && Took(s.device.p, Heard(s)) && s.device.p.byteCount == w.r.length
    ensures s.device.p.completedBytes == w.r.length <==> AllAcked(w, s)
  {
    FullIsCovered(s.device.p, Heard(s));
    CoveredIffAcked(w, s);
    hide Took, Replies, Heard, AllAcked, Covered;
  }

  /** What the next acknowledgement does to the device. */
  lemma AckStep(w: Job, s: Path)
    requires Wired(w) && |s.order| <= |s.replies| && Device(w, s) && s.arrived < |s.order|
    requires !Reported(s) && !AllAcked(w, s)
    requires AckOf(w, s.replies[s.arrived], s.order[s.arrived])
    requires AckAcceptable(s.device.p, s.replies[s.arrived].response)
    ensures var t := Arrives(w, s);
            && t.device == Acknowledge(s.device, s.replies[s.arrived].response)
            && t.device.p.byteCount == w.r.length && t.device.p.responseDma == 0 && t.errors == 0
            && t.completed == if t.device.p.completedBytes == w.r.length then Some(SUCCESS) else None
  {
    hide Took, AckAcceptable, AllAcked, R.Ssn;
  }

  lemma NowDevice(w: Job, s: Path)
    requires |s.order| <= |s.replies| && s.arrived <= |s.order| && s.errors == 0 && Took(s.device.p, Heard(s))
    requires s.device.p.byteCount == w.r.length && s.device.p.responseDma == 0
    requires s.completed == if s.device.p.completedBytes == w.r.length then Some(SUCCESS) else None
    requires s.device.p.completedBytes == w.r.length <==> AllAcked(w, s)
    ensures Device(w, s)
  {
    hide Took, AllAcked;
  }

  /** The report of a failure ends the request. */
  lemma ErrorArrives(w: Job, s: Path)
    requires Carried(w) && Replies(w, s) && Device(w, s) && |s.order| <= s.arrived < |s.replies|
    requires !Reported(s) && !AllAcked(w, s)
    ensures Device(w, Arrives(w, s))
  {
    var s' := Arrives(w, s);
    assert ErrorOf(w, s.replies[s.arrived]);
    assert Heard(s') == Heard(s);
    assert Took(s'.device.p, Heard(s'));
    hide Took, AckOf;
  }

  // ------------------------------------------------------------------ whole schedules

  lemma StepKeeps(w: Job, s: Path, e: Event)
    requires Carried(w) && Inv(w, s) && Legal(w, s, e)
    ensures Step(w, s, e).Some? && Inv(w, Step(w, s, e).value)
  {
    hide Inv, Carried, Submits, Sends, Executes, Serves, Returns, Finishes, Arrives;
    match e
    case Submit => SubmitKeeps(w, s);
    case Send => SendKeeps(w, s);
    case Execute(k) => ExecuteKeeps(w, s, k);
    case Serve(k, ok) => ServeKeeps(w, s, k, ok);
    case Return(k) => ReturnKeeps(w, s, k);
    case Finish => FinishKeeps(w, s);
    case Arrive => ArriveKeeps(w, s);
  }

  lemma FreshInv(w: Job)
    requires Posted(w)
    ensures Inv(w, Fresh(w)) && Run(w, []) == Now(Fresh(w))
  {
    var s := Fresh(w);
    assert |w.cut| > 0 && !Acked(s, 0);
    assert Heard(s) == [];
  }

  lemma {:induction false} RunInv(w: Job, es: seq<Event>)
    requires Carried(w)
    ensures !Run(w, es).Thrown?
    ensures Run(w, es).Now? ==> Inv(w, Run(w, es).s)
  {
    hide Inv, Step, Legal, Standing, Fresh;
    if es == [] {
      FreshInv(w);
    } else {
      RunInv(w, es[..|es| - 1]);
      var o := Run(w, es[..|es| - 1]);
      if o.Now? && Legal(w, o.s, es[|es| - 1]) {
        StepKeeps(w, o.s, es[|es| - 1]);
      }
    }
  }

  /** Under every schedule the device takes every acknowledgement and every report of a failure.  It completes the WRITE
      with success when and only when the last acknowledgement arrives, with a failure when and only when the report
      does; and the target's memory has changed exactly by the bytes of the segments that were written. */
  lemma WriteIsExact(w: Job, es: seq<Event>, s: Path)
    requires Carried(w) && Run(w, es) == Now(s)
    ensures s.errors == 0
    ensures s.completed == Some(0) <==> forall k: nat :: k < |w.cut| ==> Acked(s, k)
    ensures s.completed == Some(5) <==> Reported(s)
    ensures s.completed.Some? ==> s.completed == Some(0) || s.completed == Some(5)
    ensures s.completed == Some(0) ==> forall j :: 0 <= j < w.r.length ==> s.memory(w.r.remote + j) == w.r.contents[j]
    ensures forall a: int ::
              s.memory(a) == if 0 <= a - w.r.remote < w.r.length && Reached(w, s, a - w.r.remote) then
                               w.r.contents[a - w.r.remote]
                             else w.r.before(a)
  {
    hide Run, Tables, NoStrays, TaskFits, Replies, Device, Memory, Acked, Reached, Reported;
    RunInv(w, es);
    StageBound(w, s);
    Completion(w, s);
    MemoryIs(w, s);
    if AllAcked(w, s) {
      AckedIsWritten(w, s);
    }
  }

  lemma StageBound(w: Job, s: Path)
    requires Wired(w) && TaskFits(w, s)
    ensures |s.stage| <= |w.cut|
  {
  }

  lemma Completion(w: Job, s: Path)
    requires Wired(w) && Replies(w, s) && Device(w, s) && |s.stage| <= |w.cut|
    ensures s.errors == 0
    ensures s.completed == Some(0) <==> AllAcked(w, s)
    ensures s.completed == Some(5) <==> Reported(s)
    ensures s.completed.Some? ==> s.completed == Some(0) || s.completed == Some(5)
  {
    ReportedIsBroken(w, s);
    hide Replies, AllAcked, Took;
  }

  lemma MemoryIs(w: Job, s: Path)
    requires Wired(w) && Memory(w, s)
    ensures forall a: int ::
              s.memory(a) == if 0 <= a - w.r.remote < w.r.length && Reached(w, s, a - w.r.remote) then
                               w.r.contents[a - w.r.remote]
                             else w.r.before(a)
  {
    hide Reached;
    assert forall a: int :: s.memory(a) == Expected(w, s, a);
  }

  lemma ReportedIsBroken(w: Job, s: Path)
    requires Wired(w) && Replies(w, s) && Device(w, s) && |s.stage| <= |w.cut|
    ensures Reported(s) ==> !AllAcked(w, s)
  {
    if Reported(s) && AllAcked(w, s) {
      AckedIsAnswered(w, s);
    }
  }

  lemma AckedIsWritten(w: Job, s: Path)
    requires Wired(w) && Replies(w, s) && AllAcked(w, s) && Memory(w, s) && |s.stage| <= |w.cut|
    ensures forall j :: 0 <= j < w.r.length ==> s.memory(w.r.remote + j) == w.r.contents[j]
  {
    AckedIsAnswered(w, s);
    hide Replies;
    forall j | 0 <= j < w.r.length
      ensures s.memory(w.r.remote + j) == w.r.contents[j]
    {
      var k := SegmentAt(w, j);
      assert ReachedBy(w, s, k, j);
      assert s.memory(w.r.remote + j) == Expected(w, s, w.r.remote + j);
    }
  }

  /** Every acknowledgement goes back to the endpoint, the jetty and the request it answers, from the queue that was
      asked, for one segment, and no segment is acknowledged twice; after them comes at most one report of a failure. */
  lemma RepliesAreAddressed(w: Job, es: seq<Event>, s: Path, i: nat)
    requires Carried(w) && Run(w, es) == Now(s) && i < |s.replies|
    ensures |s.order| <= |s.replies| <= |s.order| + 1 && forall j :: 0 <= j < i < |s.order| ==> s.order[j] != s.order[i]
    ensures var x := s.replies[i];
            && x.endpoint == w.r.from && x.request == w.r.id && x.peer == w.r.jetty && x.jetty == w.r.peer
            && (i < |s.order| ==> x.operation == 0x83 && x.tpn == w.r.tpn && s.order[i] < |w.cut|
                                  && x.response.offset == Offset(w.cut, s.order[i])
                                  && x.response.length == w.cut[s.order[i]] && x.response.bytes == [])
            && (i == |s.order| ==> x.operation == 0x86)
  {
    RunInv(w, es);
    hide Run, Tables, NoStrays, Device, Memory, R.Ssn;
    if i < |s.order| {
      assert AckOf(w, s.replies[i], s.order[i]);
    }
  }

  // ------------------------------------------------------------------ every schedule ends

  function Rank(g: Stage): nat {
    match g
    case Sent => 1
    case Executing => 2
    case Written => 3
    case Faulted => 3
    case Answered => 4
  }

  function Ranks(stage: seq<Stage>): (n: nat)
    ensures n <= 4 * |stage|
  {
    if stage == [] then 0 else Ranks(stage[..|stage| - 1]) + Rank(stage[|stage| - 1])
  }

  function Answers(stage: seq<Stage>): (n: nat)
    ensures n <= |stage|
  {
    if stage == [] then 0 else Answers(stage[..|stage| - 1]) + if stage[|stage| - 1] == Answered then 1 else 0
  }

  lemma {:induction false} StageMoves(stage: seq<Stage>, k: nat, g: Stage)
    requires k < |stage|
    ensures Ranks(stage[k := g]) == Ranks(stage) - Rank(stage[k]) + Rank(g)
    ensures Answers(stage[k := g]) ==
            Answers(stage) - (if stage[k] == Answered then 1 else 0) + if g == Answered then 1 else 0
  {
    var n := |stage| - 1;
    if k == n {
      assert stage[k := g][..n] == stage[..n];
    } else {
      StageMoves(stage[..n], k, g);
      assert stage[k := g][..n] == stage[..n][k := g];
    }
  }

  lemma StageGrows(stage: seq<Stage>)
    ensures Ranks(stage + [Sent]) == Ranks(stage) + 1 && Answers(stage + [Sent]) == Answers(stage)
  {
    assert (stage + [Sent])[..|stage|] == stage;
  }

  lemma {:induction false} FewAnswers(stage: seq<Stage>)
    ensures Answers(stage) == |stage| ==> forall k :: 0 <= k < |stage| ==> stage[k] == Answered
    ensures Ranks(stage) <= 3 * |stage| + Answers(stage)
  {
    if stage != [] {
      FewAnswers(stage[..|stage| - 1]);
      assert stage == stage[..|stage| - 1] + [stage[|stage| - 1]];
    }
  }

  /** How far a WRITE is: every event is one step. */
  function Progress(s: Path): nat {
    (if s.submitted then 1 else 0) + Ranks(s.stage) + (if s.ended then 1 else 0) + s.arrived
  }

  predicate Counts(s: Path, t: Path) {
    Progress(t) == Progress(s) + 1 && |t.order| - Answers(t.stage) == |s.order| - Answers(s.stage)
  }

  lemma EveryEventCounts(w: Job, s: Path, e: Event)
    requires Carried(w) && RemoteFits(w) && Inv(w, s) && Legal(w, s, e) && Step(w, s, e).Some?
    ensures Counts(s, Step(w, s, e).value)
  {
    assert |s.stage| <= |w.cut|;
    hide Inv, Carried, RemoteFits, Serves, Counts;
    if e.Serve? {
      ServeCounts(w, s, e.k, e.ok);
    } else {
      OtherCounts(w, s, e);
    }
  }

  lemma ServeCounts(w: Job, s: Path, k: nat, ok: bool)
    requires Carried(w) && RemoteFits(w) && Inv(w, s) && |s.stage| <= |w.cut| && Legal(w, s, Serve(k, ok))
    requires Serves(w, s, k, ok).Some?
    ensures Counts(s, Serves(w, s, k, ok).value)
  {
    ServeKeeps(w, s, k, ok);
    assert Answerable(w, k);
    hide Inv, Carried, RemoteFits, Serves, Answerable, Offset;
    StageMoves(s.stage, k, if ok then Written else Faulted);
    hide Ranks, Answers;
  }

  lemma OtherCounts(w: Job, s: Path, e: Event)
    requires Wired(w) && Standing(w, s) && Legal(w, s, e) && Step(w, s, e).Some? && !e.Serve?
    ensures Counts(s, Step(w, s, e).value)
  {
    hide SegmentSent, TargetExecuted, SegmentCompleted, AckAcceptable, Acknowledge, ReplyTo, ErrorTo, PacketOf, Ranks;
    hide Answers, R.Enters, Offset;
    match e
    case Send =>
      StageGrows(s.stage);
    case Execute(k) =>
      StageMoves(s.stage, k, Executing);
    case Return(k) =>
      StageMoves(s.stage, k, Answered);
    case _ =>
  }

  lemma {:induction false} RunCounts(w: Job, es: seq<Event>)
    requires Carried(w) && RemoteFits(w) && Run(w, es).Now?
    ensures Progress(Run(w, es).s) == |es| && |Run(w, es).s.order| == Answers(Run(w, es).s.stage)
  {
    hide Step, Legal, Standing, Inv;
    if es == [] {
    } else {
      var before := es[..|es| - 1];
      RunCounts(w, before);
      RunInv(w, before);
      EveryEventCounts(w, Run(w, before).s, es[|es| - 1]);
    }
  }

  /** Something can still happen to an open WRITE; its end only when all segments are answered or one has faulted. */
  predicate GoesOn(w: Job, s: Path, e: Event) {
    Legal(w, s, e) && (e.Finish? ==> AllAnswered(w, s) || Faulted in s.stage)
  }

  lemma SomethingIsLegal(w: Job, s: Path)
    requires Wired(w) && Replies(w, s) && Device(w, s) && s.completed.None? && |s.stage| <= |w.cut|
    ensures exists e :: GoesOn(w, s, e)
  {
    if !s.submitted {
      assert GoesOn(w, s, Submit);
    } else if s.arrived < |s.replies| {
      assert GoesOn(w, s, Arrive);
    } else if !s.ended {
      OpenGoesOn(w, s);
    } else {
      AllArrived(w, s);
    }
  }

  lemma OpenGoesOn(w: Job, s: Path)
    requires s.submitted && !s.ended && |s.stage| <= |w.cut|
    ensures exists e :: GoesOn(w, s, e)
  {
    if |s.stage| < |w.cut| {
      assert GoesOn(w, s, Send);
    } else if AllAnswered(w, s) || Faulted in s.stage {
      assert GoesOn(w, s, Finish);
    } else {
      var k :| 0 <= k < |s.stage| && s.stage[k] != Answered;
      if s.stage[k] == Sent {
        assert GoesOn(w, s, Execute(k));
      } else if s.stage[k] == Executing {
        assert GoesOn(w, s, Serve(k, true));
      } else {
        assert s.stage[k] in s.stage;
        assert GoesOn(w, s, Return(k));
      }
    }
  }

  /** When a request has ended and every reply has arrived, it is complete. */
  lemma AllArrived(w: Job, s: Path)
    requires Wired(w) && Replies(w, s) && s.ended && s.arrived == |s.replies|
    ensures Reported(s) || AllAcked(w, s)
  {
    if !Broken(w, s) {
      forall k: nat | k < |w.cut|
        ensures Acked(s, k)
      {
        assert s.stage[k] == Answered && k in s.order;
        var i :| 0 <= i < |s.order| && s.order[i] == k;
        assert AckedBy(s, i, k);
      }
    }
  }

  /** A WRITE has at most five events for each segment and two more: every schedule ends.  As long as it is not complete
      something can happen to it, and its failure is the way out only after a fault. */
  lemma EveryScheduleCompletes(w: Job, es: seq<Event>, s: Path)
    requires Carried(w) && RemoteFits(w) && Run(w, es) == Now(s)
    ensures |es| <= 5 * |w.cut| + 2
    ensures s.completed.None? ==> exists e :: GoesOn(w, s, e) && Run(w, es + [e]).Now?
  {
    RunInv(w, es);
    RunCounts(w, es);
    hide Run, Step, Tables, NoStrays, Memory;
    FewAnswers(s.stage);
    Few(w, s);
    if s.completed.None? {
      SomethingIsLegal(w, s);
      var e :| GoesOn(w, s, e);
      hide Replies, Device;
      OneMoreEvent(w, es, s, e);
    }
  }

  lemma Few(w: Job, s: Path)
    requires Wired(w) && Replies(w, s) && Device(w, s) && |s.stage| <= |w.cut| && |s.order| == Answers(s.stage)
    ensures Progress(s) <= 5 * |w.cut| + 2
  {
    FewAnswers(s.stage);
    Counted(w, s);
    hide Took, Replies;
    if Broken(w, s) && |s.stage| == |w.cut| {
      assert Answers(s.stage) < |s.stage|;
    }
  }

  lemma OneMoreEvent(w: Job, es: seq<Event>, s: Path, e: Event)
    requires Carried(w) && Run(w, es) == Now(s) && Legal(w, s, e)
    ensures Run(w, es + [e]).Now?
  {
    RunInv(w, es);
    RunInv(w, es + [e]);
    assert (es + [e])[..|es + [e]| - 1] == es;
    hide Step, Legal, Inv;
  }

  // ------------------------------------------------------------------ requests that end the adapter

  /** `m` segments were sent and nothing else happened. */
  predicate OnlySent(w: Job, s: Path, m: nat) {
    && s.submitted && TaskFits(w, s) && s.targets == map[] && |s.stage| == m
    && (forall k :: 0 <= k < m ==> s.stage[k] == Sent)
  }

  lemma OneMoreSend(w: Job, s: Path, m: nat)
    requires Posted(w) && OnlySent(w, s, m) && m < |w.cut|
    ensures Sends(w, s).Some? && OnlySent(w, Sends(w, s).value, m + 1)
  {
    Before(w.cut, m, |w.cut|);
    assert w.cut[m] > 0 && Offset(w.cut, m + 1) == At(w, m) + w.cut[m];
    hide R.Ssn;
    assert Sends(w, s).value.stage == s.stage + [Sent];
  }

  lemma {:induction false} OnlySends(w: Job, m: nat) returns (es: seq<Event>, s: Path)
    requires Posted(w) && R.Enters(w.r) && m <= |w.cut|
    ensures Run(w, es) == Now(s) && !s.ended && OnlySent(w, s, m)
  {
    if m == 0 {
      es, s := [Submit], Fresh(w).(submitted := true);
      FreshInv(w);
      assert [] + [Submit] == es;
      hide Run;
      RunOn(w, [], Fresh(w), Submit);
    } else {
      es, s := OnlySends(w, m - 1);
      OneMoreSend(w, s, m - 1);
      hide Sends, Run, OnlySent;
      assert Legal(w, s, Send) by {
        Unsent(w, s, m - 1);
      }
      RunOn(w, es, s, Send);
      es, s := es + [Send], Sends(w, s).value;
    }
  }

  lemma Unsent(w: Job, s: Path, m: nat)
    requires OnlySent(w, s, m) && m < |w.cut| && !s.ended
    ensures Legal(w, s, Send)
  {
  }

  lemma RunOn(w: Job, es: seq<Event>, s: Path, e: Event)
    requires Wired(w) && Run(w, es) == Now(s) && Legal(w, s, e)
    ensures Run(w, es + [e]) == var s' := Step(w, s, e); if s'.None? then Thrown else Now(s'.value)
  {
    assert (es + [e])[..|es + [e]| - 1] == es;
    hide Step, Legal;
  }

  /** The last segment starts beyond the address space: the target side refuses its packet. */
  lemma StartsBeyond(w: Job) returns (es: seq<Event>)
    requires Posted(w) && R.Enters(w.r) && |w.cut| > 0 && w.r.remote > LAST64 - At(w, |w.cut| - 1)
    ensures Run(w, es).Thrown?
  {
    hide Run, OnlySent, Executes, Offset, R.Enters, Distinct, Cuts, Legal;
    var n := |w.cut|;
    var sends, s := OnlySends(w, n);
    LastIsRefused(w, s, n - 1);
    ExecuteThrows(w, sends, s, n - 1);
    es := sends + [Execute(n - 1)];
  }

  lemma ExecuteThrows(w: Job, es: seq<Event>, s: Path, k: nat)
    requires Posted(w) && Run(w, es) == Now(s) && Legal(w, s, Execute(k)) && k < |w.cut| && Executes(w, s, k).None?
    ensures Run(w, es + [Execute(k)]).Thrown?
  {
    hide Run, Executes, Legal;
    RunOn(w, es, s, Execute(k));
  }

  lemma LastIsRefused(w: Job, s: Path, k: nat)
    requires Posted(w) && k == |w.cut| - 1 && w.r.remote > LAST64 - At(w, k) && OnlySent(w, s, |w.cut|)
    ensures Legal(w, s, Execute(k)) && Executes(w, s, k).None?
  {
    hide R.Ssn, Offset, ByNode;
  }

  /** Segment 65536 goes by the number of segment 0: its packet finds the other's DMA in progress. */
  lemma RepeatedNumber(w: Job) returns (es: seq<Event>)
    requires Posted(w) && R.Enters(w.r) && |w.cut| > 0x1_0000 && w.r.remote <= LAST64 - At(w, |w.cut| - 1)
    ensures Run(w, es).Thrown?
  {
    var k := 0x1_0000;
    var sends, s := OnlySends(w, k + 1);
    hide Run, Executes;
    Repeats(w, s, k);
    var s1 := Executes(w, s, 0).value;
    RunOn(w, sends, s, Execute(0));
    RunOn(w, sends + [Execute(0)], s1, Execute(k));
    es := sends + [Execute(0)] + [Execute(k)];
  }

  lemma Repeats(w: Job, s: Path, k: nat)
    requires Posted(w) && R.Enters(w.r) && k == 0x1_0000 < |w.cut| && OnlySent(w, s, k + 1)
    requires w.r.remote <= LAST64 - At(w, |w.cut| - 1)
    ensures Executes(w, s, 0).Some? && Legal(w, Executes(w, s, 0).value, Execute(k))
    ensures Executes(w, Executes(w, s, 0).value, k).None?
  {
    ByNodeFinds(w.r.net, w.r.from);
    LaterStarts(w, 0);
    LaterStarts(w, k);
    assert w.cut[0] > 0 && w.cut[k] > 0;
    assert Low16(R.Ssn(w.r, k)) == Low16(R.Ssn(w.r, 0));
    hide R.Ssn, Low16, ByNode, Offset;
  }

  /** The adapter survives every schedule of a WRITE if and only if it takes the request up, the request has at most
      65536 segments, and none starts beyond the address space. */
  lemma NeverThrowsIffCarried(w: Job)
    requires Posted(w)
    ensures |w.cut| > 0
    ensures (forall es :: !Run(w, es).Thrown?)
            <==> R.Enters(w.r) && |w.cut| <= 0x1_0000 && w.r.remote <= LAST64 - At(w, |w.cut| - 1)
  {
    assert |w.cut| > 0;
    hide R.Enters, Run;
    if !R.Enters(w.r) {
      FreshInv(w);
      RunOn(w, [], Fresh(w), Submit);
      assert Run(w, [] + [Submit]).Thrown?;
    } else if w.r.remote > LAST64 - At(w, |w.cut| - 1) {
      var es := StartsBeyond(w);
    } else if |w.cut| > 0x1_0000 {
      var es := RepeatedNumber(w);
    } else {
      forall es
        ensures !Run(w, es).Thrown?
      {
        RunInv(w, es);
      }
    }
  }
}
