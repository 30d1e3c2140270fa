/** A READ of at most 65536 segments is delivered exactly, whatever the order of its events. */
module ReadPathProof {
  import opened Optional
  import opened Words
  import opened Rma
  import opened RmaProof
  import opened Native
  import opened ReadPath

  const LIMIT := 0x1000_0000

  // ------------------------------------------------------------------ what every reachable state satisfies

  /** The requests the adapter carries through: it takes them up, their segments are told apart by 16 bits, and
      none of them starts beyond the address space. */
  ghost predicate Carried(r: Request) {
    Posted(r) && Enters(r) && r.length <= LIMIT && r.remote <= LAST64 - Start(Count(r.length) - 1)
  }

  /** And the device can place every byte. */
  ghost predicate Placeable(r: Request) { Carried(r) && BufferFits(r) }

  predicate TaskFits(r: Request, s: Path) {
    && s.task.source == r.from && s.task.work == WorkOf(r)
    && |s.stage| <= Count(r.length) && (s.stage != [] ==> s.submitted)
    && s.task.next == Min(Start(|s.stage|), r.length)
  }

  /** The entry of segment `k` in the table is that segment. */
  predicate Entry(r: Request, s: Path, k: nat)
    requires |r.contents| == r.length && k < Count(r.length) && k < |s.stage|
  {
    var key := Low16(Ssn(r, k));
    && key in s.task.segments
    && s.task.segments[key].offset == Start(k) && s.task.segments[key].bytes == Size(r.length, k)
    && (s.stage[k] == Served ==> s.task.segments[key].payload == Slice(r, k))
  }

  function TargetOf(r: Request, k: nat): Target
    requires Wired(r) && k < Count(r.length) && InRequest(WorkOf(r), Start(k), Size(r.length, k))
  {
    Target(r.task, To(r), r.net[r.from].eid, r.net[To(r)].eid, Part(WorkOf(r), Start(k), Size(r.length, k)), Start(k))
  }

  predicate AtTarget(r: Request, s: Path, k: nat)
    requires Wired(r) && k < Count(r.length) && k < |s.stage|
  {
    && InRequest(WorkOf(r), Start(k), Size(r.length, k))
    && (Key(r, k) in s.targets <==> s.stage[k] == Executing)
    && (Key(r, k) in s.targets ==> s.targets[Key(r, k)] == TargetOf(r, k))
  }

  predicate Tables(r: Request, s: Path)
    requires Wired(r) && |s.stage| <= Count(r.length)
  {
    && (forall k {:trigger Entry(r, s, k)} :: 0 <= k < |s.stage| ==> Entry(r, s, k))
    && (forall k {:trigger AtTarget(r, s, k)} :: 0 <= k < |s.stage| ==> AtTarget(r, s, k))
  }

  predicate Belongs(r: Request, n: nat, key: u16) { exists k :: 0 <= k < n && key == Low16(Ssn(r, k)) }

  /** Every entry is of a segment that was sent. */
  predicate NoStrays(r: Request, s: Path) {
    && (forall key :: key in s.task.segments ==> Belongs(r, |s.stage|, key))
    && (forall key :: key in s.targets ==> key == TargetKey(r.from, r.id, key.ssn) && Belongs(r, |s.stage|, key.ssn))
  }

  /** The answer to segment `k`, addressed to the endpoint, the jetty and the number the request came from. */
  predicate ReplyOf(r: Request, x: Reply, k: nat)
    requires |r.contents| == r.length
  {
    k < Count(r.length)
    && x == Reply(r.from, READ_RESPONSE, r.peer, r.jetty, r.tpn, r.id,
                  Response(Low16(Ssn(r, k)), Start(k), Size(r.length, k), Slice(r, k)))
  }

  predicate Replies(r: Request, s: Path)
    requires |r.contents| == r.length
  {
    && |s.replies| == |s.order|
    && (forall i {:trigger s.order[i]} :: 0 <= i < |s.order| ==>
          s.order[i] < |s.stage| && s.stage[s.order[i]] == Answered && ReplyOf(r, s.replies[i], s.order[i]))
    && (forall i, j :: 0 <= i < j < |s.order| ==> s.order[i] != s.order[j])
    && (forall k :: 0 <= k < |s.stage| && s.stage[k] == Answered ==> k in s.order)
  }

  predicate WriteOf(r: Request, w: Write, k: nat)
    requires |r.contents| == r.length
  {
    && k < Count(r.length)
    && w.ssn == Low16(Ssn(r, k)) && w.offset == Start(k) && w.bytes == Slice(r, k)
    && w.address == r.address + w.offset && w.outcome != Lost
  }

  ghost predicate AtDevice(r: Request, s: Path)
    requires |r.contents| == r.length
  {
    && Reading(s.device)
    && s.device.p.byteCount == r.length && s.device.p.address == r.address && !s.device.p.failed
    && |s.device.writes| == s.arrived <= |s.order|
    && (forall i {:trigger s.device.writes[i]} :: 0 <= i < s.arrived ==> WriteOf(r, s.device.writes[i], s.order[i]))
  }

  /** A buffer that does not fit makes the device refuse every response. */
  ghost predicate Refusing(r: Request, s: Path) {
    && s.device == Fresh(r).device && s.completed.None? && s.memory == r.before
    && s.errors == s.arrived <= |s.order|
  }

  ghost predicate Device(r: Request, s: Path)
    requires |r.contents| == r.length
  {
    if BufferFits(r) then AtDevice(r, s) && Faithful(r, s) else Refusing(r, s)
  }

  ghost predicate Inv(r: Request, s: Path)
    requires Wired(r)
  {
    TaskFits(r, s) && Tables(r, s) && NoStrays(r, s) && Replies(r, s) && Device(r, s)
  }

  // ------------------------------------------------------------------ sequence numbers and sizes

  lemma SegmentsFit(length: u32)
    ensures Count(length) <= 0x1_0000 <==> length <= LIMIT
  {
  }

  lemma KeysDiffer(r: Request, k: nat, k': nat)
    requires k < k' < 0x1_0000
    ensures Low16(Ssn(r, k)) != Low16(Ssn(r, k'))
  {
    assert Low16(Ssn(r, k)) == (r.first + k) % 0x1_0000;
    assert Low16(Ssn(r, k')) == (r.first + k') % 0x1_0000;
  }

  lemma NextSegment(r: Request, m: nat)
    requires m < Count(r.length)
    ensures Start(m) < r.length && Size(r.length, m) > 0 && Start(m) + Size(r.length, m) == Min(Start(m + 1), r.length)
  {
  }

  lemma {:induction false} AllPlaced(ws: seq<Write>, from: nat)
    requires forall i :: from <= i < |ws| ==> ws[i].outcome == Placed
    ensures Bytes(ws, {Placed}, from) == Bytes(ws, ANY, from) && Live(ws, from) == 0
    decreases |ws| - from
  {
    if from < |ws| {
      AllPlaced(ws, from + 1);
    }
  }

  // ------------------------------------------------------------------ one event

  /** An event that leaves the device alone keeps what is said of it. */
  lemma DeviceUntouched(r: Request, s: Path, s': Path)
    requires |r.contents| == r.length && Device(r, s)
    requires s'.device == s.device && s'.completed == s.completed && s'.errors == s.errors && s'.memory == s.memory
    requires s'.arrived == s.arrived && s.order <= s'.order
    ensures Device(r, s')
  {
    if !BufferFits(r) {
      return;
    }
    forall k: nat
      ensures Delivered(s, k) <==> Delivered(s', k)
    {
      if Delivered(s, k) {
        var i :| DeliveredBy(s, i, k);
        assert DeliveredBy(s', i, k);
      }
      if Delivered(s', k) {
        var i :| DeliveredBy(s', i, k);
        assert DeliveredBy(s, i, k);
      }
    }
  }

  lemma FreshKey(r: Request, s: Path)
    requires NoStrays(r, s) && |s.stage| < 0x1_0000
    ensures Low16(Ssn(r, |s.stage|)) !in s.task.segments && Key(r, |s.stage|) !in s.targets
  {
    var m := |s.stage|;
    forall k | 0 <= k < m
      ensures Low16(Ssn(r, k)) != Low16(Ssn(r, m))
    {
      KeysDiffer(r, k, m);
    }
  }

  lemma BelongsLater(r: Request, n: nat, key: u16)
    requires Belongs(r, n, key) || key == Low16(Ssn(r, n))
    ensures Belongs(r, n + 1, key)
  {
    if Belongs(r, n, key) {
      var k :| 0 <= k < n && key == Low16(Ssn(r, k));
    }
  }

  lemma SendTables(r: Request, s: Path, s': Path)
    requires Carried(r) && TaskFits(r, s) && Tables(r, s) && NoStrays(r, s)
    requires |s.stage| < Count(r.length) && |s'.stage| <= Count(r.length)
    requires s' == s.(task := s'.task, stage := s.stage + [Sent])
    requires var key := Low16(Ssn(r, |s.stage|));
             s'.task.segments == s.task.segments[key := Segment(Start(|s.stage|), Size(r.length, |s.stage|), [])]
    ensures Tables(r, s') && NoStrays(r, s')
  {
    var m := |s.stage|;
    FreshKey(r, s);
    forall k | 0 <= k < m
      ensures Entry(r, s', k) && AtTarget(r, s', k)
    {
      KeysDiffer(r, k, m);
      assert Entry(r, s, k) && AtTarget(r, s, k);
    }
    hide Ssn, Size, Start, Slice;
    forall key: u16 | Belongs(r, m, key) || key == Low16(Ssn(r, m))
      ensures Belongs(r, m + 1, key)
    {
      BelongsLater(r, m, key);
    }
  }

  lemma SubmitKeeps(r: Request, s: Path)
    requires Carried(r) && Inv(r, s)
    ensures Submits(r, s).Some? && Inv(r, Submits(r, s).value)
  {
    var s' := s.(submitted := true);
    hide Device, Replies, Tables, NoStrays;
    TablesUntouched(r, s, s');
    DeviceUntouched(r, s, s');
  }

  lemma SendKeeps(r: Request, s: Path)
    requires Carried(r) && Inv(r, s) && Legal(r, s, Send)
    ensures Sends(r, s).Some? && Inv(r, Sends(r, s).value)
  {
    var m := |s.stage|;
    NextSegment(r, m);
    FreshKey(r, s);
    hide Tables, NoStrays, Device;
    var s' := Sends(r, s).value;
    SendTables(r, s, s');
    DeviceUntouched(r, s, s');
  }

  /** The tables after an event that concerns segment `k` alone. */
  lemma OnlyOne(r: Request, s: Path, s': Path, k: nat)
    requires Carried(r) && TaskFits(r, s) && Tables(r, s) && k < |s.stage|
    requires |s'.stage| == |s.stage| && Entry(r, s', k) && AtTarget(r, s', k)
    requires forall j :: 0 <= j < |s.stage| && j != k ==> s'.stage[j] == s.stage[j]
    requires forall key :: key != Low16(Ssn(r, k)) ==> (key in s'.task.segments <==> key in s.task.segments)
    requires forall key :: key != Low16(Ssn(r, k)) && key in s.task.segments ==>
                             s'.task.segments[key] == s.task.segments[key]
    requires forall key :: key != Key(r, k) ==> (key in s'.targets <==> key in s.targets)
    requires forall key :: key != Key(r, k) && key in s.targets ==> s'.targets[key] == s.targets[key]
    ensures Tables(r, s')
  {
    forall j | 0 <= j < |s.stage| && j != k
      ensures Entry(r, s', j) && AtTarget(r, s', j)
    {
      if j < k {
        KeysDiffer(r, j, k);
      } else {
        KeysDiffer(r, k, j);
      }
      assert Entry(r, s, j) && AtTarget(r, s, j);
    }
  }

  lemma RepliesUntouched(r: Request, s: Path, s': Path, k: nat, g: Stage)
    requires |r.contents| == r.length && Replies(r, s) && k < |s.stage| && s.stage[k] != Answered && g != Answered
    requires s'.stage == s.stage[k := g] && s'.replies == s.replies && s'.order == s.order
    ensures Replies(r, s')
  {
  }

  /** Every segment of a request that is carried lies in its range, and its packet is taken at the target. */
  lemma SegmentTaken(r: Request, targets: map<TargetKey, Target>, k: nat)
    requires Carried(r) && k < Count(r.length) && Key(r, k) !in targets
    ensures InRequest(WorkOf(r), Start(k), Size(r.length, k))
    ensures TargetExecuted(r.net, targets, To(r), PacketOf(r, k)) == Some(targets[Key(r, k) := TargetOf(r, k)])
  {
    NextSegment(r, k);
    ByNodeFinds(r.net, r.from);
    assert r.remote + Start(k) <= LAST64;
    hide Ssn, Low16, Start, Size, ByNode;
  }

  lemma ExecuteKeeps(r: Request, s: Path, k: nat)
    requires Carried(r) && Inv(r, s) && Legal(r, s, Execute(k))
    ensures Executes(r, s, k).Some? && Inv(r, Executes(r, s, k).value)
  {
    assert Entry(r, s, k) && AtTarget(r, s, k);
    SegmentTaken(r, s.targets, k);
    var s' := s.(targets := s.targets[Key(r, k) := TargetOf(r, k)], stage := s.stage[k := Executing]);
    assert Executes(r, s, k) == Some(s') by {
      hide Tables, NoStrays, Device, Replies, Ssn, Low16, TargetExecuted, TargetOf;
    }
    hide TargetOf, TargetExecuted;
    OnlyOne(r, s, s', k);
    RepliesUntouched(r, s, s', k, Executing);
    DeviceUntouched(r, s, s');
    hide Tables, Device, Replies, Ssn, Low16;
    assert Belongs(r, |s.stage|, Low16(Ssn(r, k)));
  }

  /** The target device looks at segment `k`: only the last one can reach beyond the address space. */
  predicate Answerable(r: Request, k: nat)
    requires k < Count(r.length)
  {
    r.remote != 0 && r.remote + Start(k) + Size(r.length, k) - 1 <= LAST64
  }

  /** Its answer passes every test of the adapter. */
  lemma AnswerTaken(r: Request, s: Path, k: nat)
    requires Carried(r) && TaskFits(r, s) && k < |s.stage| && Entry(r, s, k) && AtTarget(r, s, k)
    requires s.stage[k] == Executing
    ensures var a := ReadAnswer(TargetOf(r, k), Low16(Ssn(r, k)), true, Slice(r, k));
            if Answerable(r, k) then
              a.Some? && TargetCompleted(r.net, s.targets, To(r), Some(s.task), a.value)
                         == Some((s.targets - {Key(r, k)}, Some(KeepPayload(s.task, Low16(Ssn(r, k)), Slice(r, k)))))
            else a.None?
  {
    NextSegment(r, k);
    ByEidFinds(r.net, r.from);
    assert r.net[r.from].eid != r.net[To(r)].eid by {
      if r.from < To(r) {
      } else {
        assert To(r) < r.from;
      }
    }
    var key := Low16(Ssn(r, k));
    assert |Slice(r, k)| == Size(r.length, k) <= MTU;
    hide Ssn, Slice, Start, Size, ByEid;
  }

  lemma ServeKeeps(r: Request, s: Path, k: nat)
    requires Carried(r) && Inv(r, s) && Legal(r, s, Serve(k))
    ensures Serves(r, s, k).Some? && Inv(r, Serves(r, s, k).value)
    ensures Serves(r, s, k).value.stage == if Answerable(r, k) then s.stage[k := Served] else s.stage
  {
    assert Entry(r, s, k) && AtTarget(r, s, k);
    AnswerTaken(r, s, k);
    var key := Low16(Ssn(r, k));
    var s' := s.(targets := s.targets - {Key(r, k)}, task := KeepPayload(s.task, key, Slice(r, k)),
                 stage := s.stage[k := Served]);
    assert Serves(r, s, k) == Some(if Answerable(r, k) then s' else s) by {
      hide Tables, NoStrays, Device, Replies, Ssn, Low16, Answerable, TargetCompleted, ReadAnswer, TargetOf, Slice;
    }
    hide Answerable, TargetCompleted, ReadAnswer, TargetOf, Carried, Enters, Start, Count;
    if Answerable(r, k) {
      OnlyOne(r, s, s', k);
      RepliesUntouched(r, s, s', k, Served);
      DeviceUntouched(r, s, s');
      hide Tables, Device, Replies, Ssn, Low16;
    }
  }

  lemma RepliesExtended(r: Request, s: Path, s': Path, k: nat, x: Reply)
    requires |r.contents| == r.length && Replies(r, s) && k < |s.stage| && s.stage[k] == Served && ReplyOf(r, x, k)
    requires s'.stage == s.stage[k := Answered] && s'.replies == s.replies + [x] && s'.order == s.order + [k]
    ensures Replies(r, s')
  {
    hide ReplyOf;
    assert k !in s.order;
    forall j | 0 <= j < |s'.stage| && s'.stage[j] == Answered
      ensures j in s'.order
    {
      if j == k {
        assert s'.order[|s.order|] == k;
      } else {
        assert j in s.order;
      }
    }
  }

  lemma ReturnKeeps(r: Request, s: Path, k: nat)
    requires Carried(r) && Inv(r, s) && Legal(r, s, Return(k))
    ensures Returns(r, s, k).Some? && Inv(r, Returns(r, s, k).value)
  {
    NextSegment(r, k);
    assert Entry(r, s, k) && AtTarget(r, s, k);
    var key := Low16(Ssn(r, k));
    var x := Reply(r.from, READ_RESPONSE, r.peer, r.jetty, r.tpn, r.id,
                   Response(key, Start(k), Size(r.length, k), Slice(r, k)));
    var s' := s.(task := KeepPayload(s.task, key, []), replies := s.replies + [x],
                 stage := s.stage[k := Answered], order := s.order + [k]);
    assert Returns(r, s, k) == Some(s') by {
      hide Tables, NoStrays, Device, Replies, Ssn, Low16;
    }
    OnlyOne(r, s, s', k);
    DeviceUntouched(r, s, s');
    RepliesExtended(r, s, s', k, x);
    hide Tables, Device, Replies, Ssn, Low16;
  }

  // ------------------------------------------------------------------ the requesting device

  lemma SegmentsClear(r: Request, w: Write, j: nat, x: Reply, k: nat)
    requires |r.contents| == r.length <= LIMIT && WriteOf(r, w, j) && ReplyOf(r, x, k) && j != k
    ensures Clear(w, x.response)
  {
    SegmentsFit(r.length);
    if j < k {
      KeysDiffer(r, j, k);
    } else {
      KeysDiffer(r, k, j);
    }
  }

  /** The device takes every response: none repeats a number or meets an interval it has. */
  lemma ResponseFits(r: Request, s: Path)
    requires Placeable(r) && Replies(r, s) && AtDevice(r, s) && Legal(r, s, Arrive)
    ensures ReplyOf(r, s.replies[s.arrived], s.order[s.arrived])
    ensures Acceptable(s.device.p, s.replies[s.arrived].response)
  {
    var t, x, k := s.device, s.replies[s.arrived], s.order[s.arrived];
    assert ReplyOf(r, x, k);
    NextSegment(r, k);
    forall i | 0 <= i < |t.writes|
      ensures Clear(t.writes[i], x.response)
    {
      SegmentsClear(r, t.writes[i], s.order[i], x, k);
    }
    NumberIsNew(t, x.response);
    RoomIsLeft(t, x.response);
    hide Wellformed, FitsBetween, Ssn;
  }

  /** While a response or a write is outstanding its segment is not delivered, so the request is open. */
  lemma Outstanding(r: Request, s: Path, i: nat)
    requires |r.contents| == r.length && Replies(r, s) && AtDevice(r, s) && Faithful(r, s) && i < |s.order|
    requires i >= s.arrived || s.device.writes[i].outcome == InFlight
    ensures !Delivered(s, s.order[i]) && s.completed.None?
  {
    assert ReplyOf(r, s.replies[i], s.order[i]);
  }

  lemma TablesUntouched(r: Request, s: Path, s': Path)
    requires Wired(r) && TaskFits(r, s) && Tables(r, s) && NoStrays(r, s) && Replies(r, s)
    requires s'.task == s.task && s'.targets == s.targets && s'.stage == s.stage && (s.submitted ==> s'.submitted)
    requires s'.replies == s.replies && s'.order == s.order
    ensures TaskFits(r, s') && Tables(r, s') && NoStrays(r, s') && Replies(r, s')
  {
    forall k | 0 <= k < |s.stage|
      ensures Entry(r, s', k) && AtTarget(r, s', k)
    {
      assert Entry(r, s, k) && AtTarget(r, s, k);
    }
  }

  /** What a step of the device relies on, and that it keeps the invariant. */
  lemma ArriveKeeps(r: Request, s: Path)
    requires Carried(r) && Inv(r, s) && Legal(r, s, Arrive)
    ensures Acceptable(s.device.p, s.replies[s.arrived].response) ==>
              s.device.p.acceptedBytes + s.replies[s.arrived].response.length <= s.device.p.byteCount < 0x1_0000_0000
    ensures Inv(r, Arrived(r, s))
  {
    if BufferFits(r) {
      AcceptedKeeps(r, s);
    } else {
      assert !Acceptable(s.device.p, s.replies[s.arrived].response);
      assert ReplyOf(r, s.replies[s.arrived], s.order[s.arrived]);
      TablesUntouched(r, s, Arrived(r, s));
    }
  }

  lemma AcceptedKeeps(r: Request, s: Path)
    requires Placeable(r) && Inv(r, s) && Legal(r, s, Arrive)
    ensures Acceptable(s.device.p, s.replies[s.arrived].response)
    ensures s.device.p.acceptedBytes + s.replies[s.arrived].response.length <= s.device.p.byteCount < 0x1_0000_0000
    ensures Inv(r, Arrived(r, s))
  {
    ResponseFits(r, s);
    Outstanding(r, s, s.arrived);
    var x := s.replies[s.arrived].response;
    AcceptKeeps(s.device, x);
    var s' := s.(device := Accept(s.device, x), arrived := s.arrived + 1);
    ArriveAtDevice(r, s, s', x);
    ArriveFaithful(r, s, s', x);
    TablesUntouched(r, s, s');
    hide Tables, NoStrays, AtDevice, Faithful, Replies, Ssn, Accept, Acceptable;
  }

  lemma ArriveAtDevice(r: Request, s: Path, s': Path, x: Response)
    requires Posted(r) && Replies(r, s) && AtDevice(r, s)
    requires s.arrived < |s.replies| && x == s.replies[s.arrived].response
    requires Acceptable(s.device.p, x) && s.device.p.acceptedBytes + x.length <= r.length
    requires Wellformed(Accept(s.device, x))
    requires s' == s.(device := Accept(s.device, x), arrived := s.arrived + 1)
    ensures AtDevice(r, s')
  {
    hide Wellformed;
    assert ReplyOf(r, s.replies[s.arrived], s.order[s.arrived]);
    assert WriteOf(r, s'.device.writes[s.arrived], s.order[s.arrived]);
    forall i | 0 <= i < s.arrived
      ensures WriteOf(r, s'.device.writes[i], s.order[i])
    {
      assert s'.device.writes[i] == s.device.writes[i];
    }
  }

  lemma ArriveFaithful(r: Request, s: Path, s': Path, x: Response)
    requires Posted(r) && AtDevice(r, s) && Faithful(r, s) && s.completed.None?
    requires Acceptable(s.device.p, x) && s.device.p.acceptedBytes + x.length <= r.length
    requires s' == s.(device := Accept(s.device, x), arrived := s.arrived + 1)
    ensures Faithful(r, s')
  {
    forall k: nat
      ensures Delivered(s', k) <==> Delivered(s, k)
    {
      if Delivered(s, k) {
        var i :| DeliveredBy(s, i, k);
        assert DeliveredBy(s', i, k);
      }
      if Delivered(s', k) {
        var i :| DeliveredBy(s', i, k);
        assert DeliveredBy(s, i, k);
      }
    }
  }

  /** The request is complete exactly when every segment is delivered. */
  lemma TerminalIffDelivered(r: Request, s: Path)
    requires Posted(r) && Replies(r, s) && AtDevice(r, s)
    ensures Terminal(s.device.p) <==> forall k: nat :: k < Count(r.length) ==> Delivered(s, k)
  {
    if Terminal(s.device.p) {
      TerminalDelivers(r, s);
    }
    if forall k: nat :: k < Count(r.length) ==> Delivered(s, k) {
      DeliveredEnds(r, s);
    }
  }

  lemma TerminalDelivers(r: Request, s: Path)
    requires Posted(r) && Replies(r, s) && AtDevice(r, s) && Terminal(s.device.p)
    ensures forall k: nat :: k < Count(r.length) ==> Delivered(s, k)
  {
    SuccessIsExact(s.device);
    hide Wellformed;
    forall k: nat | k < Count(r.length)
      ensures Delivered(s, k)
    {
      NextSegment(r, k);
      assert WrittenOnce(s.device, Start(k));
      var i :| ExactlyAt(s.device, i, Start(k));
      assert WriteOf(r, s.device.writes[i], s.order[i]);
      assert DeliveredBy(s, i, k);
    }
  }

  lemma ByteReserved(r: Request, t: Transfer, i: nat, b: nat)
    requires |r.contents| == r.length && Linked(t) && b < r.length
    requires i < |t.writes| && WriteOf(r, t.writes[i], b / 4096)
    ensures InSome(t.p.ranges, 0, b)
  {
    var w := t.writes[i];
    assert WriteWellformed(t.p, w);
    var x := Range(w.offset, w.offset + |w.bytes|);
    var j :| 0 <= j < |t.p.ranges| && t.p.ranges[j] == x;
    assert t.p.ranges[j].first <= b < t.p.ranges[j].second;
  }

  lemma DeliveredArePlaced(r: Request, s: Path)
    requires |r.contents| == r.length && Replies(r, s) && AtDevice(r, s)
    requires forall k: nat :: k < Count(r.length) ==> Delivered(s, k)
    ensures forall i :: 0 <= i < |s.device.writes| ==> s.device.writes[i].outcome == Placed
  {
    hide Reading, Ssn, Slice;
    forall i | 0 <= i < |s.device.writes|
      ensures s.device.writes[i].outcome == Placed
    {
      assert WriteOf(r, s.device.writes[i], s.order[i]);
      assert Delivered(s, s.order[i]);
    }
  }

  lemma DeliveredEnds(r: Request, s: Path)
    requires Posted(r) && Replies(r, s) && AtDevice(r, s)
    requires forall k: nat :: k < Count(r.length) ==> Delivered(s, k)
    ensures Terminal(s.device.p)
  {
    var t := s.device;
    DeliveredArePlaced(r, s);
    AllPlaced(t.writes, 0);
    forall b: nat | b < r.length
      ensures InSome(t.p.ranges, 0, b)
    {
      hide WriteOf;
      var k: nat := b / 4096;
      assert Delivered(s, k);
      var i: nat :| DeliveredBy(s, i, k);
      ByteReserved(r, t, i, b);
    }
    hide AtDevice;
    CoveredAddsUp(t.p.ranges, 0, 0, r.length);
  }

  lemma PlaceKeeps(r: Request, s: Path, i: nat)
    requires Carried(r) && Inv(r, s) && Legal(r, s, Place(i))
    ensures s.device.p.responseDma > 0
    ensures s.device.p.completedBytes + |s.device.writes[i].bytes| <= s.device.p.byteCount < 0x1_0000_0000
    ensures Inv(r, Landed(s, i))
  {
    Outstanding(r, s, i);
    LandKeeps(s.device, i, s.device.writes[i].ssn, true);
    var s' := Landed(s, i);
    PlaceAtDevice(r, s, s', i);
    TablesUntouched(r, s, s');
    PlaceFaithful(r, s, s', i);
    hide Tables, NoStrays, AtDevice, Faithful, Replies, Ssn, Landed;
  }

  lemma PlaceAtDevice(r: Request, s: Path, s': Path, i: nat)
    requires Posted(r) && AtDevice(r, s) && i < |s.device.writes| && s.device.p.responseDma > 0
    requires s.device.p.completedBytes + |s.device.writes[i].bytes| <= r.length
    requires Wellformed(Land(s.device, i, true)) && s' == Landed(s, i)
    ensures AtDevice(r, s')
  {
    hide Wellformed, Ssn;
    forall j | 0 <= j < s.arrived
      ensures WriteOf(r, s'.device.writes[j], s.order[j])
    {
      assert WriteOf(r, s.device.writes[j], s.order[j]);
    }
  }

  lemma PlaceFaithful(r: Request, s: Path, s': Path, i: nat)
    requires Posted(r) && Replies(r, s) && AtDevice(r, s) && Faithful(r, s) && s.completed.None?
    requires i < |s.device.writes| && s.device.p.responseDma > 0
    requires s.device.p.completedBytes + |s.device.writes[i].bytes| <= r.length
    requires s' == Landed(s, i) && AtDevice(r, s') && Replies(r, s')
    ensures Faithful(r, s')
  {
    TerminalIffDelivered(r, s');
    hide Wellformed, Terminal, Ssn;
    var w := s.device.writes[i];
    assert WriteOf(r, w, s.order[i]);
    forall k: nat
      ensures Delivered(s', k) <==> Delivered(s, k) || k == s.order[i]
    {
      DeliveredStep(s, s', i, k);
    }
    PlaceMemory(r, s, s', i);
    hide WriteOf, Expected;
    assert s'.completed.Some? ==> s'.completed.value == SUCCESS;
    if s'.completed.None? {
      assert !Terminal(s'.device.p);
    }
  }

  lemma PlaceMemory(r: Request, s: Path, s': Path, i: nat)
    requires |r.contents| == r.length && i < |s.device.writes| && i < |s.order|
    requires WriteOf(r, s.device.writes[i], s.order[i])
    requires s'.memory == Patched(s.memory, s.device.writes[i].address, s.device.writes[i].bytes)
    requires forall a: int :: s.memory(a) == Expected(r, s, a)
    requires forall k: nat :: Delivered(s', k) <==> Delivered(s, k) || k == s.order[i]
    ensures forall a: int :: s'.memory(a) == Expected(r, s', a)
  {
    hide WriteOf, Delivered;
    forall a: int
      ensures s'.memory(a) == Expected(r, s', a)
    {
      assert s.memory(a) == Expected(r, s, a);
      WriteCovers(r, s.device.writes[i], s.order[i], a);
    }
  }

  lemma DeliveredStep(s: Path, s': Path, i: nat, k: nat)
    requires i < |s.device.writes| <= |s.order| && s.device.p.responseDma > 0
    requires 0 <= s.device.p.completedBytes + |s.device.writes[i].bytes| < 0x1_0000_0000 && s' == Landed(s, i)
    ensures Delivered(s', k) <==> Delivered(s, k) || k == s.order[i]
  {
    if Delivered(s, k) {
      var j :| DeliveredBy(s, j, k);
      assert DeliveredBy(s', j, k);
    }
    if k == s.order[i] {
      assert DeliveredBy(s', i, k);
    }
    if Delivered(s', k) {
      var j :| DeliveredBy(s', j, k);
      assert j == i || DeliveredBy(s, j, k);
    }
  }

  /** The write of segment `k` covers exactly the addresses of that segment, with the remote bytes. */
  lemma WriteCovers(r: Request, w: Write, k: nat, a: int)
    requires |r.contents| == r.length && WriteOf(r, w, k)
    ensures 0 <= a - w.address < |w.bytes| <==> 0 <= a - r.address < r.length && (a - r.address) / 4096 == k
    ensures 0 <= a - w.address < |w.bytes| ==> w.bytes[a - w.address] == r.contents[a - r.address]
  {
    NextSegment(r, k);
  }

  // ------------------------------------------------------------------ whole schedules

  lemma StepKeeps(r: Request, s: Path, e: Event)
    requires Carried(r) && Inv(r, s) && Legal(r, s, e)
    ensures Step(r, s, e).Some? && Inv(r, Step(r, s, e).value)
  {
    hide Inv, Carried, Submits, Sends, Executes, Serves, Returns, Arrived, Landed, Reading;
    match e
    case Submit => SubmitKeeps(r, s);
    case Send => SendKeeps(r, s);
    case Execute(k) => ExecuteKeeps(r, s, k);
    case Serve(k) => ServeKeeps(r, s, k);
    case Return(k) => ReturnKeeps(r, s, k);
    case Arrive => ArriveKeeps(r, s);
    case Place(i) => PlaceKeeps(r, s, i);
  }

  lemma FreshInv(r: Request)
    requires Posted(r)
    ensures Inv(r, Fresh(r)) && Run(r, []) == At(Fresh(r))
  {
    var s := Fresh(r);
    assert Reading(s.device) by {
      assert Bytes([], {Placed}, 0) == 0;
    }
    assert !Delivered(s, 0);
  }

  lemma {:induction false} RunInv(r: Request, es: seq<Event>)
    requires Carried(r)
    ensures !Run(r, es).Thrown?
    ensures Run(r, es).At? ==> Inv(r, Run(r, es).s)
  {
    hide Inv, Step, Legal, Standing, Fresh;
    if es == [] {
      FreshInv(r);
    } else {
      RunInv(r, es[..|es| - 1]);
      var o := Run(r, es[..|es| - 1]);
      if o.At? && Legal(r, o.s, es[|es| - 1]) {
        StepKeeps(r, o.s, es[|es| - 1]);
      }
    }
  }

  /** What completion means for guest memory. */
  lemma FaithfulMemory(r: Request, s: Path)
    requires Posted(r) && Faithful(r, s)
    ensures s.completed.Some? ==> forall j :: 0 <= j < r.length ==> s.memory(r.address + j) == r.contents[j]
    ensures forall a: int :: !(0 <= a - r.address < r.length) ==> s.memory(a) == r.before(a)
  {
    if s.completed.Some? {
      forall j | 0 <= j < r.length
        ensures s.memory(r.address + j) == r.contents[j]
      {
        var k: nat := j / 4096;
        assert k < Count(r.length) && Delivered(s, k);
        assert s.memory(r.address + j) == Expected(r, s, r.address + j);
      }
    }
    forall a: int | !(0 <= a - r.address < r.length)
      ensures s.memory(a) == r.before(a)
    {
      assert s.memory(a) == Expected(r, s, a);
    }
  }

  /** Under every schedule the device takes every response, completes the request with success when and
      only when the last segment is in place, and memory then differs from what it was exactly by the
      remote bytes in the buffer. */
  lemma ReadIsExact(r: Request, es: seq<Event>, s: Path)
    requires Placeable(r) && Run(r, es) == At(s)
    ensures s.errors == 0
    ensures s.completed.Some? <==> forall k: nat :: k < Count(r.length) ==> Delivered(s, k)
    ensures s.completed.Some? ==>
              s.completed.value == SUCCESS && forall j :: 0 <= j < r.length ==> s.memory(r.address + j) == r.contents[j]
    ensures forall a: int :: !(0 <= a - r.address < r.length) ==> s.memory(a) == r.before(a)
  {
    RunInv(r, es);
    hide Run, Tables, NoStrays, Replies, AtDevice, TaskFits;
    FaithfulMemory(r, s);
  }

  /** Every response goes back to the endpoint, the jetty and the request it answers, from the queue that was asked,
      with the bytes of its segment, and no segment is answered twice. */
  lemma RepliesAreAddressed(r: Request, es: seq<Event>, s: Path, i: nat)
    requires Carried(r) && Run(r, es) == At(s) && i < |s.replies|
    ensures |s.replies| == |s.order| && forall j :: 0 <= j < i ==> s.order[j] != s.order[i]
    ensures var x := s.replies[i];
            && x.endpoint == r.from && x.operation == 0x85 && x.request == r.id
            && x.peer == r.jetty && x.jetty == r.peer && x.tpn == r.tpn
            && x.response.offset == 4096 * s.order[i] < r.length
            && x.response.length == (if r.length - x.response.offset < 4096 then r.length - x.response.offset else 4096)
            && x.response.bytes == r.contents[x.response.offset..x.response.offset + x.response.length]
  {
    RunInv(r, es);
    hide Run, Tables, NoStrays, Device, Ssn;
    assert ReplyOf(r, s.replies[i], s.order[i]);
    NextSegment(r, s.order[i]);
  }

  // ------------------------------------------------------------------ every schedule ends

  lemma SomethingIsLegal(r: Request, s: Path)
    requires |r.contents| == r.length && Replies(r, s) && AtDevice(r, s) && Faithful(r, s) && s.completed.None?
    ensures exists e :: Legal(r, s, e)
  {
    hide Reading, Slice, Ssn;
    var k: nat :| k < Count(r.length) && !Delivered(s, k);
    if !s.submitted {
      assert Legal(r, s, Submit);
    } else if k >= |s.stage| {
      assert Legal(r, s, Send);
    } else if s.stage[k] == Sent {
      assert Legal(r, s, Execute(k));
    } else if s.stage[k] == Executing {
      assert Legal(r, s, Serve(k));
    } else if s.stage[k] == Served {
      assert Legal(r, s, Return(k));
    } else if s.arrived < |s.replies| {
      assert Legal(r, s, Arrive);
    } else {
      var i :| 0 <= i < |s.order| && s.order[i] == k;
      assert WriteOf(r, s.device.writes[i], k);
      assert !DeliveredBy(s, i, k);
      assert Legal(r, s, Place(i));
    }
  }

  function Rank(g: Stage): nat {
    match g
    case Sent => 1
    case Executing => 2
    case Served => 3
    case Answered => 4
  }

  function Ranks(stage: seq<Stage>): (n: nat)
    ensures n <= 4 * |stage|
  {
    if stage == [] then 0 else Ranks(stage[..|stage| - 1]) + Rank(stage[|stage| - 1])
  }

  function Answers(stage: seq<Stage>): (n: nat)
    ensures n <= |stage|
  {
    if stage == [] then 0 else Answers(stage[..|stage| - 1]) + if stage[|stage| - 1] == Answered then 1 else 0
  }

  function Landings(writes: seq<Write>): (n: nat)
    ensures n <= |writes|
  {
    if writes == [] then 0
    else Landings(writes[..|writes| - 1]) + if writes[|writes| - 1].outcome == Placed then 1 else 0
  }

  /** How far a READ is: every event is one step. */
  function Progress(s: Path): nat {
    (if s.submitted then 1 else 0) + Ranks(s.stage) + s.arrived + Landings(s.device.writes)
  }

  lemma {:induction false} StageMoves(stage: seq<Stage>, k: nat, g: Stage)
    requires k < |stage|
    ensures Ranks(stage[k := g]) == Ranks(stage) - Rank(stage[k]) + Rank(g)
    ensures Answers(stage[k := g]) ==
            Answers(stage) - (if stage[k] == Answered then 1 else 0) + if g == Answered then 1 else 0
  {
    var n := |stage| - 1;
    if k == n {
      assert stage[k := g][..n] == stage[..n];
    } else {
      StageMoves(stage[..n], k, g);
      assert stage[k := g][..n] == stage[..n][k := g];
    }
  }

  lemma StageGrows(stage: seq<Stage>)
    ensures Ranks(stage + [Sent]) == Ranks(stage) + 1 && Answers(stage + [Sent]) == Answers(stage)
  {
    assert (stage + [Sent])[..|stage|] == stage;
  }

  lemma {:induction false} WriteLands(writes: seq<Write>, i: nat, w: Write)
    requires i < |writes| && writes[i].outcome == InFlight && w.outcome == Placed
    ensures Landings(writes[i := w]) == Landings(writes) + 1
  {
    var n := |writes| - 1;
    if i == n {
      assert writes[i := w][..n] == writes[..n];
    } else {
      WriteLands(writes[..n], i, w);
      assert writes[i := w][..n] == writes[..n][i := w];
    }
  }

  lemma {:induction false} AllAnswered(stage: seq<Stage>)
    ensures Ranks(stage) == 4 * |stage| <==> forall k :: 0 <= k < |stage| ==> stage[k] == Answered
    ensures Answers(stage) == |stage| <==> forall k :: 0 <= k < |stage| ==> stage[k] == Answered
  {
    if stage != [] {
      AllAnswered(stage[..|stage| - 1]);
      assert stage == stage[..|stage| - 1] + [stage[|stage| - 1]];
    }
  }

  lemma {:induction false} AllLanded(writes: seq<Write>)
    ensures Landings(writes) == |writes| <==> forall i :: 0 <= i < |writes| ==> writes[i].outcome == Placed
  {
    if writes != [] {
      AllLanded(writes[..|writes| - 1]);
      assert writes == writes[..|writes| - 1] + [writes[|writes| - 1]];
    }
  }

  /** One step further, and the answers still tally. */
  predicate Counts(s: Path, t: Path) {
    Progress(t) == Progress(s) + 1 && |t.order| - Answers(t.stage) == |s.order| - Answers(s.stage)
  }

  lemma EveryEventCounts(r: Request, s: Path, e: Event)
    requires Placeable(r) && RemoteFits(r) && Inv(r, s) && Legal(r, s, e) && Step(r, s, e).Some?
    ensures Counts(s, Step(r, s, e).value)
  {
    assert |s.stage| <= Count(r.length);
    hide Inv, Serves, Arrived, Landed, Counts, RemoteFits, BufferFits;
    match e
    case Serve(k) => ServeCounts(r, s, k);
    case Arrive => ArriveCounts(r, s);
    case Place(i) =>
      PlaceKeeps(r, s, i);
      PlaceCounts(r, s, i);
    case _ => AdapterCounts(r, s, e);
  }

  lemma AdapterCounts(r: Request, s: Path, e: Event)
    requires Wired(r) && Standing(r, s) && Legal(r, s, e) && Step(r, s, e).Some?
    requires e.Submit? || e.Send? || e.Execute? || e.Return?
    ensures Counts(s, Step(r, s, e).value)
  {
    hide SegmentSent, TargetExecuted, SegmentCompleted, Wellformed, ReplyTo, PacketOf, Enters, Ranks, Answers;
    match e
    case Send =>
      StageGrows(s.stage);
    case Execute(k) =>
      StageMoves(s.stage, k, Executing);
    case Return(k) =>
      StageMoves(s.stage, k, Answered);
    case _ =>
  }

  lemma ServeCounts(r: Request, s: Path, k: nat)
    requires Carried(r) && RemoteFits(r) && Inv(r, s) && |s.stage| <= Count(r.length)
    requires Legal(r, s, Serve(k)) && Serves(r, s, k).Some?
    ensures Counts(s, Serves(r, s, k).value)
  {
    hide Inv, Serves, Carried, RemoteFits;
    StageMoves(s.stage, k, Served);
    ServeKeeps(r, s, k);
    OnlyServes(r, s, k);
  }

  lemma OnlyServes(r: Request, s: Path, k: nat)
    requires Carried(r) && RemoteFits(r) && |s.stage| <= Count(r.length)
    requires k < |s.stage| && Serves(r, s, k).Some?
    ensures Answerable(r, k)
    ensures var t := Serves(r, s, k).value;
            && t.order == s.order && t.device == s.device && t.arrived == s.arrived && t.submitted == s.submitted
  {
    NextSegment(r, k);
    hide TargetCompleted, ReadAnswer;
  }

  lemma ArriveCounts(r: Request, s: Path)
    requires Placeable(r) && Inv(r, s) && Legal(r, s, Arrive)
    requires Acceptable(s.device.p, s.replies[s.arrived].response) ==>
               0 <= s.device.p.acceptedBytes + s.replies[s.arrived].response.length < 0x1_0000_0000
    ensures Counts(s, Arrived(r, s))
  {
    ResponseFits(r, s);
    Outstanding(r, s, s.arrived);
    hide Inv, Acceptable, Ranks, Answers;
    var t := Arrived(r, s);
    assert t.device.writes[..|s.device.writes|] == s.device.writes;
  }

  lemma PlaceCounts(r: Request, s: Path, i: nat)
    requires Placeable(r) && Inv(r, s) && Legal(r, s, Place(i)) && s.device.p.responseDma > 0
    requires 0 <= s.device.p.completedBytes + |s.device.writes[i].bytes| < 0x1_0000_0000
    ensures Counts(s, Landed(s, i))
  {
    WriteLands(s.device.writes, i, s.device.writes[i].(outcome := Placed));
    hide Inv, Ranks, Answers, Landings;
  }

  lemma {:induction false} RunCounts(r: Request, es: seq<Event>)
    requires Placeable(r) && RemoteFits(r) && Run(r, es).At?
    ensures Progress(Run(r, es).s) == |es| && |Run(r, es).s.order| == Answers(Run(r, es).s.stage)
  {
    hide Step, Legal, Standing, Inv;
    if es == [] {
    } else {
      var before := es[..|es| - 1];
      RunCounts(r, before);
      RunInv(r, before);
      EveryEventCounts(r, Run(r, before).s, es[|es| - 1]);
    }
  }

  lemma DeliveredIsAnswered(r: Request, s: Path, k: nat)
    requires |r.contents| == r.length && Replies(r, s) && Delivered(s, k)
    ensures k < |s.stage| && s.stage[k] == Answered
  {
    var i :| DeliveredBy(s, i, k);
    hide ReplyOf;
  }

  /** When every segment is delivered, all have been answered and every answer has arrived. */
  lemma DeliveredAreAnswered(r: Request, s: Path)
    requires |r.contents| == r.length && Replies(r, s) && AtDevice(r, s) && |s.stage| <= Count(r.length)
    requires forall k: nat :: k < Count(r.length) ==> Delivered(s, k)
    ensures |s.stage| == Count(r.length) && s.arrived == |s.order|
    ensures forall k :: 0 <= k < |s.stage| ==> s.stage[k] == Answered
  {
    hide Reading, WriteOf, ReplyOf, Count;
    forall k: nat | k < Count(r.length)
      ensures k < |s.stage| && s.stage[k] == Answered
    {
      DeliveredIsAnswered(r, s, k);
    }
    if Count(r.length) > 0 {
      DeliveredIsAnswered(r, s, Count(r.length) - 1);
    }
    if s.arrived < |s.order| {
      NotArrived(r, s);
    }
  }

  lemma NotArrived(r: Request, s: Path)
    requires |r.contents| == r.length && Replies(r, s) && |s.device.writes| == s.arrived < |s.order|
    ensures s.order[s.arrived] < |s.stage| && !Delivered(s, s.order[s.arrived])
  {
    hide ReplyOf;
  }

  lemma CompleteIsFull(r: Request, s: Path)
    requires |r.contents| == r.length && Replies(r, s) && AtDevice(r, s) && |s.stage| <= Count(r.length)
    requires |s.order| == Answers(s.stage) && forall k: nat :: k < Count(r.length) ==> Delivered(s, k)
    requires r.length > 0 && (s.stage != [] ==> s.submitted)
    ensures Progress(s) == 6 * Count(r.length) + 1
  {
    DeliveredArePlaced(r, s);
    DeliveredAreAnswered(r, s);
    AllLanded(s.device.writes);
    AllAnswered(s.stage);
    hide Replies, Reading, WriteOf, Delivered;
  }

  lemma FullIsComplete(r: Request, s: Path)
    requires |r.contents| == r.length && Replies(r, s) && AtDevice(r, s) && |s.stage| <= Count(r.length)
    requires |s.order| == Answers(s.stage) && Progress(s) == 6 * Count(r.length) + 1
    ensures forall k: nat :: k < Count(r.length) ==> Delivered(s, k)
  {
    AllLanded(s.device.writes);
    AllAnswered(s.stage);
    hide Reading, Ssn, Slice, WriteOf, ReplyOf;
    forall k: nat | k < Count(r.length)
      ensures Delivered(s, k)
    {
      assert k in s.order;
      var i: nat :| i < |s.order| && s.order[i] == k;
      assert DeliveredBy(s, i, k);
    }
  }

  /** A READ takes exactly one event to be submitted and six for each segment, in whatever order: no schedule is
      longer, one that is shorter can go on, and the READ is complete when and only when it has had them all. */
  lemma EveryScheduleCompletes(r: Request, es: seq<Event>, s: Path)
    requires Placeable(r) && RemoteFits(r) && Run(r, es) == At(s)
    ensures |es| <= 6 * Count(r.length) + 1
    ensures s.completed.Some? <==> |es| == 6 * Count(r.length) + 1
    ensures s.completed.None? ==> exists e :: Legal(r, s, e) && Run(r, es + [e]).At?
  {
    RunInv(r, es);
    RunCounts(r, es);
    hide Run, Step, Tables, NoStrays, Faithful, Legal;
    if s.completed.Some? {
      CompleteIsFull(r, s) by {
        IsFaithful(r, s);
      }
    } else {
      hide Replies, AtDevice;
      SomethingIsLegal(r, s);
      var e :| Legal(r, s, e);
      GoesOn(r, es, s, e);
    }
    hide Replies, AtDevice;
    if |es| == 6 * Count(r.length) + 1 {
      FullIsComplete(r, s);
      IsFaithful(r, s);
    }
  }

  lemma IsFaithful(r: Request, s: Path)
    requires Faithful(r, s)
    ensures s.completed.Some? <==> forall k: nat :: k < Count(r.length) ==> Delivered(s, k)
  {
  }

  lemma GoesOn(r: Request, es: seq<Event>, s: Path, e: Event)
    requires Carried(r) && Run(r, es) == At(s) && Legal(r, s, e)
    ensures Run(r, es + [e]).At?
  {
    RunInv(r, es);
    RunInv(r, es + [e]);
    assert (es + [e])[..|es + [e]| - 1] == es;
    hide Step, Legal, Inv;
  }

  // ------------------------------------------------------------------ extents that do not fit

  /** A remote extent that ends beyond the address space: the last segment is never answered, and the READ
      never completes. */
  lemma {:induction false} WrappingReadIsNeverAnswered(r: Request, es: seq<Event>)
    requires Carried(r) && !RemoteFits(r) && Run(r, es).At?
    ensures var s, last := Run(r, es).s, Count(r.length) - 1;
            s.completed.None? && (last < |s.stage| ==> s.stage[last] == Sent || s.stage[last] == Executing)
  {
    RunInv(r, es);
    hide Inv, Step, Legal, Standing, Delivered;
    var last := Count(r.length) - 1;
    if es != [] {
      var before := es[..|es| - 1];
      RunInv(r, before);
      WrappingReadIsNeverAnswered(r, before);
      LastWaits(r, Run(r, before).s, es[|es| - 1]);
    }
    NotComplete(r, Run(r, es).s);
  }

  lemma LastWaits(r: Request, s: Path, e: Event)
    requires Carried(r) && !RemoteFits(r) && Inv(r, s) && Legal(r, s, e) && Step(r, s, e).Some?
    requires var last := Count(r.length) - 1; last < |s.stage| ==> s.stage[last] == Sent || s.stage[last] == Executing
    ensures var t, last := Step(r, s, e).value, Count(r.length) - 1;
            last < |t.stage| ==> t.stage[last] == Sent || t.stage[last] == Executing
  {
    hide Ssn, Slice, SegmentSent, TargetExecuted, TargetCompleted, SegmentCompleted, Acceptable;
    match e
    case Serve(k) =>
      ServeKeeps(r, s, k);
      NextSegment(r, k);
    case Arrive =>
    case Place(i) =>
    case _ =>
  }

  lemma NotComplete(r: Request, s: Path)
    requires Carried(r) && Inv(r, s)
    requires var last := Count(r.length) - 1; last < |s.stage| ==> s.stage[last] != Answered
    ensures s.completed.None?
  {
    hide Tables, NoStrays, Wellformed;
    if BufferFits(r) {
      assert !Delivered(s, Count(r.length) - 1);
    }
  }

  /** A buffer that ends beyond the address space: every response is refused, nothing is written, and the READ
      never completes. */
  lemma BufferBeyondTheEndIsRefused(r: Request, es: seq<Event>, s: Path)
    requires Carried(r) && !BufferFits(r) && Run(r, es) == At(s)
    ensures s.completed.None? && s.memory == r.before && s.errors == s.arrived && s.device.writes == []
  {
    RunInv(r, es);
  }

  // ------------------------------------------------------------------ requests that end the adapter

  /** After `m` segments were sent and nothing else happened, number 0 still names the first of them. */
  predicate OnlySent(r: Request, s: Path, m: nat) {
    && s.submitted && TaskFits(r, s) && s.targets == map[] && |s.stage| == m
    && (forall k :: 0 <= k < m ==> s.stage[k] == Sent)
    && (m == 0 ==> s.task.segments == map[])
    && (m > 0 ==> Low16(Ssn(r, 0)) in s.task.segments && s.task.segments[Low16(Ssn(r, 0))].offset == 0)
  }

  lemma OneMoreSend(r: Request, s: Path, m: nat)
    requires Posted(r) && OnlySent(r, s, m) && m < Count(r.length)
    ensures Sends(r, s).Some? && OnlySent(r, Sends(r, s).value, m + 1)
  {
    NextSegment(r, m);
    var s' := Sends(r, s).value;
    assert forall k :: 0 <= k < m ==> s'.stage[k] == s.stage[k];
  }

  lemma {:induction false} OnlySends(r: Request, m: nat) returns (es: seq<Event>, s: Path)
    requires Posted(r) && Enters(r) && m <= Count(r.length)
    ensures Run(r, es) == At(s) && OnlySent(r, s, m)
  {
    if m == 0 {
      es, s := [Submit], Fresh(r).(submitted := true);
      FreshInv(r);
      assert [] + [Submit] == es;
      hide Run;
      RunOn(r, [], Fresh(r), Submit, s);
    } else {
      es, s := OnlySends(r, m - 1);
      OneMoreSend(r, s, m - 1);
      hide Sends, Run;
      var s' := Sends(r, s).value;
      RunOn(r, es, s, Send, s');
      es, s := es + [Send], s';
    }
  }

  /** The adapter survives every schedule of a READ if and only if it takes the request up, its segments have
      different numbers, so at most 65536 of them, and none starts beyond the address space. */
  lemma NeverThrowsIffCarried(r: Request)
    requires Posted(r)
    ensures (forall es :: !Run(r, es).Thrown?)
            <==> Enters(r) && r.length <= LIMIT && r.remote <= LAST64 - Start(Count(r.length) - 1)
  {
    if !Enters(r) {
      NotTaken(r);
    } else if r.remote > LAST64 - Start(Count(r.length) - 1) {
      var es := StartsBeyond(r);
    } else if r.length > LIMIT {
      var es := RepeatedNumber(r);
    } else {
      forall es
        ensures !Run(r, es).Thrown?
      {
        RunInv(r, es);
      }
    }
  }

  /** The request itself is refused. */
  lemma NotTaken(r: Request)
    requires Posted(r) && !Enters(r)
    ensures Run(r, [Submit]).Thrown?
  {
    FreshInv(r);
    assert [] + [Submit] == [Submit];
    hide Run;
    RunThrows(r, [], Fresh(r), Submit);
  }

  /** The last segment starts beyond the address space: the target side refuses its packet. */
  lemma StartsBeyond(r: Request) returns (es: seq<Event>)
    requires Posted(r) && Enters(r) && r.remote > LAST64 - Start(Count(r.length) - 1)
    ensures Run(r, es).Thrown?
  {
    var n := Count(r.length);
    var sends, s := OnlySends(r, n);
    hide Run, OnlySent;
    assert Legal(r, s, Execute(n - 1)) && Executes(r, s, n - 1).None? by {
      Refused(r, s, n);
    }
    RunThrows(r, sends, s, Execute(n - 1));
    es := sends + [Execute(n - 1)];
  }

  lemma Refused(r: Request, s: Path, n: nat)
    requires Posted(r) && n == Count(r.length) && r.remote > LAST64 - Start(n - 1) && OnlySent(r, s, n)
    ensures Legal(r, s, Execute(n - 1)) && Executes(r, s, n - 1).None?
  {
    NextSegment(r, n - 1);
    hide Ssn, Start, Size;
  }

  /** Segment 65536 goes by the number of segment 0: its packet finds the other's DMA in progress. */
  lemma RepeatedNumber(r: Request) returns (es: seq<Event>)
    requires Posted(r) && Enters(r) && r.length > LIMIT && r.remote <= LAST64 - Start(Count(r.length) - 1)
    ensures Run(r, es).Thrown?
  {
    var k := 0x1_0000;
    SegmentsFit(r.length);
    var sends, s := OnlySends(r, k + 1);
    hide Run;
    var s1 := FirstTaken(r, s, k);
    hide OnlySent, Executes;
    RunOn(r, sends, s, Execute(0), s1);
    RunThrows(r, sends + [Execute(0)], s1, Execute(k));
    es := sends + [Execute(0)] + [Execute(k)];
  }

  lemma FirstTaken(r: Request, s: Path, k: nat) returns (s1: Path)
    requires Posted(r) && Enters(r) && k == 0x1_0000 < Count(r.length) && OnlySent(r, s, k + 1)
    requires r.remote <= LAST64 - Start(Count(r.length) - 1)
    ensures Legal(r, s, Execute(0)) && Executes(r, s, 0) == Some(s1)
    ensures Legal(r, s1, Execute(k)) && Executes(r, s1, k).None?
  {
    NextSegment(r, 0);
    NextSegment(r, k);
    ByNodeFinds(r.net, r.from);
    assert Low16(Ssn(r, k)) == Low16(Ssn(r, 0));
    assert Start(k) <= Start(Count(r.length) - 1);
    hide Ssn, Low16, ByNode, Start, Size;
    assert Start(0) == 0;
    s1 := Executes(r, s, 0).value;
  }

  lemma RunOn(r: Request, es: seq<Event>, s: Path, e: Event, s': Path)
    requires Wired(r) && Run(r, es) == At(s) && Legal(r, s, e)
    requires Step(r, s, e) == Some(s')
    ensures Run(r, es + [e]) == At(s')
  {
    assert (es + [e])[..|es + [e]| - 1] == es;
    hide Step, Legal;
  }

  lemma RunThrows(r: Request, es: seq<Event>, s: Path, e: Event)
    requires Wired(r) && Run(r, es) == At(s) && Legal(r, s, e)
    requires Step(r, s, e).None?
    ensures Run(r, es + [e]).Thrown?
  {
    assert (es + [e])[..|es + [e]| - 1] == es;
    hide Step, Legal;
  }
}
