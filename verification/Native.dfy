/** How the fabric adapter follows the segments of a work request through the native transport.

    The native transport cuts a request into segments, calls the target for each and reports each
    completion.  The adapter only knows a segment by the low sixteen bits of its sequence number. */
module Native {
  import opened Optional
  import opened Words
  import opened Rma

  const MTU: u32 := 4096
  const LAST64 := 0xFFFF_FFFF_FFFF_FFFF

  const WRITE_ACK: u8 := 0x83
  const READ_RESPONSE: u8 := 0x85
  const RMA_ERROR: u8 := 0x86

  /** The node of the native network that stands for a device, and the entity id of the device. */
  datatype Endpoint = Endpoint(node: u32, eid: u32)

  /** Nodes and entity ids tell the endpoints apart. */
  predicate Distinct(net: seq<Endpoint>) {
    forall i, j :: 0 <= i < j < |net| ==> net[i].node != net[j].node && net[i].eid != net[j].eid
  }

  /** `endpoint_by_node_` and `route_`. */
  function ByNode(net: seq<Endpoint>, node: u32): (e: Option<nat>)
    ensures e.Some? ==> e.value < |net| && net[e.value].node == node
    ensures e.None? ==> forall i :: 0 <= i < |net| ==> net[i].node != node
  {
    if net == [] then None
    else if net[|net| - 1].node == node then Some(|net| - 1)
    else ByNode(net[..|net| - 1], node)
  }

  function ByEid(net: seq<Endpoint>, eid: u32): (e: Option<nat>)
    ensures e.Some? ==> e.value < |net| && net[e.value].eid == eid
    ensures e.None? ==> forall i :: 0 <= i < |net| ==> net[i].eid != eid
  {
    if net == [] then None
    else if net[|net| - 1].eid == eid then Some(|net| - 1)
    else ByEid(net[..|net| - 1], eid)
  }

  /** What a work request asks for, as its header says: `jetty` sent it, `peer` is the queue it is for. */
  datatype Work = Work(operation: u8, jetty: u32, peer: u32, tpn: u32, token: u32, request: u64,
                       remote: u64, length: u32)

  datatype Segment = Segment(offset: u32, bytes: u32, payload: seq<u8>)

  datatype Task = Task(source: nat, destination: nat, work: Work, next: u32, segments: map<u16, Segment>)

  /** The association data a packet carries from the adapter's source side to its target side. */
  datatype Context = Context(task: u32, source: u32, destination: u32, work: Work)

  /** A segment as the native network hands it to the target side. */
  datatype Packet = Packet(from: u32, to: u32, task: u32, operation: u8, ssn: u32, offset: u32, bytes: u32,
                           remote: u64, token: u32, context: Option<Context>)

  datatype TargetKey = TargetKey(source: nat, request: u64, ssn: u16)

  /** A target DMA in progress at `endpoint`: the part of the request it executes. */
  datatype Target = Target(task: u32, endpoint: nat, source: u32, target: u32, part: Work, offset: u32)

  /** What the target's device sends back. */
  datatype Answer = Answer(operation: u8, source: u32, destination: u32, jetty: u32, peer: u32, tpn: u32,
                           request: u64, ssn: u32, length: u32, offset: u32, payload: seq<u8>)

  function Low16(ssn: u32): u16 { ssn % 0x1_0000 }

  /** `OnNativeSegmentSent`; `None` is the exception.  `emplace` keeps an entry that is already there. */
  function SegmentSent(net: seq<Endpoint>, t: Task, node: u32, ssn: u32, carrier: u32): Option<Task>
    requires t.source < |net|
  {
    if net[t.source].node != node || t.next >= t.work.length then None
    else
      var remaining := t.work.length - t.next;
      var logical := if t.work.operation == READ then Min(MTU, remaining) else carrier;
      if logical == 0 || logical > remaining then None
      else
        var key := Low16(ssn);
        Some(t.(segments := if key in t.segments then t.segments else t.segments[key := Segment(t.next, logical, [])],
                next := t.next + logical))
  }

  /** The packet comes from the endpoint and is at the endpoint its association data names. */
  predicate Associated(net: seq<Endpoint>, target: nat, p: Packet)
    requires target < |net|
  {
    && p.context.Some? && ByNode(net, p.from).Some?
    && var c := p.context.value;
    && c.task == p.task && c.source == net[ByNode(net, p.from).value].eid && c.destination == net[target].eid
    && p.to == net[target].node && c.work.operation == p.operation
  }

  predicate InRequest(w: Work, offset: u32, bytes: u32) {
    offset <= w.length && bytes != 0 && bytes <= w.length - offset && w.remote <= LAST64 - offset
  }

  function Part(w: Work, offset: u32, bytes: u32): Work
    requires InRequest(w, offset, bytes)
  {
    w.(remote := w.remote + offset, length := bytes)
  }

  /** `OnTargetExecute`: a SEND is complete at once, a READ or WRITE waits for the target's DMA. */
  function TargetExecuted(net: seq<Endpoint>, targets: map<TargetKey, Target>, target: nat, p: Packet)
    : Option<map<TargetKey, Target>>
    requires target < |net|
  {
    if !Associated(net, target, p) || !InRequest(p.context.value.work, p.offset, p.bytes) then None
    else
      var w := p.context.value.work;
      var key := TargetKey(ByNode(net, p.from).value, w.request, Low16(p.ssn));
      if w.operation != READ && w.operation != WRITE then Some(targets)
      else if p.remote != w.remote + p.offset || p.token != w.token || key in targets then None
      else
        Some(targets[key := Target(p.task, target, p.context.value.source, p.context.value.destination,
                                   Part(w, p.offset, p.bytes), p.offset)])
  }

  predicate AnswerMatches(target: nat, x: Target, a: Answer) {
    && target == x.endpoint && a.source == x.target && a.destination == x.source
    && (a.operation == RMA_ERROR || a.operation == if x.part.operation == READ then READ_RESPONSE else WRITE_ACK)
    && a.jetty == x.part.peer && a.peer == x.part.jetty && a.tpn == x.part.tpn
    && a.length == x.part.length && a.offset == x.offset
    && |a.payload| == if x.part.operation == READ && a.operation != RMA_ERROR then x.part.length else 0
  }

  /** The task's entry under `ssn` is the segment the target executed. */
  predicate SegmentMatches(t: Task, ssn: u16, x: Target) {
    ssn in t.segments && t.segments[ssn].bytes == x.part.length && t.segments[ssn].offset == x.offset
  }

  /** `ReceiveReadRequest` and `ReceiveWrite` at the target, once their DMA has ended: the answer, or nothing at
      all when the range is not one the target looks at. */
  predicate Looks(w: Work) { w.remote != 0 && w.length != 0 && w.length - 1 <= LAST64 - w.remote }

  /** An answer goes back the way the request came. */
  function Back(x: Target, ssn: u16, operation: u8, payload: seq<u8>): Answer {
    Answer(operation, x.target, x.source, x.part.peer, x.part.jetty, x.part.tpn, x.part.request, ssn, x.part.length,
           x.offset, payload)
  }

  function ReadAnswer(x: Target, ssn: u16, ok: bool, contents: seq<u8>): Option<Answer> {
    if !Looks(x.part) then None
    else if ok && |contents| == x.part.length then Some(Back(x, ssn, READ_RESPONSE, contents))
    else Some(Back(x, ssn, RMA_ERROR, []))
  }

  function WriteAnswer(x: Target, ssn: u16, size: nat, ok: bool): Option<Answer> {
    if !Looks(x.part) || size != x.part.length then None
    else Some(Back(x, ssn, if ok then WRITE_ACK else RMA_ERROR, []))
  }

  function KeepPayload(t: Task, ssn: u16, payload: seq<u8>): Task
    requires ssn in t.segments
  {
    t.(segments := t.segments[ssn := t.segments[ssn].(payload := payload)])
  }

  predicate IsCompletion(operation: u8) {
    operation == WRITE_ACK || operation == READ_RESPONSE || operation == RMA_ERROR
  }

  /** The entry an answer from `target` is for. */
  function AnswerKey(net: seq<Endpoint>, target: nat, a: Answer): Option<TargetKey>
    requires target < |net|
  {
    if !IsCompletion(a.operation) || |a.payload| > MTU || a.ssn > 0xFFFF || a.destination == net[target].eid
       || ByEid(net, a.destination).None? then None
    else Some(TargetKey(ByEid(net, a.destination).value, a.request, Low16(a.ssn)))
  }

  /** `CompleteTargetExecution` on the task it belongs to, if that is still known. */
  function TargetCompleted(net: seq<Endpoint>, targets: map<TargetKey, Target>, target: nat, t: Option<Task>, a: Answer)
    : Option<(map<TargetKey, Target>, Option<Task>)>
    requires target < |net|
  {
    var key := AnswerKey(net, target, a);
    if key.None? || key.value !in targets || !AnswerMatches(target, targets[key.value], a) then None
    else
      var x, ssn := targets[key.value], key.value.ssn;
      if t.None? then Some((targets - {key.value}, None))
      else if !SegmentMatches(t.value, ssn, x) then None
      else
        Some((targets - {key.value},
              Some(if x.part.operation == READ && a.operation != RMA_ERROR then KeepPayload(t.value, ssn, a.payload)
                   else t.value)))
  }

  /** The adapter takes a packet if and only if it comes from the endpoint that made the request, at the endpoint the
      request is for, and asks for a part of the request, by its token and at its address, that is not already being
      executed.  A SEND carries neither and is never recorded. */
  lemma OnlyPartsOfTheRequest(net: seq<Endpoint>, targets: map<TargetKey, Target>, target: nat, p: Packet)
    requires Distinct(net) && target < |net|
    ensures TargetExecuted(net, targets, target, p).Some? <==>
            && p.context.Some?
            && var c := p.context.value; var w := c.work;
               && c.task == p.task && w.operation == p.operation
               && (exists from :: 0 <= from < |net| && net[from].node == p.from && net[from].eid == c.source
                        && (p.operation == 3 || p.operation == 6 ==>
                              TargetKey(from, w.request, p.ssn % 0x1_0000) !in targets))
               && net[target].eid == c.destination && net[target].node == p.to
               && 0 < p.bytes && p.offset + p.bytes <= w.length && w.remote + p.offset <= LAST64
               && (p.operation == 3 || p.operation == 6 ==> p.remote == w.remote + p.offset && p.token == w.token)
    ensures var after := TargetExecuted(net, targets, target, p);
            after.Some? ==>
              forall key :: key in after.value && (key !in targets || after.value[key] != targets[key]) ==>
                var x, w := after.value[key], p.context.value.work;
                && x.endpoint == target && x.task == p.task && x.offset == p.offset
                && x.part == w.(remote := p.remote, length := p.bytes) && key.request == w.request
  {
    var from := ByNode(net, p.from);
    if from.Some? {
      ByNodeFinds(net, from.value);
      assert forall i :: 0 <= i < |net| && net[i].node == p.from ==> i == from.value;
    }
    hide ByNode;
  }

  /** An answer is taken if and only if it comes from the endpoint that executes the part, goes to the one that asked,
      between the queues of the request, for exactly that part, and the request, if it is still known, has it as a
      segment.  Only a READ that succeeded carries bytes. */
  lemma OnlyTheTargetAnswers(net: seq<Endpoint>, targets: map<TargetKey, Target>, target: nat, t: Option<Task>,
                             a: Answer)
    requires Distinct(net) && target < |net|
    ensures TargetCompleted(net, targets, target, t, a).Some? <==>
            exists source :: AnswersPart(net, targets, target, t, a, source)
  {
    var source := ByEid(net, a.destination);
    hide ByEid;
    if source.Some? {
      assert forall i :: 0 <= i < |net| && net[i].eid == a.destination ==> i == source.value;
    }
    if TargetCompleted(net, targets, target, t, a).Some? {
      assert AnswersPart(net, targets, target, t, a, source.value);
    }
    if source: nat :| AnswersPart(net, targets, target, t, a, source) {
      assert TargetCompleted(net, targets, target, t, a).Some?;
    }
  }

  predicate AnswersPart(net: seq<Endpoint>, targets: map<TargetKey, Target>, target: nat, t: Option<Task>, a: Answer,
                        source: nat)
  {
    var key := TargetKey(source, a.request, a.ssn % 0x1_0000);
    && source < |net| && source != target < |net| && net[source].eid == a.destination
    && a.ssn < 0x1_0000 && |a.payload| <= 4096 && key in targets
    && var x := targets[key];
       && x.endpoint == target && a.source == x.target && a.destination == x.source
       && a.jetty == x.part.peer && a.peer == x.part.jetty && a.tpn == x.part.tpn
       && a.offset == x.offset && a.length == x.part.length
       && (a.operation == 0x86 || a.operation == if x.part.operation == 6 then 0x85 else 0x83)
       && |a.payload| == (if a.operation == 0x85 then a.length else 0)
       && (t.Some? ==>
             && key.ssn in t.value.segments
             && t.value.segments[key.ssn].bytes == a.length && t.value.segments[key.ssn].offset == a.offset)
  }

  /** What a packet left in `targets` can be answered: whatever the target device's DMA does, its answer finds
      the entry and passes every test, unless the device does not look at the range. */
  lemma AnswersMatch(net: seq<Endpoint>, targets: map<TargetKey, Target>, target: nat, p: Packet, ok: bool,
                     contents: seq<u8>)
    requires Distinct(net) && target < |net| && TargetExecuted(net, targets, target, p).Some?
    requires p.operation == READ || p.operation == WRITE
    requires p.from != p.to && p.bytes <= MTU
    ensures var after := TargetExecuted(net, targets, target, p).value;
            var key := TargetKey(ByNode(net, p.from).value, p.context.value.work.request, Low16(p.ssn));
            var a := if p.operation == READ then ReadAnswer(after[key], key.ssn, ok, contents)
                     else WriteAnswer(after[key], key.ssn, |contents|, ok);
            && (a.None? <==> !Looks(after[key].part) || (p.operation == WRITE && |contents| != p.bytes))
            && (a.Some? ==> TargetCompleted(net, after, target, None, a.value) == Some((targets, None)))
  {
    var source := ByNode(net, p.from).value;
    ByEidFinds(net, source);
    assert net[source].eid != net[target].eid by {
      if source < target {
      } else {
        assert source != target;
      }
    }
    var key := TargetKey(source, p.context.value.work.request, Low16(p.ssn));
    var after := TargetExecuted(net, targets, target, p).value;
    assert after - {key} == targets;
  }

  lemma ByEidFinds(net: seq<Endpoint>, i: nat)
    requires Distinct(net) && i < |net|
    ensures ByEid(net, net[i].eid) == Some(i)
  {
    var e := ByEid(net, net[i].eid);
    assert e.Some?;
  }

  lemma ByNodeFinds(net: seq<Endpoint>, i: nat)
    requires Distinct(net) && i < |net|
    ensures ByNode(net, net[i].node) == Some(i)
  {
    var e := ByNode(net, net[i].node);
    assert e.Some?;
  }

  /** `OnNativeSegmentComplete`: the response that goes back to the guest, if the operation has one. */
  function SegmentCompleted(net: seq<Endpoint>, t: Task, node: u32, ssn: u32): Option<(Task, Option<Response>)>
    requires t.source < |net|
  {
    var key := Low16(ssn);
    if net[t.source].node != node || key !in t.segments then None
    else
      var g := t.segments[key];
      if t.work.operation == READ then
        Some((KeepPayload(t, key, []), Some(Response(key, g.offset, g.bytes, g.payload))))
      else if t.work.operation == WRITE then Some((t, Some(Response(key, g.offset, g.bytes, []))))
      else Some((t, None))
  }

  /** The segments recorded for a request lie inside it. */
  predicate Bounded(t: Task) {
    t.next <= t.work.length &&
    forall key :: key in t.segments ==> t.segments[key].offset + t.segments[key].bytes <= t.next
  }

  /** A segment is recorded if and only if the node that sent it is that of the request and the request has bytes left
      for it; completion is reported if and only if that node reports a number that was sent. */
  lemma OnlyTheSourceReports(net: seq<Endpoint>, t: Task, node: u32, ssn: u32, carrier: u32)
    requires t.source < |net| && Bounded(t)
    ensures var sent := SegmentSent(net, t, node, ssn, carrier);
            && (sent.Some? <==> node == net[t.source].node && t.next < t.work.length
                                && (t.work.operation != 6 ==> 0 < carrier <= t.work.length - t.next))
            && (sent.Some? ==>
                  && Bounded(sent.value) && t.next < sent.value.next
                  && sent.value == t.(segments := sent.value.segments, next := sent.value.next)
                  && sent.value.segments.Keys == t.segments.Keys + {ssn % 0x1_0000})
    ensures var done := SegmentCompleted(net, t, node, ssn);
            && (done.Some? <==> node == net[t.source].node && ssn % 0x1_0000 in t.segments)
            && (done.Some? ==> done.value.0 == t.(segments := done.value.0.segments) && Bounded(done.value.0)
                               && done.value.0.segments.Keys == t.segments.Keys)
  {
  }

  /** A response queued for an endpoint, from one jetty to another. */
  datatype Reply = Reply(endpoint: nat, operation: u8, jetty: u32, peer: u32, tpn: u32, request: u64,
                         response: Response)

  function ReplyTo(t: Task, r: Response): Reply {
    Reply(t.source, if t.work.operation == READ then READ_RESPONSE else WRITE_ACK, t.work.peer, t.work.jetty,
          t.work.tpn, t.work.request, r)
  }

  /** What the guest hears of a work request that failed: its number, and no extent. */
  function ErrorTo(t: Task): Reply {
    Reply(t.source, RMA_ERROR, t.work.peer, t.work.jetty, 0, t.work.request, Response(0, 0, 0, []))
  }

  /** The tables of the adapter.  `false` is an exception, which ends the process. */
  class Tasks {
    const net: seq<Endpoint>
    var tasks: map<u32, Task>
    var targets: map<TargetKey, Target>
    var outgoing: seq<Reply>
    var next: u32                       // next_native_task_id_
    var scheduled: nat                  // scheduled_packets_

    ghost predicate Valid()
      reads this
    {
      && |tasks| <= scheduled
      && (forall id :: id in tasks ==> tasks[id].source < |net| && tasks[id].destination < |net|)
    }

    constructor (net: seq<Endpoint>)
      ensures Valid() && this.net == net && tasks == map[] && targets == map[] && outgoing == []
      ensures next == 1 && scheduled == 0
    {
      this.net, tasks, targets, outgoing, next, scheduled := net, map[], map[], [], 1, 0;
    }

    /** A complete work request is given to the native transport under the next number, which wraps at 32 bits; a
        work request that still has the number keeps it.  `prepared` and `accepted` are what the transport says. */
    method SubmitNativeWqe(source: nat, destination: u32, work: Work, prepared: bool, accepted: bool)
      returns (ok: bool, id: u32)
      requires Valid() && source < |net|
      modifies this`tasks, this`next, this`scheduled
      ensures Valid()
      ensures ok == (ByEid(net, destination).Some? && work.jetty <= 0xF_FFFF && prepared && accepted)
      ensures ok ==>
                && id == old(next) && next == (old(next) + 1) % 0x1_0000_0000 && scheduled == old(scheduled) + 1
                && tasks == if id in old(tasks) then old(tasks)
                            else old(tasks)[id := Task(source, ByEid(net, destination).value, work, 0, map[])]
      ensures !ok ==> scheduled == old(scheduled) && tasks.Keys <= old(tasks).Keys
    {
      ok, id := false, next;
      var target := ByEid(net, destination);
      if target.None? || work.jetty > 0xF_FFFF || !prepared {
        return;
      }
      next := (next + 1) % 0x1_0000_0000;
      ghost var before := tasks;
      if id !in tasks {
        tasks := tasks[id := Task(source, target.value, work, 0, map[])];
        assert tasks.Keys == before.Keys + {id};
        assert |tasks| == |tasks.Keys| && |before| == |before.Keys|;
      }
      scheduled := scheduled + 1;
      if !accepted {
        Forget(id);
        return;
      }
      ok := true;
    }

    method Forget(id: u32)
      requires id in tasks && |tasks| <= scheduled
      requires forall id :: id in tasks ==> tasks[id].source < |net| && tasks[id].destination < |net|
      modifies this`tasks, this`scheduled
      ensures Valid() && tasks == old(tasks) - {id} && scheduled == old(scheduled) - 1
    {
      ghost var before := tasks;
      tasks := tasks - {id};
      assert tasks.Keys == before.Keys - {id};
      assert |tasks| == |tasks.Keys| && |before| == |before.Keys|;
      scheduled := scheduled - 1;
    }

    /** The native transport is done with a work request.  The guest hears of one that failed. */
    method OnNativeWqeTerminal(id: u32, completed: bool) returns (ok: bool)
      requires Valid()
      modifies this`tasks, this`scheduled, this`outgoing
      ensures Valid()
      ensures ok == (id in old(tasks))
      ensures ok ==>
                && tasks == old(tasks) - {id} && scheduled == old(scheduled) - 1
                && outgoing == old(outgoing) + if completed then [] else [ErrorTo(old(tasks)[id])]
      ensures !ok ==> tasks == old(tasks) && scheduled == old(scheduled) && outgoing == old(outgoing)
    {
      if id !in tasks {
        return false;
      }
      if !completed {
        var work := tasks[id].work;
        outgoing := outgoing +
        [Reply(tasks[id].source, RMA_ERROR, work.peer, work.jetty, 0, work.request, Response(0, 0, 0, []))];
      }
      assert |tasks| > 0 by {
        assert id in tasks.Keys;
      }
      Forget(id);
      ok := true;
    }

    method OnNativeSegmentSent(id: u32, node: u32, ssn: u32, carrier: u32) returns (ok: bool)
      requires Valid()
      modifies this`tasks
      ensures Valid()
      ensures ok == (id in old(tasks) && SegmentSent(net, old(tasks)[id], node, ssn, carrier).Some?)
      ensures tasks ==
              if ok then old(tasks)[id := SegmentSent(net, old(tasks)[id], node, ssn, carrier).value] else old(tasks)
    {
      if id !in tasks {
        return false;
      }
      var t := tasks[id];
      if net[t.source].node != node || t.next >= t.work.length {
        return false;
      }
      var remaining := t.work.length - t.next;
      var logical := carrier;
      if t.work.operation == READ {
        logical := Min(MTU, remaining);
      }
      if logical == 0 || logical > remaining {
        return false;
      }
      if Low16(ssn) !in t.segments {
        t := t.(segments := t.segments[Low16(ssn) := Segment(t.next, logical, [])]);
      }
      t := t.(next := t.next + logical);
      tasks := tasks[id := t];
      ok := true;
    }

    /** The target learns the request from the context the packet carries, not from `tasks`. */
    method OnTargetExecute(target: nat, p: Packet) returns (ok: bool)
      requires target < |net|
      modifies this`targets
      ensures ok == TargetExecuted(net, old(targets), target, p).Some?
      ensures targets == if ok then TargetExecuted(net, old(targets), target, p).value else old(targets)
    {
      if p.context.None? {
        return false;
      }
      var c := p.context.value;
      var from := ByNode(net, p.from);
      if from.None? || c.task != p.task || c.source != net[from.value].eid || c.destination != net[target].eid
         || p.to != net[target].node || c.work.operation != p.operation {
        return false;
      }
      if p.offset > c.work.length || p.bytes == 0 || p.bytes > c.work.length - p.offset
         || c.work.remote > LAST64 - p.offset {
        return false;
      }
      if c.work.operation != READ && c.work.operation != WRITE {
        return true;
      }
      var part := c.work.(remote := c.work.remote + p.offset, length := p.bytes);
      if p.remote != part.remote || p.token != part.token {
        return false;
      }
      var key := TargetKey(from.value, part.request, Low16(p.ssn));
      if key in targets {
        return false;
      }
      targets := targets[key := Target(p.task, target, c.source, c.destination, part, p.offset)];
      ok := true;
    }

    method CompleteTargetExecution(target: nat, a: Answer) returns (ok: bool)
      requires Valid() && target < |net|
      modifies this`targets, this`tasks
      ensures Valid()
      ensures var key := AnswerKey(net, target, a);
              var id := if key.Some? && key.value in old(targets) then old(targets)[key.value].task else 0;
              var done := TargetCompleted(net, old(targets), target,
                                          if id in old(tasks) then Some(old(tasks)[id]) else None, a);
              && ok == done.Some?
              && (ok ==> targets == done.value.0)
              && (ok && id in old(tasks) ==> tasks == old(tasks)[id := done.value.1.value])
              && (ok && id !in old(tasks) ==> tasks == old(tasks))
              && (!ok ==> targets == old(targets) && tasks == old(tasks))
    {
      if a.operation != WRITE_ACK && a.operation != READ_RESPONSE && a.operation != RMA_ERROR {
        return false;
      }
      if |a.payload| > MTU || a.ssn > 0xFFFF || a.destination == net[target].eid {
        return false;
      }
      var source := ByEid(net, a.destination);
      if source.None? {
        return false;
      }
      var key := TargetKey(source.value, a.request, Low16(a.ssn));
      if key !in targets {
        return false;
      }
      var x := targets[key];
      if !Fits(target, x, a) {
        return false;
      }
      hide AnswerMatches;
      if x.task in tasks {
        var t := tasks[x.task];
        if key.ssn !in t.segments || t.segments[key.ssn].bytes != x.part.length
           || t.segments[key.ssn].offset != x.offset {
          return false;
        }
        if x.part.operation == READ && a.operation != RMA_ERROR {
          t := t.(segments := t.segments[key.ssn := t.segments[key.ssn].(payload := a.payload)]);
        }
        tasks := tasks[x.task := t];
      }
      targets := targets - {key};
      ok := true;
    }

    /** The tests of an answer against the DMA it is for. */
    static function Fits(target: nat, x: Target, a: Answer): (ok: bool)
      ensures ok == AnswerMatches(target, x, a)
    {
      var read := x.part.operation == READ;
      var failed := a.operation == RMA_ERROR;
      !(target != x.endpoint || a.source != x.target || a.destination != x.source
        || (!failed && a.operation != (if read then READ_RESPONSE else WRITE_ACK))
        || a.jetty != x.part.peer || a.peer != x.part.jetty || a.tpn != x.part.tpn
        || a.length != x.part.length || a.offset != x.offset
        || |a.payload| != (if read && !failed then x.part.length else 0))
    }

    method OnNativeSegmentComplete(id: u32, node: u32, ssn: u32) returns (ok: bool)
      requires Valid()
      modifies this`tasks, this`outgoing
      ensures Valid()
      ensures ok == (id in old(tasks) && SegmentCompleted(net, old(tasks)[id], node, ssn).Some?)
      ensures ok ==> var done := SegmentCompleted(net, old(tasks)[id], node, ssn).value;
                     && tasks == old(tasks)[id := done.0]
                     && outgoing == old(outgoing) +
                          if done.1.Some? then [ReplyTo(done.0, done.1.value)] else []
      ensures !ok ==> tasks == old(tasks) && outgoing == old(outgoing)
    {
      if id !in tasks {
        return false;
      }
      var t := tasks[id];
      var key := Low16(ssn);
      if net[t.source].node != node || key !in t.segments {
        return false;
      }
      var g := t.segments[key];
      if t.work.operation != READ && t.work.operation != WRITE {
        return true;
      }
      var r, operation := Response(key, g.offset, g.bytes, []), WRITE_ACK;
      if t.work.operation == READ {
        r, operation := r.(bytes := g.payload), READ_RESPONSE;
        t := t.(segments := t.segments[key := g.(payload := [])]);
      }
      tasks := tasks[id := t];
      outgoing := outgoing +
      [Reply(t.source, operation, t.work.peer, t.work.jetty, t.work.tpn, t.work.request, r)];
      ok := true;
    }
  }
}
