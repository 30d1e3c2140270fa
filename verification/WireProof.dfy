/** Cutting and reassembling are inverse, for any interleaving of frames and any ring size. */
module WireProof {
  import opened Optional
  import opened Words
  import opened Wire

  // ------------------------------------------------------------------ what arrives

  /** The frame the peer sees: requests lose what only completions carry. */
  function Normal(f: Frame): Frame
    requires Describable(f)
  {
    if IsCompletion(f.operation) then f.(order := f.order & 3)
    else f.(order := f.order & 3, ssn := 0, offset := 0, length := LogicalTotal(f), bytes := f.bytes[..PayloadTotal(f)])
  }

  /** The work request the fabric sees. */
  function Whole(f: Frame, capacity: nat): Wqe
    requires Describable(f)
  {
    Wqe(f.route, Chunk(f, capacity, 0).header, f.bytes[..PayloadTotal(f)], PayloadTotal(f))
  }

  /** Orders the fabric knows. */
  predicate KnownOrder(f: Frame) { f.order & 3 <= ORDER_STRONG }

  /** Packing the flags loses nothing but the upper bits of the order. */
  lemma FlagsRead(segment: bool, order: bv8, fragmented: bool, last: bool)
    ensures var f := Flags(segment, order, fragmented, last);
            && Has(f, SEGMENT) == segment && Has(f, FRAGMENTED) == fragmented && Has(f, LAST) == last
            && UnpackOrder(f) == order & 3
  {
    OrderRead(order);
    var o := PackOrder(order);
    hide PackOrder;
  }

  lemma OrderRead(order: bv8)
    ensures PackOrder(order) & 7 == 0 && PackOrder(order) & ORDER_MASK == PackOrder(order)
    ensures UnpackOrder(PackOrder(order)) == order & 3
  {
  }

  // ------------------------------------------------------------------ interleaved streams

  /** The entity ids of the fabric's endpoints, its ports and the longest frame it takes. */
  datatype Fabric = Fabric(eids: seq<u32>, ports: nat, longest: nat)

  /** `PollOne` takes a frame that is not too long, comes from the endpoint it names, through a port there is, for
      another endpoint. */
  predicate Ingress(b: Fabric, from: nat, m: Message) {
    && HEADER + |m.payload| <= b.longest && m.route.sourcePort < b.ports
    && from < |b.eids| && m.route.source == b.eids[from]
    && (exists to :: 0 <= to < |b.eids| && to != from && m.route.destination == b.eids[to])
  }

  /** The native network keeps jetty numbers of 20 bits. */
  predicate Submittable(a: Accepted) { a.Submitted? ==> a.wqe.header.body.sourceJetty <= 0xF_FFFF }

  /** A frame on its way from endpoint `from`: what of its payload has been sent and the messages still to come. */
  datatype Stream = Stream(frame: Frame, from: nat, capacity: nat, sent: nat, rest: seq<Message>)

  /** Both receivers at once: a peer device sees every message, the fabric those of requests. */
  datatype Net = Net(open: map<Key, Stream>, parts: map<Key, Partial>, wqes: map<Key, Wqe>,
                     delivered: seq<Frame>, submitted: seq<Wqe>,
                     sentFrames: seq<Frame>, sentRequests: seq<Wqe>)

  datatype Event = Open(frame: Frame, from: nat, capacity: nat) | Next(key: Key)

  predicate ForFabric(f: Frame) { IsRequest(f.operation) }

  /** Streams that are open together differ in source or sequence number. */
  predicate Enabled(n: Net, e: Event) {
    match e
    case Open(f, _, capacity) => Sendable(f) && Describable(f) && capacity > 0 && KeyOf(f.route) !in n.open
    case Next(key) => key in n.open && n.open[key].rest != []
  }

  function Advance(st: Stream): Stream
    requires st.rest != []
  {
    st.(sent := st.sent + |st.rest[0].payload|, rest := st.rest[1..])
  }

  /** `None` is an exception at one of the receivers. */
  function Step(b: Fabric, n: Net, e: Event): Option<Net>
    requires Enabled(n, e)
  {
    match e
    case Open(f, from, capacity) =>
      Some(n.(open := n.open[KeyOf(f.route) := Stream(f, from, capacity, 0, Messages(f, capacity))]))
    case Next(key) =>
      var st := n.open[key];
      var m, last, fabric := st.rest[0], |st.rest| == 1, ForFabric(st.frame);
      var p := Poll(n.parts, m);
      var a := if fabric then AcceptChunk(n.wqes, m) else Waiting(n.wqes);
      if p.Raised? || !Ingress(b, st.from, m) || a.Rejected? || !Submittable(a) then None
      else
        Some(Net(if last then n.open - {key} else n.open[key := Advance(st)],
                 p.parts, a.parts,
                 if p.Delivered? then n.delivered + [p.frame] else n.delivered,
                 if a.Submitted? then n.submitted + [a.wqe] else n.submitted,
                 if last && Describable(st.frame) then n.sentFrames + [Normal(st.frame)] else n.sentFrames,
                 if last && fabric && Describable(st.frame) then n.sentRequests + [Whole(st.frame, st.capacity)]
                 else n.sentRequests))
  }

  /** The next message does not pass the ingress tests of the fabric; or it is one of a request of order 3; or the
      last one of a request by a jetty whose number has more than 20 bits. */
  predicate Refused(b: Fabric, n: Net, e: Event) {
    e.Next? && e.key in n.open && n.open[e.key].rest != []
    && var st := n.open[e.key];
       || !Ingress(b, st.from, st.rest[0])
       || (IsRequest(st.frame.operation)
           && (st.frame.order & 3 == 3 || (|st.rest| == 1 && st.frame.body.sourceJetty > 0xF_FFFF)))
  }

  datatype Fate = At(n: Net) | Forbidden | Thrown

  function Run(b: Fabric, es: seq<Event>): Fate {
    if es == [] then At(Net(map[], map[], map[], [], [], [], []))
    else
      var f := Run(b, es[..|es| - 1]);
      if !f.At? then f
      else if !Enabled(f.n, es[|es| - 1]) then Forbidden
      else
        var n := Step(b, f.n, es[|es| - 1]);
        if n.None? then Thrown else At(n.value)
  }

  // ------------------------------------------------------------------ what holds in between

  /** The messages still to come are those of the payload not yet sent. */
  predicate Coming(key: Key, st: Stream) {
    && Sendable(st.frame) && Describable(st.frame) && st.capacity > 0 && key == KeyOf(st.frame.route)
    && (IsCompletion(st.frame.operation) ==> st.sent == 0 && st.rest == [Completion(st.frame)])
    && (!IsCompletion(st.frame.operation) ==>
          st.sent <= PayloadTotal(st.frame) && (st.sent > 0 ==>
                    st.capacity < PayloadTotal(st.frame) && st.sent < PayloadTotal(st.frame))
          && st.rest == Chunks(st.frame, st.capacity, st.sent))
  }

  /** What the peer holds of an open stream is its first `sent` bytes. */
  predicate Held(parts: map<Key, Partial>, key: Key, st: Stream)
    requires Coming(key, st)
  {
    if st.sent == 0 then key !in parts
    else key in parts && parts[key] == Partial(Normal(st.frame).(bytes := st.frame.bytes[..st.sent]), st.sent)
  }

  predicate Gathered(wqes: map<Key, Wqe>, key: Key, st: Stream)
    requires Coming(key, st)
  {
    if st.sent == 0 || !ForFabric(st.frame) then key !in wqes
    else key in wqes && wqes[key] == Whole(st.frame, st.capacity).(payload := st.frame.bytes[..st.sent],
                                                                   next := st.sent)
  }

  /** Nothing of a request gets past the fabric if it does not know its order. */
  predicate Stopped(st: Stream) { IsRequest(st.frame.operation) && !KnownOrder(st.frame) ==> st.sent == 0 }

  predicate StreamOk(n: Net, key: Key)
    requires key in n.open
  {
    && Coming(key, n.open[key]) && Held(n.parts, key, n.open[key]) && Gathered(n.wqes, key, n.open[key])
    && Stopped(n.open[key])
  }

  ghost predicate Inv(n: Net) {
    && (forall key {:trigger StreamOk(n, key)} :: key in n.open ==> StreamOk(n, key))
    && n.parts.Keys <= n.open.Keys && n.wqes.Keys <= n.open.Keys
    && n.delivered == n.sentFrames && n.submitted == n.sentRequests
  }

  lemma HeadOf(st: Stream)
    requires Coming(KeyOf(st.frame.route), st) && !IsCompletion(st.frame.operation)
    ensures st.rest != [] && st.rest[0] == Chunk(st.frame, st.capacity, st.sent)
    ensures var size := Min(st.capacity, PayloadTotal(st.frame) - st.sent);
            && |st.rest[0].payload| == size
            && (|st.rest| == 1 <==> st.sent + size == PayloadTotal(st.frame))
            && (|st.rest| > 1 ==> Coming(KeyOf(st.frame.route), Advance(st)) && size > 0)
  {
    var size := Min(st.capacity, PayloadTotal(st.frame) - st.sent);
    assert |Chunk(st.frame, st.capacity, st.sent).payload| == size by {
      hide Flags, Chunks;
    }
    hide Chunk, Flags;
    assert st.rest == [Chunk(st.frame, st.capacity, st.sent)] +
                      if st.sent + size < PayloadTotal(st.frame) then Chunks(st.frame, st.capacity, st.sent + size)
                      else [];
    assert st.rest[1..] ==
           if st.sent + size < PayloadTotal(st.frame) then Chunks(st.frame, st.capacity, st.sent + size) else [];
  }

  /** The peer takes the next message of a request. */
  lemma PeerTakes(parts: map<Key, Partial>, st: Stream)
    requires var key := KeyOf(st.frame.route); Coming(key, st) && Held(parts, key, st)
    requires !IsCompletion(st.frame.operation)
    ensures var key := KeyOf(st.frame.route);
            var p := Poll(parts, Chunk(st.frame, st.capacity, st.sent));
            var size := Min(st.capacity, PayloadTotal(st.frame) - st.sent);
            if st.sent + size == PayloadTotal(st.frame) then p == Delivered(parts - {key}, Normal(st.frame))
            else p == Kept(parts[key := Partial(Normal(st.frame).(bytes := st.frame.bytes[..st.sent + size]),
                                                st.sent + size)])
  {
    var f, total := st.frame, PayloadTotal(st.frame);
    var size := Min(st.capacity, total - st.sent);
    FlagsRead(false, f.order, total > st.capacity, st.sent + size == total);
    hide Flags, UnpackOrder, Has, Chunks;
    var key := KeyOf(f.route);
    if total <= st.capacity {
      assert st.sent == 0 && key !in parts;
      assert parts - {key} == parts;
    } else {
      assert f.bytes[..st.sent] + f.bytes[st.sent..st.sent + size] == f.bytes[..st.sent + size];
    }
  }

  lemma PeerTakesCompletion(parts: map<Key, Partial>, f: Frame)
    requires Describable(f) && IsCompletion(f.operation)
    ensures Poll(parts, Completion(f)) == Delivered(parts, Normal(f))
  {
    FlagsRead(true, f.order, false, true);
    hide Flags, UnpackOrder, Has;
  }

  /** The fabric takes the next message of a request. */
  lemma FabricTakes(wqes: map<Key, Wqe>, st: Stream)
    requires var key := KeyOf(st.frame.route); Coming(key, st) && Gathered(wqes, key, st)
    requires ForFabric(st.frame) && KnownOrder(st.frame)
    ensures var key := KeyOf(st.frame.route);
            var a := AcceptChunk(wqes, Chunk(st.frame, st.capacity, st.sent));
            var size := Min(st.capacity, PayloadTotal(st.frame) - st.sent);
            if st.sent + size == PayloadTotal(st.frame) then a == Submitted(wqes - {key}, Whole(st.frame, st.capacity))
            else a == Waiting(wqes[key := Whole(st.frame, st.capacity).(payload := st.frame.bytes[..st.sent + size],
                  next := st.sent + size)])
  {
    hide Chunks;
    if st.sent == 0 {
      FabricStarts(wqes, st);
    } else {
      FabricGoesOn(wqes, st);
    }
  }

  lemma FabricStarts(wqes: map<Key, Wqe>, st: Stream)
    requires var key := KeyOf(st.frame.route); Coming(key, st) && Gathered(wqes, key, st)
    requires ForFabric(st.frame) && KnownOrder(st.frame) && st.sent == 0
    ensures var key := KeyOf(st.frame.route);
            var a := AcceptChunk(wqes, Chunk(st.frame, st.capacity, 0));
            var size := Min(st.capacity, PayloadTotal(st.frame));
            if size == PayloadTotal(st.frame) then a == Submitted(wqes - {key}, Whole(st.frame, st.capacity))
            else a == Waiting(wqes[key := Whole(st.frame, st.capacity).(payload := st.frame.bytes[..size],
                  next := size)])
  {
    var f, total := st.frame, PayloadTotal(st.frame);
    var size := Min(st.capacity, total);
    FlagsRead(false, f.order, total > st.capacity, size == total);
    hide Flags, UnpackOrder, Has, Chunks;
    assert f.operation == READ_REQUEST ==> size == 0;
    assert [] + f.bytes[..size] == f.bytes[..size];
  }

  lemma FabricGoesOn(wqes: map<Key, Wqe>, st: Stream)
    requires var key := KeyOf(st.frame.route); Coming(key, st) && Gathered(wqes, key, st)
    requires ForFabric(st.frame) && KnownOrder(st.frame) && st.sent > 0
    ensures var key := KeyOf(st.frame.route);
            var a := AcceptChunk(wqes, Chunk(st.frame, st.capacity, st.sent));
            var size := Min(st.capacity, PayloadTotal(st.frame) - st.sent);
            if st.sent + size == PayloadTotal(st.frame) then a == Submitted(wqes - {key}, Whole(st.frame, st.capacity))
            else a == Waiting(wqes[key := Whole(st.frame, st.capacity).(payload := st.frame.bytes[..st.sent + size],
                  next := st.sent + size)])
  {
    var f, total := st.frame, PayloadTotal(st.frame);
    var size := Min(st.capacity, total - st.sent);
    FlagsRead(false, f.order, total > st.capacity, st.sent + size == total);
    hide Flags, UnpackOrder, Has, Chunks;
    assert f.bytes[..st.sent] + f.bytes[st.sent..st.sent + size] == f.bytes[..st.sent + size];
    assert st.sent < 0x1_0000_0000 && st.sent + size < 0x1_0000_0000;
    assert KeyOf(f.route) in wqes;
  }

  /** The fabric refuses every message of a request whose order it does not know, and only because of it. */
  lemma UnknownOrderIsRefused(wqes: map<Key, Wqe>, f: Frame, capacity: nat, offset: nat)
    requires Describable(f) && IsRequest(f.operation) && offset <= PayloadTotal(f)
    ensures f.order & 3 == 3 ==> AcceptChunk(wqes, Chunk(f, capacity, offset)).Rejected?
    ensures f.order & 3 == 3 <==> !KnownOrder(f)
  {
    var total := PayloadTotal(f);
    var size := Min(capacity, total - offset);
    FlagsRead(false, f.order, total > capacity, offset + size == total);
    ThreeBits(f.order);
    hide Flags, UnpackOrder;
  }

  lemma ThreeBits(order: bv8)
    ensures order & 3 == 3 <==> order & 3 > 2
  {
  }

  lemma OtherStreams(n: Net, n': Net, key: Key)
    requires Inv(n) && key in n.open && n'.open - {key} == n.open - {key}
    requires n'.parts - {key} == n.parts - {key} && n'.wqes - {key} == n.wqes - {key}
    ensures forall k :: k in n'.open && k != key ==> StreamOk(n', k)
    ensures n'.parts.Keys <= n.open.Keys + {key} && n'.wqes.Keys <= n.open.Keys + {key}
  {
    hide Coming;
    forall k | k in n'.open && k != key
      ensures StreamOk(n', k)
    {
      assert k in n'.open - {key} && k in n.open - {key};
      assert StreamOk(n, k);
      assert k in n'.parts <==> k in n'.parts - {key};
      assert k in n.parts <==> k in n.parts - {key};
      assert k in n'.wqes <==> k in n'.wqes - {key};
      assert k in n.wqes <==> k in n.wqes - {key};
    }
    forall k | k in n'.parts && k != key
      ensures k in n.open
    {
      assert k in n'.parts - {key};
    }
    forall k | k in n'.wqes && k != key
      ensures k in n.open
    {
      assert k in n'.wqes - {key};
    }
  }

  lemma OpenKeeps(b: Fabric, n: Net, f: Frame, from: nat, capacity: nat)
    requires Inv(n) && Enabled(n, Open(f, from, capacity))
    ensures Inv(Step(b, n, Open(f, from, capacity)).value)
  {
    hide Chunks, Completion;
    var n' := Step(b, n, Open(f, from, capacity)).value;
    var key := KeyOf(f.route);
    forall k | k in n'.open
      ensures StreamOk(n', k)
    {
      assert k != key ==> StreamOk(n, k);
      assert key !in n.parts && key !in n.wqes;
    }
  }

  lemma CompletionKeeps(b: Fabric, n: Net, key: Key)
    requires Inv(n) && Enabled(n, Next(key)) && IsCompletion(n.open[key].frame.operation)
    ensures Step(b, n, Next(key)).None? <==> Refused(b, n, Next(key))
    ensures Step(b, n, Next(key)).Some? ==> Inv(Step(b, n, Next(key)).value)
  {
    assert StreamOk(n, key);
    var st := n.open[key];
    PeerTakesCompletion(n.parts, st.frame);
    hide Coming, Poll, Completion, Normal, Ingress;
    if Step(b, n, Next(key)).Some? {
      var n' := Step(b, n, Next(key)).value;
      OtherStreams(n, n', key);
    }
  }

  /** The step of a request whose order is known fails exactly as said. */
  lemma RequestSteps(b: Fabric, n: Net, key: Key)
    requires Inv(n) && Enabled(n, Next(key)) && !IsCompletion(n.open[key].frame.operation)
    requires KnownOrder(n.open[key].frame)
    ensures Step(b, n, Next(key)).None? <==> Refused(b, n, Next(key))
  {
    assert StreamOk(n, key);
    var st := n.open[key];
    HeadOf(st);
    PeerTakes(n.parts, st);
    FabricTakes(n.wqes, st);
    ThreeBits(st.frame.order);
    hide Poll, AcceptChunk, Chunk, Chunks, Normal, Inv, Held, Gathered, Ingress;
  }

  lemma RequestKeeps(b: Fabric, n: Net, key: Key)
    requires Inv(n) && Enabled(n, Next(key)) && !IsCompletion(n.open[key].frame.operation)
    requires KnownOrder(n.open[key].frame) && !Refused(b, n, Next(key))
    ensures Step(b, n, Next(key)).Some? && Inv(Step(b, n, Next(key)).value)
  {
    RequestSteps(b, n, key);
    assert StreamOk(n, key);
    var st := n.open[key];
    HeadOf(st);
    PeerTakes(n.parts, st);
    FabricTakes(n.wqes, st);
    hide Poll, AcceptChunk, Chunk, Chunks, Coming, KnownOrder, Normal, Whole, Inv, Held, Gathered;
    hide Refused, Ingress, Submittable;
    var n' := Step(b, n, Next(key)).value;
    Untouched(n.open, n'.open, key);
    Untouched(n.parts, n'.parts, key);
    Untouched(n.wqes, n'.wqes, key);
    OtherStreams(n, n', key);
    RequestStep(b, n, n', key);
  }

  /** One stream moves on, the others do not. */
  lemma RequestStep(b: Fabric, n: Net, n': Net, key: Key)
    requires Inv(n) && key in n.open && n.open[key].rest != [] && Step(b, n, Next(key)) == Some(n')
    requires Coming(key, n.open[key]) && !IsCompletion(n.open[key].frame.operation)
    requires KnownOrder(n.open[key].frame)
    requires forall k :: k in n'.open && k != key ==> StreamOk(n', k)
    requires n'.parts.Keys <= n.open.Keys + {key} && n'.wqes.Keys <= n.open.Keys + {key}
    ensures Inv(n')
  {
    hide Poll, AcceptChunk, Chunk, Chunks, Coming, KnownOrder, Normal, Whole, StreamOk;
    if |n.open[key].rest| > 1 {
      RequestGoesOn(b, n, n', key);
    } else {
      RequestEnds(b, n, n', key);
    }
  }

  lemma RequestGoesOn(b: Fabric, n: Net, n': Net, key: Key)
    requires Inv(n) && key in n.open && |n.open[key].rest| > 1 && Step(b, n, Next(key)) == Some(n')
    requires Coming(key, n.open[key]) && !IsCompletion(n.open[key].frame.operation)
    requires KnownOrder(n.open[key].frame)
    ensures key in n'.open && n'.open.Keys == n.open.Keys && StreamOk(n', key)
    ensures n'.delivered == n'.sentFrames && n'.submitted == n'.sentRequests
  {
    assert StreamOk(n, key);
    var st := n.open[key];
    HeadOf(st);
    PeerTakes(n.parts, st);
    hide Poll, AcceptChunk, Chunk, Chunks, Coming, KnownOrder, Normal, Whole, StreamOk, Inv;
    assert n'.open == n.open[key := Advance(st)];
    assert Held(n'.parts, key, Advance(st));
    FabricTakes(n.wqes, st);
    assert Gathered(n'.wqes, key, Advance(st));
    assert n.delivered == n.sentFrames && n.submitted == n.sentRequests by {
      Same(n);
    }
    MovedOn(n', key, Advance(st));
  }

  lemma Same(n: Net)
    requires Inv(n)
    ensures n.delivered == n.sentFrames && n.submitted == n.sentRequests
  {
  }

  lemma RequestEnds(b: Fabric, n: Net, n': Net, key: Key)
    requires Inv(n) && key in n.open && |n.open[key].rest| == 1 && Step(b, n, Next(key)) == Some(n')
    requires Coming(key, n.open[key]) && !IsCompletion(n.open[key].frame.operation)
    requires KnownOrder(n.open[key].frame)
    ensures n'.open == n.open - {key} && key !in n'.parts && key !in n'.wqes
    ensures n'.delivered == n'.sentFrames && n'.submitted == n'.sentRequests
  {
    assert StreamOk(n, key);
    var st := n.open[key];
    HeadOf(st);
    PeerTakes(n.parts, st);
    Same(n);
    hide Poll, AcceptChunk, Chunk, Chunks, KnownOrder, Normal, Whole, StreamOk, Inv;
    FabricTakes(n.wqes, st);
  }

  lemma MovedOn(n: Net, key: Key, st: Stream)
    requires key in n.open && n.open[key] == st && Coming(key, st) && Held(n.parts, key, st)
        && Gathered(n.wqes, key, st) && Stopped(st)
    ensures StreamOk(n, key)
  {
  }

  lemma Untouched<T>(m: map<Key, T>, m': map<Key, T>, key: Key)
    requires m' == m || m' == m - {key} || (key in m' && m' == m[key := m'[key]])
    ensures m' - {key} == m - {key}
  {
  }

  lemma UnknownStops(b: Fabric, n: Net, key: Key)
    requires Inv(n) && Enabled(n, Next(key)) && IsRequest(n.open[key].frame.operation)
    requires n.open[key].frame.order & 3 == 3
    ensures Step(b, n, Next(key)).None? && Refused(b, n, Next(key))
  {
    assert StreamOk(n, key);
    var st := n.open[key];
    HeadOf(st);
    UnknownOrderIsRefused(n.wqes, st.frame, st.capacity, st.sent);
    hide Poll, AcceptChunk, Chunk, Chunks, Coming, KnownOrder, Normal, Whole, Inv, Ingress;
  }

  /** A step raises an exception exactly when it delivers such a message. */
  lemma StepKeeps(b: Fabric, n: Net, e: Event)
    requires Inv(n) && Enabled(n, e)
    ensures Step(b, n, e).None? <==> Refused(b, n, e)
    ensures Step(b, n, e).Some? ==> Inv(Step(b, n, e).value)
  {
    hide Inv, Poll, AcceptChunk, Ingress;
    if e.Open? {
      OpenKeeps(b, n, e.frame, e.from, e.capacity);
    } else if IsCompletion(n.open[e.key].frame.operation) {
      CompletionKeeps(b, n, e.key);
    } else {
      IsARequest(n, e.key);
      ThreeBits(n.open[e.key].frame.order);
      if n.open[e.key].frame.order & 3 == 3 {
        UnknownStops(b, n, e.key);
      } else {
        RequestSteps(b, n, e.key);
        if !Refused(b, n, e) {
          RequestKeeps(b, n, e.key);
        }
      }
    }
  }

  lemma IsARequest(n: Net, key: Key)
    requires Inv(n) && key in n.open && !IsCompletion(n.open[key].frame.operation)
    ensures IsRequest(n.open[key].frame.operation)
  {
    assert StreamOk(n, key);
  }

  /** Event `i` of the run delivers a message that the fabric refuses. */
  predicate RefusedAt(b: Fabric, es: seq<Event>, i: nat) {
    i < |es| && Run(b, es[..i]).At? && Enabled(Run(b, es[..i]).n, es[i]) && Refused(b, Run(b, es[..i]).n, es[i])
  }

  /** Whatever frames are sent, through whatever rings, and however their messages interleave: a receiver
      raises an exception if and only if a message is delivered that fails the ingress tests, belongs to a request
      of order 3, or ends a request by a jetty of more than 20 bits; otherwise the peer has received exactly the
      frames all of whose messages arrived, in the order they became complete, as `Normal` describes; and the
      fabric exactly their work requests. */
  lemma {:induction false} RoundTrip(b: Fabric, es: seq<Event>)
    ensures Run(b, es).Thrown? <==> exists i :: RefusedAt(b, es, i)
    ensures Run(b, es).At? ==>
              var n := Run(b, es).n;
              Inv(n) && n.delivered == n.sentFrames && n.submitted == n.sentRequests
  {
    hide Step, Enabled, Refused;
    if es != [] {
      var before, last := es[..|es| - 1], |es| - 1;
      RoundTrip(b, before);
      var f := Run(b, before);
      forall i: nat | i < last
        ensures RefusedAt(b, before, i) <==> RefusedAt(b, es, i)
      {
        assert before[..i] == es[..i];
      }
      if f.At? && Enabled(f.n, es[last]) {
        StepKeeps(b, f.n, es[last]);
        assert Run(b, es).Thrown? <==> RefusedAt(b, es, last);
      }
      Earlier(b, es, before);
    }
  }

  /** The run as a whole delivers such a message before its last event, or with it. */
  lemma Earlier(b: Fabric, es: seq<Event>, before: seq<Event>)
    requires es != [] && before == es[..|es| - 1]
    requires forall i: nat :: i < |before| ==> (RefusedAt(b, before, i) <==> RefusedAt(b, es, i))
    ensures (exists i :: RefusedAt(b, es, i)) <==> (exists i :: RefusedAt(b, before, i)) || RefusedAt(b, es, |es| - 1)
  {
    hide Run;
    if i: nat :| RefusedAt(b, before, i) {
      assert RefusedAt(b, es, i);
    }
    if i: nat :| RefusedAt(b, es, i) {
      if i < |before| {
        assert RefusedAt(b, before, i);
      }
    }
  }

  /** When no stream is open the receivers hold nothing back. */
  lemma NothingHeldBack(b: Fabric, es: seq<Event>)
    requires Run(b, es).At? && Run(b, es).n.open == map[]
    ensures Run(b, es).n.parts == map[] && Run(b, es).n.wqes == map[]
  {
    RoundTrip(b, es);
    var n := Run(b, es).n;
    assert n.parts.Keys == {} && n.wqes.Keys == {};
  }
}
