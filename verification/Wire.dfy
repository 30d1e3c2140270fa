/** Messages between devices and the fabric: how a frame is cut into ring-sized messages and put together
    again, by the peer device and by the fabric adapter. */
module Wire {
  import opened Optional
  import opened Words

  // ------------------------------------------------------------------ flags

  const FRAGMENTED: bv16 := 1
  const LAST: bv16 := 2
  const SEGMENT: bv16 := 4
  const ORDER_MASK: bv16 := 0x300

  /** The two overloads of `UdmaWireOrder`. */
  function PackOrder(order: bv8): bv16 { ((order & 3) as bv16) << 8 }

  function UnpackOrder(flags: bv16): bv8 { ((flags & ORDER_MASK) >> 8) as bv8 }

  function Bit(b: bool, flag: bv16): bv16 { if b then flag else 0 }

  predicate Has(flags: bv16, flag: bv16) { flags & flag != 0 }

  function Flags(segment: bool, order: bv8, fragmented: bool, last: bool): bv16 {
    Bit(segment, SEGMENT) | PackOrder(order) | Bit(fragmented, FRAGMENTED) | Bit(last, LAST)
  }

  // ------------------------------------------------------------------ frames and messages

  const SEND: u8 := 0
  const SEND_IMMEDIATE: u8 := 1
  const WRITE: u8 := 3
  const READ_REQUEST: u8 := 6
  const WRITE_ACK: u8 := 0x83
  const READ_RESPONSE: u8 := 0x85
  const RMA_ERROR: u8 := 0x86
  const RAW: u8 := 0xff

  const MAX_SEND := 4096
  const ORDER_STRONG: bv8 := 2

  predicate IsRequest(op: u8) { op == SEND || op == SEND_IMMEDIATE || op == WRITE || op == READ_REQUEST }

  predicate IsCompletion(op: u8) { op == WRITE_ACK || op == READ_RESPONSE || op == RMA_ERROR }

  /** Where a frame comes from and goes to. */
  datatype Route = Route(sequence: u64, source: u32, destination: u32, sourcePort: u16, destinationPort: u16)

  /** What every fragment of a frame repeats. */
  datatype Body = Body(sourceJetty: u32, destinationJetty: u32, tpn: u32, segment: u32,
                       remote: u64, immediate: u64, request: u64)

  datatype Frame = Frame(route: Route, operation: u8, order: bv8, body: Body,
                         ssn: u32, offset: u32, length: u32, bytes: seq<u8>)

  datatype Header = Header(operation: u8, flags: bv16, body: Body, ssn: u32, length: u32, payloadOffset: u32)

  /** One ring message; `payload_length` is the length of `payload`. */
  datatype Message = Message(route: Route, header: Header, payload: seq<u8>)

  // ------------------------------------------------------------------ sending

  function PayloadTotal(f: Frame): nat { if f.operation == READ_REQUEST then 0 else |f.bytes| }

  function LogicalTotal(f: Frame): u32
    requires |f.bytes| < 0x1_0000_0000
  {
    if f.operation == READ_REQUEST then f.length else |f.bytes|
  }

  /** Payloads that the 32-bit length fields of the header can describe. */
  predicate Describable(f: Frame) { |f.bytes| < 0x1_0000_0000 }

  /** The message of a request that starts at `offset`, for a ring that takes `capacity` payload bytes. */
  function Chunk(f: Frame, capacity: nat, offset: nat): Message
    requires Describable(f) && offset <= PayloadTotal(f)
  {
    var total := PayloadTotal(f);
    var size := Min(capacity, total - offset);
    Message(f.route,
            Header(f.operation, Flags(false, f.order, total > capacity, offset + size == total), f.body, 0,
                   LogicalTotal(f), offset),
            f.bytes[offset..offset + size])
  }

  function Chunks(f: Frame, capacity: nat, offset: nat): (ms: seq<Message>)
    requires Describable(f) && offset <= PayloadTotal(f) && capacity > 0
    ensures |ms| > 0
    decreases PayloadTotal(f) - offset
  {
    var size := Min(capacity, PayloadTotal(f) - offset);
    [Chunk(f, capacity, offset)] +
    if offset + size < PayloadTotal(f) then Chunks(f, capacity, offset + size) else []
  }

  lemma ChunksFrom(f: Frame, capacity: nat, offset: nat, before: seq<Message>)
    requires Describable(f) && offset <= PayloadTotal(f) && capacity > 0
    ensures var size := Min(capacity, PayloadTotal(f) - offset);
            before + Chunks(f, capacity, offset) ==
            before + [Chunk(f, capacity, offset)]
            + if offset + size < PayloadTotal(f) then Chunks(f, capacity, offset + size) else []
  {
    hide Chunk;
  }

  /** A target completion is one message, whatever the ring takes. */
  function Completion(f: Frame): Message {
    Message(f.route, Header(f.operation, Flags(true, f.order, false, true), f.body, f.ssn, f.length, f.offset), f.bytes)
  }

  /** `NetworkPort::Send` of a UDMA frame refuses what it cannot describe. */
  predicate Sendable(f: Frame) {
    && (IsRequest(f.operation) || IsCompletion(f.operation))
    && (f.operation == SEND || f.operation == SEND_IMMEDIATE ==> |f.bytes| <= MAX_SEND)
  }

  function Messages(f: Frame, capacity: nat): seq<Message>
    requires Sendable(f) && Describable(f) && capacity > 0
  {
    if IsCompletion(f.operation) then [Completion(f)] else Chunks(f, capacity, 0)
  }

  // ------------------------------------------------------------------ reassembly by the peer device

  datatype Key = Key(source: u32, sequence: u64)

  function KeyOf(r: Route): Key { Key(r.source, r.sequence) }

  datatype Partial = Partial(frame: Frame, next: nat)

  datatype Polled = Raised | Kept(parts: map<Key, Partial>) | Delivered(parts: map<Key, Partial>, frame: Frame)

  /** The frame a message describes by itself. */
  function FrameOf(m: Message): Frame {
    Frame(m.route, m.header.operation, UnpackOrder(m.header.flags), m.header.body, m.header.ssn, m.header.payloadOffset,
          m.header.length, m.payload)
  }

  predicate IsFragment(m: Message) { Has(m.header.flags, FRAGMENTED) && !Has(m.header.flags, SEGMENT) }

  predicate ExtentOk(m: Message) {
    && m.header.length != 0 && m.payload != []
    && m.header.payloadOffset <= m.header.length
    && |m.payload| <= m.header.length - m.header.payloadOffset
    && Has(m.header.flags, LAST) == (|m.payload| == m.header.length - m.header.payloadOffset)
  }

  /** The fields every fragment has to repeat. */
  predicate SameFrame(f: Frame, p: Partial) {
    && f.offset == p.next && f.length == p.frame.length && f.route.source == p.frame.route.source
    && f.route.(sequence := p.frame.route.sequence) == p.frame.route
    && f.operation == p.frame.operation && f.order == p.frame.order && f.body == p.frame.body
  }

  /** `NetworkPort::Poll` of a UDMA message. */
  function Poll(parts: map<Key, Partial>, m: Message): Polled {
    var f := FrameOf(m);
    if !IsFragment(m) then Delivered(parts, f)
    else if !ExtentOk(m) then Raised
    else
      var k := KeyOf(m.route);
      if (m.header.payloadOffset == 0) != (k !in parts) then Raised
      else
        var p := if m.header.payloadOffset == 0 then Partial(f.(bytes := []), 0) else parts[k];
        if !SameFrame(f, p) then Raised
        else
          var p' := Partial(p.frame.(bytes := p.frame.bytes + f.bytes), p.next + |f.bytes|);
          if Has(m.header.flags, LAST) then Delivered(parts - {k}, p'.frame) else Kept(parts[k := p'])
  }

  // ------------------------------------------------------------------ reassembly by the fabric adapter

  /** A work request in the making: its first message and the payload so far. */
  datatype Wqe = Wqe(route: Route, header: Header, payload: seq<u8>, next: u32)

  datatype Accepted = Rejected | Waiting(parts: map<Key, Wqe>) | Submitted(parts: map<Key, Wqe>, wqe: Wqe)

  function Sum32(a: u32, b: nat): u32 { (a + b) % 0x1_0000_0000 }

  /** `AcceptWqeChunk`; the sums of the program wrap at 32 bits. */
  function AcceptChunk(parts: map<Key, Wqe>, m: Message): Accepted {
    var h := m.header;
    var read := h.operation == READ_REQUEST;
    var k := KeyOf(m.route);
    if !IsRequest(h.operation) || IsCompletion(h.operation) || Sum32(h.payloadOffset, |m.payload|) > h.length
       || UnpackOrder(h.flags) > ORDER_STRONG then Rejected
    else if read && (m.payload != [] || h.payloadOffset != 0) then Rejected
    else if k !in parts && h.payloadOffset != 0 then Rejected
    else if k in parts && (h.payloadOffset != parts[k].next || h.operation != parts[k].header.operation
                           || h.body.request != parts[k].header.body.request || h.length != parts[k].header.length)
    then Rejected
    else
      var p := if k in parts then parts[k] else Wqe(m.route, h, [], 0);
      var p' := p.(payload := p.payload + m.payload, next := Sum32(p.next, |m.payload|));
      if !Has(h.flags, LAST) then Waiting(parts[k := p'])
      else if |p'.payload| != (if read then 0 else h.length) then Rejected
      else Submitted(parts - {k}, p')
  }

  // ------------------------------------------------------------------ the port of a device

  const HEADER := 64
  const VERSION: u8 := 3

  /** What a ring slot holds: a UDMA message with the version and the payload length its header declares, or
      bytes that are too short for a header or do not begin with its magic number. */
  datatype Slot = Udma(version: u8, declared: u32, message: Message) | Plain(route: Route, bytes: seq<u8>)

  function Sealed(m: Message): Slot
    requires |m.payload| < 0x1_0000_0000
  {
    Udma(VERSION, |m.payload|, m)
  }

  function SlotBytes(x: Slot): nat { if x.Udma? then HEADER + |x.message.payload| else |x.bytes| }

  function RawFrame(route: Route, bytes: seq<u8>): Frame {
    Frame(route, RAW, 0, Body(0, 0, 0, 0, 0, 0, 0), 0, 0, 0, bytes)
  }

  /** `NetworkPort::Poll` of a frame in a slot of `room` bytes: its length and header are tested, raw bytes are a frame
      by themselves. */
  function Hear(parts: map<Key, Partial>, x: Slot, room: nat): Polled {
    if SlotBytes(x) > room then Raised
    else if x.Plain? then Delivered(parts, RawFrame(x.route, x.bytes))
    else if x.version != VERSION || x.declared != |x.message.payload| then Raised
    else Poll(parts, x.message)
  }

  /** Payload bytes per message, for slots of `slot` bytes; zero when the header does not fit. */
  function Capacity(slot: nat): nat { if slot > HEADER then slot - HEADER else 0 }

  predicate Queueable(f: Frame, slot: nat) { f.operation == RAW || (Capacity(slot) > 0 && Sendable(f)) }

  function SealAll(ms: seq<Message>): (xs: seq<Slot>)
    requires forall m :: m in ms ==> |m.payload| < 0x1_0000_0000
    ensures |xs| == |ms| && forall i :: 0 <= i < |ms| ==> xs[i] == Sealed(ms[i])
  {
    if ms == [] then [] else SealAll(ms[..|ms| - 1]) + [Sealed(ms[|ms| - 1])]
  }

  /** Every message of a request fits the slots it was cut for; a completion fits only if its payload does. */
  lemma {:induction false} ChunksFit(f: Frame, capacity: nat, offset: nat)
    requires Describable(f) && offset <= PayloadTotal(f) && capacity > 0
    ensures forall m :: m in Chunks(f, capacity, offset) ==> |m.payload| <= capacity && |m.payload| < 0x1_0000_0000
    decreases PayloadTotal(f) - offset
  {
    var size := Min(capacity, PayloadTotal(f) - offset);
    assert |Chunk(f, capacity, offset).payload| == size by {
      hide Flags, Chunks;
    }
    hide Chunk, Flags;
    var first := Chunk(f, capacity, offset);
    if offset + size < PayloadTotal(f) {
      ChunksFit(f, capacity, offset + size);
      assert Chunks(f, capacity, offset) == [first] + Chunks(f, capacity, offset + size);
    } else {
      assert Chunks(f, capacity, offset) == [first];
    }
  }

  /** The slots a frame is sent in. */
  function Slots(f: Frame, slot: nat): (xs: seq<Slot>)
    requires Queueable(f, slot) && Describable(f)
    ensures |xs| > 0
  {
    if f.operation == RAW then [Plain(f.route, f.bytes)]
    else
      ChunksFit(f, Capacity(slot), 0);
      SealAll(Messages(f, Capacity(slot)))
  }

  /** A request always fits the ring; a completion, which is never cut, fits exactly if its payload does. */
  lemma SlotsFit(f: Frame, slot: nat)
    requires Queueable(f, slot) && Describable(f) && f.operation != RAW
    ensures (forall x :: x in Slots(f, slot) ==> SlotBytes(x) <= slot)
            <==> (IsCompletion(f.operation) ==> |f.bytes| <= Capacity(slot))
  {
    var ms := Messages(f, Capacity(slot));
    ChunksFit(f, Capacity(slot), 0);
    if IsCompletion(f.operation) {
      assert ms == [Completion(f)] && ms[0] in ms;
      assert Slots(f, slot) == [Sealed(Completion(f))];
      assert Sealed(Completion(f)) in Slots(f, slot);
    } else {
      forall x | x in Slots(f, slot)
        ensures SlotBytes(x) <= slot
      {
        var i :| 0 <= i < |ms| && Slots(f, slot)[i] == x;
        assert ms[i] in ms;
      }
    }
  }

  datatype PendingSend = PendingSend(frame: Frame, messages: seq<Slot>, next: nat)

  predicate Unfinished(ps: seq<PendingSend>) {
    forall i :: 0 <= i < |ps| ==> ps[i].next < |ps[i].messages|
  }

  /** The messages a queue of frames has still to put on the ring, in order. */
  function Left(ps: seq<PendingSend>): seq<Slot>
    requires Unfinished(ps)
  {
    if ps == [] then [] else ps[0].messages[ps[0].next..] + Left(ps[1..])
  }

  lemma Regroup(a: seq<Slot>, b: seq<Slot>, c: seq<Slot>)
    ensures a + (b + c) == a + b + c
  {
  }

  lemma {:induction false} LeftAppend(ps: seq<PendingSend>, p: PendingSend)
    requires Unfinished(ps) && p.next == 0 < |p.messages|
    ensures Unfinished(ps + [p]) && Left(ps + [p]) == Left(ps) + p.messages
  {
    if ps == [] {
      assert ps + [p] == [p] && p.messages[0..] == p.messages;
      assert [p][1..] == [];
    } else {
      LeftAppend(ps[1..], p);
      assert (ps + [p])[1..] == ps[1..] + [p];
      Regroup(ps[0].messages[ps[0].next..], Left(ps[1..]), p.messages);
    }
  }

  class NetworkPort {
    const slot: nat                     // bytes of a ring slot behind the message header
    var outgoing: seq<PendingSend>
    var fragments: map<Key, Partial>

    ghost predicate Valid()
      reads this
    {
      Unfinished(outgoing)
    }

    constructor (slot: nat)
      ensures Valid() && this.slot == slot && outgoing == [] && fragments == map[]
    {
      this.slot, outgoing, fragments := slot, [], map[];
    }

    /** `false` is the completion with failure, at once; otherwise the frame is queued as its messages. */
    method Send(f: Frame) returns (queued: bool)
      requires Valid() && Describable(f)
      modifies this`outgoing
      ensures Valid()
      ensures queued == Queueable(f, slot)
      ensures queued <==> f.operation == 0xff
                          || (slot > 64 && f.operation in {0, 1, 3, 6, 0x83, 0x85, 0x86}
                              && (f.operation == 0 || f.operation == 1 ==> |f.bytes| <= 4096))
      ensures Left(outgoing) == Left(old(outgoing)) + if queued then Slots(f, slot) else []
      ensures outgoing == if queued then old(outgoing) + [PendingSend(f.(bytes := []), Slots(f, slot), 0)]
                          else old(outgoing)
    {
      if f.operation == RAW {
        Enqueue(f, [Plain(f.route, f.bytes)]);
        return true;
      }
      if slot <= HEADER {
        return false;
      }
      if (f.operation == SEND || f.operation == SEND_IMMEDIATE) && |f.bytes| > MAX_SEND {
        return false;
      }
      if !IsRequest(f.operation) && !IsCompletion(f.operation) {
        return false;
      }
      hide Chunk, Chunks, Completion, Flags;
      var messages := Split(f, slot - HEADER);
      ChunksFit(f, slot - HEADER, 0);
      Enqueue(f, SealAll(messages));
      queued := true;
    }

    method Enqueue(f: Frame, messages: seq<Slot>)
      requires Valid() && messages != []
      modifies this`outgoing
      ensures Valid() && outgoing == old(outgoing) + [PendingSend(f.(bytes := []), messages, 0)]
      ensures Left(outgoing) == Left(old(outgoing)) + messages
    {
      LeftAppend(outgoing, PendingSend(f.(bytes := []), messages, 0));
      outgoing := outgoing + [PendingSend(f.(bytes := []), messages, 0)];
    }

    /** The loop of `Send`. */
    method Split(f: Frame, capacity: nat) returns (messages: seq<Message>)
      requires Describable(f) && capacity > 0 && Sendable(f)
      ensures messages == Messages(f, capacity)
    {
      var payloadTotal := if f.operation == READ_REQUEST then 0 else |f.bytes|;
      var completion := IsCompletion(f.operation);
      hide Chunk, Chunks, Completion, Describable;
      messages := [];
      ghost var all := Messages(f, capacity);
      assert messages + all == all;
      var offset := 0;
      var more := true;
      while more
        invariant 0 <= offset <= payloadTotal
        invariant completion && more ==> offset == 0 && messages == []
        invariant !completion && more ==> messages + Chunks(f, capacity, offset) == all
        invariant !more ==> messages == all
        decreases payloadTotal - offset, more
      {
        var message, size := Cut(f, capacity, offset);
        if completion {
          assert [] + [message] == [message];
        } else {
          ChunksFrom(f, capacity, offset, messages);
        }
        messages := messages + [message];
        offset := offset + size;
        more := offset < payloadTotal;
      }
    }

    /** One round of the loop of `Send`. */
    method Cut(f: Frame, capacity: nat, offset: nat) returns (message: Message, size: nat)
      requires Describable(f) && capacity > 0 && (IsRequest(f.operation) || IsCompletion(f.operation))
      requires offset <= PayloadTotal(f) && (IsCompletion(f.operation) ==> offset == 0)
      ensures message == if IsCompletion(f.operation) then Completion(f) else Chunk(f, capacity, offset)
      ensures size == if IsCompletion(f.operation) then |f.bytes| else Min(capacity, PayloadTotal(f) - offset)
    {
      hide Flags;
      var read := f.operation == READ_REQUEST;
      var completion := IsCompletion(f.operation);
      var logicalTotal := if read then f.length else |f.bytes|;
      var payloadTotal := if read then 0 else |f.bytes|;
      size := if completion then payloadTotal else Min(capacity, payloadTotal - offset);
      var fragmented := !completion && payloadTotal > capacity;
      var last := completion || offset + size == payloadTotal;
      var header := Header(f.operation, Flags(completion, f.order, fragmented, last), f.body,
                           if completion then f.ssn else 0,
                           if IsRequest(f.operation) then logicalTotal else f.length,
                           if completion then f.offset else offset);
      message := Message(f.route, header, f.bytes[offset..offset + size]);
    }

    /** One message of the oldest frame, if it fits a ring slot and the ring has room for it; after its last
        message the frame is done.  A message that does not fit stays, and so does everything behind it. */
    method FlushOne(room: bool) returns (sent: Option<Slot>, done: bool)
      requires Valid()
      modifies this`outgoing
      ensures Valid()
      ensures Left(old(outgoing)) == (if sent.Some? then [sent.value] else []) + Left(outgoing)
      ensures sent.Some? ==
              (old(outgoing) != [] && room && SlotBytes(old(outgoing)[0].messages[old(outgoing)[0].next]) <= slot)
      ensures sent.None? ==> !done && outgoing == old(outgoing)
      ensures sent.Some? ==>
                var p := old(outgoing)[0];
                && sent.value == p.messages[p.next] && done == (p.next + 1 == |p.messages|)
                && outgoing == (if done then [] else [p.(next := p.next + 1)]) + old(outgoing)[1..]
    {
      if outgoing == [] {
        return None, false;
      }
      var p := outgoing[0];
      if SlotBytes(p.messages[p.next]) > slot || !room {
        return None, false;
      }
      sent := Some(p.messages[p.next]);
      if p.next + 1 != |p.messages| {
        outgoing := [p.(next := p.next + 1)] + outgoing[1..];
        assert outgoing[1..] == old(outgoing)[1..];
        assert p.messages[p.next..] == [sent.value] + p.messages[p.next + 1..];
        return sent, false;
      }
      outgoing := outgoing[1..];
      assert p.messages[p.next..] == [sent.value];
      done := true;
    }

    /** A message from the ring, in a slot of `room` bytes; the exception leaves a state nobody uses. */
    method Receive(x: Slot, room: nat) returns (raised: bool, frame: Option<Frame>)
      modifies this`fragments
      ensures raised == Hear(old(fragments), x, room).Raised?
      ensures !raised ==>
                var r := Hear(old(fragments), x, room);
                fragments == r.parts && frame == if r.Delivered? then Some(r.frame) else None
    {
      if SlotBytes(x) > room {
        return true, None;
      }
      if x.Plain? {
        return false, Some(RawFrame(x.route, x.bytes));
      }
      if x.version != VERSION || x.declared != |x.message.payload| {
        return true, None;
      }
      raised, frame := Reassemble(x.message);
    }

    /** A UDMA message whose header is well formed. */
    method Reassemble(m: Message) returns (raised: bool, frame: Option<Frame>)
      modifies this`fragments
      ensures raised == Poll(old(fragments), m).Raised?
      ensures !raised ==>
                var r := Poll(old(fragments), m);
                fragments == r.parts && frame == if r.Delivered? then Some(r.frame) else None
    {
      var f := FrameOf(m);
      if !IsFragment(m) {
        return false, Some(f);
      }
      if !ExtentOk(m) {
        return true, None;
      }
      var k := KeyOf(m.route);
      if (m.header.payloadOffset == 0) != (k !in fragments) {
        return true, None;
      }
      if m.header.payloadOffset == 0 {
        fragments := fragments[k := Partial(f.(bytes := []), 0)];
      }
      var p := fragments[k];
      if !SameFrame(f, p) {
        return true, None;
      }
      p := Partial(p.frame.(bytes := p.frame.bytes + f.bytes), p.next + |f.bytes|);
      if !Has(m.header.flags, LAST) {
        fragments := fragments[k := p];
        return false, None;
      }
      fragments := fragments - {k};
      return false, Some(p.frame);
    }
  }
}
