/** The round trip at the level of ring slots: what `Send` queues and `FlushOne` puts on the ring passes the tests of
    the receivers, whatever goes between. */
module WireSlots {
  import opened Optional
  import opened Words
  import opened Wire
  import opened WireProof

  // ------------------------------------------------------------------ slots and their messages

  /** The slots `xs` hold the messages `ms`, under the header the receivers ask for. */
  predicate Seals(xs: seq<Slot>, ms: seq<Message>) {
    |xs| == |ms| && forall i :: 0 <= i < |xs| ==> |ms[i].payload| < 0x1_0000_0000 && xs[i] == Sealed(ms[i])
  }

  /** A UDMA frame goes out as its messages, each in a slot with the version 3 and its own length. */
  lemma SlotsHoldMessages(f: Frame, slot: nat)
    requires Queueable(f, slot) && Describable(f) && f.operation != RAW
    ensures Seals(Slots(f, slot), Messages(f, Capacity(slot)))
    ensures forall i :: 0 <= i < |Slots(f, slot)| ==>
              var x := Slots(f, slot)[i];
              && x.Udma? && x.version == 3 && x.declared == |x.message.payload| && SlotBytes(x) == 64 + x.declared
              && x.message == Messages(f, Capacity(slot))[i]
  {
    ChunksFit(f, Capacity(slot), 0);
    var ms := Messages(f, Capacity(slot));
    forall i | 0 <= i < |ms|
      ensures |ms[i].payload| < 0x1_0000_0000
    {
      assert ms[i] in ms;
    }
    hide Chunks, Completion, Messages;
  }

  /** A slot that fits is heard as the message it holds: the tests of its header never fail. */
  lemma SlotIsHeard(parts: map<Key, Partial>, m: Message, room: nat)
    requires |m.payload| < 0x1_0000_0000
    ensures Hear(parts, Sealed(m), room) == if HEADER + |m.payload| > room then Raised else Poll(parts, m)
    ensures Envelope(Sealed(m))
  {
    hide Poll;
  }

  /** The frame the peer sees; a raw one keeps its route and its bytes. */
  function Seen(f: Frame): Frame
    requires Describable(f)
  {
    if f.operation == RAW then Frame(f.route, RAW, 0, Body(0, 0, 0, 0, 0, 0, 0), 0, 0, 0, f.bytes) else Normal(f)
  }

  // ------------------------------------------------------------------ what arrives

  /** A frame on its way from endpoint `from`, over a ring of `slot` bytes a slot, and its slots still to come. */
  datatype Way = Way(frame: Frame, from: nat, slot: nat, rest: seq<Slot>)

  /** Both receivers at once: a peer device sees every slot, the fabric those of UDMA frames. */
  datatype Line = Line(open: map<Key, Way>, parts: map<Key, Partial>, wqes: map<Key, Wqe>, delivered: seq<Frame>,
                       submitted: seq<Wqe>, sentFrames: seq<Frame>, sentRequests: seq<Wqe>)

  datatype Act = Begin(frame: Frame, from: nat, slot: nat) | Put(key: Key)

  /** A frame that `Send` queues; a slot that `FlushOne` finds to fit. */
  predicate Possible(l: Line, e: Act) {
    match e
    case Begin(f, _, slot) => Queueable(f, slot) && Describable(f) && KeyOf(f.route) !in l.open
    case Put(key) => key in l.open && l.open[key].rest != [] && SlotBytes(l.open[key].rest[0]) <= l.open[key].slot
  }

  /** The first tests of `PollOne` on the bytes of a frame. */
  predicate Envelope(x: Slot) { x.Udma? && x.version == VERSION && x.declared == |x.message.payload| }

  /** The fabric: ingress, then the chunk of a request. */
  function FabricHears(b: Fabric, wqes: map<Key, Wqe>, from: nat, request: bool, x: Slot): Accepted {
    if !Envelope(x) || !Ingress(b, from, x.message) then Rejected
    else
      var a := if request then AcceptChunk(wqes, x.message) else Waiting(wqes);
      if Submittable(a) then a else Rejected
  }

  /** `None` is an exception at one of the receivers; `room` are the bytes of a slot at the peer. */
  function PutStep(b: Fabric, room: nat, l: Line, key: Key): Option<Line>
    requires Possible(l, Put(key))
  {
    var w := l.open[key];
    var x, last := w.rest[0], |w.rest| == 1;
    var p := Hear(l.parts, x, room);
    var a := if w.frame.operation == RAW then Waiting(l.wqes)
             else FabricHears(b, l.wqes, w.from, IsRequest(w.frame.operation), x);
    if p.Raised? || a.Rejected? then None
    else
      Some(Line(if last then l.open - {key} else l.open[key := w.(rest := w.rest[1..])],
                p.parts, a.parts,
                if p.Delivered? then l.delivered + [p.frame] else l.delivered,
                if a.Submitted? then l.submitted + [a.wqe] else l.submitted,
                if last && Describable(w.frame) then l.sentFrames + [Seen(w.frame)] else l.sentFrames,
                if last && IsRequest(w.frame.operation) && Describable(w.frame) then
                  l.sentRequests + [Whole(w.frame, Capacity(w.slot))]
                else l.sentRequests))
  }

  function Apply(b: Fabric, room: nat, l: Line, e: Act): Option<Line>
    requires Possible(l, e)
  {
    match e
    case Begin(f, from, slot) => Some(l.(open := l.open[KeyOf(f.route) := Way(f, from, slot, Slots(f, slot))]))
    case Put(key) => PutStep(b, room, l, key)
  }

  datatype Course = Now(l: Line) | Impossible | Exception

  function Play(b: Fabric, room: nat, es: seq<Act>): Course {
    if es == [] then Now(Line(map[], map[], map[], [], [], [], []))
    else
      var c := Play(b, room, es[..|es| - 1]);
      if !c.Now? then c
      else if !Possible(c.l, es[|es| - 1]) then Impossible
      else
        var l := Apply(b, room, c.l, es[|es| - 1]);
        if l.None? then Exception else Now(l.value)
  }

  // ------------------------------------------------------------------ the messages behind the slots

  predicate Holds(w: Way, st: Stream) {
    && w.frame == st.frame && w.from == st.from && st.capacity == Capacity(w.slot) && Seals(w.rest, st.rest)
  }

  predicate RawWay(key: Key, w: Way) {
    w.frame.operation == RAW && Describable(w.frame) && w.rest == [Plain(w.frame.route, w.frame.bytes)]
  }

  predicate WayOk(l: Line, n: Net, key: Key)
    requires key in l.open
  {
    if key in n.open then l.open[key].frame.operation != RAW && Holds(l.open[key], n.open[key])
    else RawWay(key, l.open[key])
  }

  /** The line and the streams of messages it carries. */
  ghost predicate Carries(l: Line, n: Net) {
    && (forall key {:trigger WayOk(l, n, key)} :: key in l.open ==> WayOk(l, n, key))
    && n.open.Keys <= l.open.Keys && l.parts == n.parts && l.wqes == n.wqes
    && l.delivered == l.sentFrames && l.submitted == l.sentRequests
  }

  lemma BeginKeeps(b: Fabric, room: nat, l: Line, n: Net, f: Frame, from: nat, slot: nat) returns (n': Net)
    requires Inv(n) && Carries(l, n) && Possible(l, Begin(f, from, slot))
    ensures Inv(n') && Carries(Apply(b, room, l, Begin(f, from, slot)).value, n')
  {
    var l' := Apply(b, room, l, Begin(f, from, slot)).value;
    var key := KeyOf(f.route);
    hide Inv, Slots, Messages, Seals;
    if f.operation == RAW {
      n' := n;
      assert Slots(f, slot) == [Plain(f.route, f.bytes)] by {
        RawSlot(f, slot);
      }
    } else {
      var e := Event.Open(f, from, Capacity(slot));
      StepKeeps(b, n, e);
      n' := Step(b, n, e).value;
      SlotsHoldMessages(f, slot);
    }
    forall k | k in l'.open
      ensures WayOk(l', n', k)
    {
      assert k != key ==> WayOk(l, n, k);
    }
  }

  lemma RawSlot(f: Frame, slot: nat)
    requires Queueable(f, slot) && Describable(f) && f.operation == RAW
    ensures Slots(f, slot) == [Plain(f.route, f.bytes)]
  {
  }

  /** A raw frame is one slot, heard by the peer as it was sent. */
  lemma RawKeeps(b: Fabric, room: nat, l: Line, n: Net, key: Key)
    requires Carries(l, n) && Possible(l, Put(key)) && l.open[key].frame.operation == RAW
    ensures PutStep(b, room, l, key).None? <==> SlotBytes(l.open[key].rest[0]) > room
    ensures PutStep(b, room, l, key).Some? ==> Carries(PutStep(b, room, l, key).value, n)
  {
    assert WayOk(l, n, key);
    hide Holds, Poll, AcceptChunk, Ingress;
    var r := PutStep(b, room, l, key);
    if r.Some? {
      forall k | k in r.value.open
        ensures WayOk(r.value, n, k)
      {
        assert WayOk(l, n, k);
      }
    }
  }

  /** A slot of a UDMA frame is heard exactly as its message. */
  lemma MessageStep(b: Fabric, room: nat, l: Line, n: Net, key: Key)
    requires Inv(n) && Carries(l, n) && Possible(l, Put(key)) && l.open[key].frame.operation != RAW
    ensures Enabled(n, Next(key)) && Holds(l.open[key], n.open[key])
    ensures l.open[key].rest[0] == Sealed(n.open[key].rest[0])
    ensures PutStep(b, room, l, key).None? <==>
            SlotBytes(l.open[key].rest[0]) > room || Step(b, n, Next(key)).None?
  {
    assert WayOk(l, n, key);
    var m := n.open[key].rest[0];
    SlotIsHeard(l.parts, m, room);
    hide Inv, Hear, Poll, AcceptChunk, Ingress, Envelope;
  }

  /** Two ledgers that agree before and after a step have been extended alike. */
  lemma SameEntry<T>(a: seq<T>, b: seq<T>, x: seq<T>, y: seq<T>)
    requires a == b && a + x == b + y
    ensures x == y
  {
    assert x == (a + x)[|a|..] && y == (b + y)[|b|..];
  }

  function If<T>(c: bool, x: T): seq<T> { if c then [x] else [] }

  /** What the line notes of a step is what the streams note, with the same outcome. */
  lemma SameOutcome(b: Fabric, room: nat, l: Line, n: Net, key: Key)
    requires Inv(n) && Carries(l, n) && Possible(l, Put(key)) && l.open[key].frame.operation != RAW
    requires PutStep(b, room, l, key).Some?
    ensures Enabled(n, Next(key)) && Step(b, n, Next(key)).Some? && Inv(Step(b, n, Next(key)).value)
    ensures var l', n' := PutStep(b, room, l, key).value, Step(b, n, Next(key)).value;
            && l'.parts == n'.parts && l'.wqes == n'.wqes
            && l'.delivered == l'.sentFrames && l'.submitted == l'.sentRequests
  {
    MessageStep(b, room, l, n, key);
    StepKeeps(b, n, Next(key));
    var n' := Step(b, n, Next(key)).value;
    Same(n);
    Same(n');
    var w, st := l.open[key], n.open[key];
    var m := st.rest[0];
    SlotIsHeard(l.parts, m, room);
    hide Inv, Hear, Poll, AcceptChunk, Ingress, Envelope, Submittable, Normal, Whole;
    var p := Poll(n.parts, m);
    var a := if ForFabric(st.frame) then AcceptChunk(n.wqes, m) else Waiting(n.wqes);
    var ends := |st.rest| == 1 && Describable(st.frame);
    if p.Delivered? && ends {
      SameEntry(n.delivered, n.sentFrames, [p.frame], [Normal(st.frame)]);
    }
    if a.Submitted? && ends && ForFabric(st.frame) {
      SameEntry(n.submitted, n.sentRequests, [a.wqe], [Whole(st.frame, st.capacity)]);
    }
  }

  lemma MessageCarries(b: Fabric, room: nat, l: Line, n: Net, key: Key)
    requires Inv(n) && Carries(l, n) && Possible(l, Put(key)) && l.open[key].frame.operation != RAW
    requires PutStep(b, room, l, key).Some?
    ensures Enabled(n, Next(key)) && Step(b, n, Next(key)).Some? && Inv(Step(b, n, Next(key)).value)
    ensures Carries(PutStep(b, room, l, key).value, Step(b, n, Next(key)).value)
  {
    MessageStep(b, room, l, n, key);
    SameOutcome(b, room, l, n, key);
    var l', n' := PutStep(b, room, l, key).value, Step(b, n, Next(key)).value;
    hide Inv, Hear, FabricHears, Poll, AcceptChunk, Ingress, Envelope, Submittable, Normal, Whole, Seen, Sealed;
    forall k | k in l'.open
      ensures WayOk(l', n', k)
    {
      assert WayOk(l, n, k);
    }
  }

  /** The next slot does not fit a slot of the peer; or it is one of a UDMA frame that fails the ingress tests of the
      fabric, or of a request of order 3, or the last one of a request by a jetty of more than 20 bits. */
  predicate Unheard(b: Fabric, room: nat, l: Line, e: Act) {
    e.Put? && e.key in l.open && l.open[e.key].rest != []
    && var w := l.open[e.key];
       || SlotBytes(w.rest[0]) > room
       || (w.rest[0].Udma? && !Ingress(b, w.from, w.rest[0].message))
       || (IsRequest(w.frame.operation)
           && (w.frame.order & 3 == 3 || (|w.rest| == 1 && w.frame.body.sourceJetty > 0xF_FFFF)))
  }

  lemma ActKeeps(b: Fabric, room: nat, l: Line, n: Net, e: Act) returns (n': Net)
    requires Inv(n) && Carries(l, n) && Possible(l, e)
    ensures Apply(b, room, l, e).None? <==> Unheard(b, room, l, e)
    ensures Apply(b, room, l, e).Some? ==> Inv(n') && Carries(Apply(b, room, l, e).value, n')
  {
    hide Inv, Carries, Hear, FabricHears, PutStep, Ingress, Holds, Step;
    n' := n;
    if e.Begin? {
      n' := BeginKeeps(b, room, l, n, e.frame, e.from, e.slot);
    } else if l.open[e.key].frame.operation == RAW {
      RawKeeps(b, room, l, n, e.key);
      RawIsPlain(l, n, e.key);
    } else {
      MessageStep(b, room, l, n, e.key);
      StepKeeps(b, n, Next(e.key));
      Alike(l.open[e.key], n.open[e.key]);
      if PutStep(b, room, l, e.key).Some? {
        MessageCarries(b, room, l, n, e.key);
        n' := Step(b, n, Next(e.key)).value;
      }
    }
  }

  lemma RawIsPlain(l: Line, n: Net, key: Key)
    requires Carries(l, n) && key in l.open && l.open[key].frame.operation == RAW
    ensures l.open[key].rest != [] ==> l.open[key].rest[0].Plain?
  {
    assert WayOk(l, n, key);
  }

  lemma Alike(w: Way, st: Stream)
    requires Holds(w, st)
    ensures w.frame == st.frame && w.from == st.from && |w.rest| == |st.rest|
  {
  }

  /** Event `i` of the run puts such a slot on the ring. */
  predicate UnheardAt(b: Fabric, room: nat, es: seq<Act>, i: nat) {
    i < |es| && Play(b, room, es[..i]).Now? && Possible(Play(b, room, es[..i]).l, es[i])
    && Unheard(b, room, Play(b, room, es[..i]).l, es[i])
  }

  lemma EarlierAct(b: Fabric, room: nat, es: seq<Act>, before: seq<Act>)
    requires es != [] && before == es[..|es| - 1]
    ensures (exists i :: UnheardAt(b, room, es, i))
            <==> (exists i :: UnheardAt(b, room, before, i)) || UnheardAt(b, room, es, |es| - 1)
  {
    forall i: nat | i < |before|
      ensures UnheardAt(b, room, before, i) <==> UnheardAt(b, room, es, i)
    {
      assert before[..i] == es[..i];
    }
    hide Play, Possible, Unheard;
    if i: nat :| UnheardAt(b, room, before, i) {
      assert UnheardAt(b, room, es, i);
    }
    if i: nat :| UnheardAt(b, room, es, i) {
      if i < |before| {
        assert UnheardAt(b, room, before, i);
      }
    }
  }

  lemma {:induction false} PlayKeeps(b: Fabric, room: nat, es: seq<Act>) returns (n: Net)
    ensures Play(b, room, es).Exception? <==> exists i :: UnheardAt(b, room, es, i)
    ensures Play(b, room, es).Now? ==> Inv(n) && Carries(Play(b, room, es).l, n)
  {
    n := Net(map[], map[], map[], [], [], [], []);
    hide Apply, Possible, Unheard;
    if es != [] {
      var before, last := es[..|es| - 1], |es| - 1;
      n := PlayKeeps(b, room, before);
      var c := Play(b, room, before);
      EarlierAct(b, room, es, before);
      hide Inv, Carries;
      if c.Now? && Possible(c.l, es[last]) {
        n := ActKeeps(b, room, c.l, n, es[last]);
      }
    }
  }

  /** Whatever frames are sent, raw ones among them, over rings of whatever slots, and however their slots follow one
      another: a receiver raises an exception if and only if a slot arrives that is too long for the peer, fails
      the ingress tests of the fabric, is of a request of order 3, or ends a request by a jetty of more than 20 bits.
      Otherwise the peer has received exactly the frames all of whose slots arrived, in the order they became complete,
      and the fabric exactly the work requests among them. */
  lemma SlotRoundTrip(b: Fabric, room: nat, es: seq<Act>)
    ensures Play(b, room, es).Exception? <==> exists i :: UnheardAt(b, room, es, i)
    ensures Play(b, room, es).Now? ==>
              var l := Play(b, room, es).l;
              l.delivered == l.sentFrames && l.submitted == l.sentRequests
  {
    var n := PlayKeeps(b, room, es);
    hide Play, Inv, UnheardAt;
  }
}
