/** What the two receivers make of any messages at all: a fragment is taken if and only if it continues what was taken
    before it under its source and sequence number, and only whole frames come out. */
module WireChains {
  import opened Optional
  import opened Words
  import opened Wire

  // ------------------------------------------------------------------ chains of fragments

  function Joined(c: seq<Message>): seq<u8> { if c == [] then [] else Joined(c[..|c| - 1]) + c[|c| - 1].payload }

  lemma JoinedAppend(c: seq<Message>, m: Message)
    ensures Joined(c + [m]) == Joined(c) + m.payload
  {
    assert (c + [m])[..|c|] == c;
  }

  /** The messages taken so far of each frame that is not complete, by source and sequence number. */
  type Chains = map<Key, seq<Message>>

  function ChainOf(cs: Chains, k: Key): seq<Message> { if k in cs then cs[k] else [] }

  // ------------------------------------------------------------------ the peer device

  /** A fragment continues the frame of which `c` are the fragments so far: it repeats all their fields, follows without
      gap, stays within the length, and is marked as the last one exactly if it completes it. */
  predicate Continues(c: seq<Message>, m: Message) {
    var n := |Joined(c)|;
    && m.payload != [] && m.header.payloadOffset == n && n + |m.payload| <= m.header.length
    && (m.header.flags & 2 != 0 <==> n + |m.payload| == m.header.length)
    && (c != [] ==>
          var f := c[0];
          && f.route == m.route && f.header.operation == m.header.operation && f.header.body == m.header.body
          && f.header.length == m.header.length && f.header.flags & 0x300 == m.header.flags & 0x300)
  }

  /** The frame a chain stands for: the fields of its first message and all the bytes. */
  function FrameSoFar(c: seq<Message>): Frame
    requires c != []
  {
    FrameOf(c[0]).(bytes := Joined(c))
  }

  /** What the peer should have: the open chains and the frames that are complete. */
  datatype Heard = Heard(chains: Chains, frames: seq<Frame>)

  /** `None` when a fragment does not continue its frame. */
  function Listen(h: Heard, m: Message): Option<Heard> {
    var k := KeyOf(m.route);
    var c := ChainOf(h.chains, k);
    if !IsFragment(m) then Some(h.(frames := h.frames + [FrameOf(m)]))
    else if !Continues(c, m) then None
    else if |Joined(c)| + |m.payload| == m.header.length then
      Some(Heard(h.chains - {k}, h.frames + [FrameSoFar(c + [m])]))
    else Some(h.(chains := h.chains[k := c + [m]]))
  }

  function ListenAll(ms: seq<Message>): Option<Heard> {
    if ms == [] then Some(Heard(map[], []))
    else
      var h := ListenAll(ms[..|ms| - 1]);
      if h.None? then None else Listen(h.value, ms[|ms| - 1])
  }

  /** What the port does with the messages: its partial frames and what it delivers; `None` is the exception. */
  datatype Ear = Ear(parts: map<Key, Partial>, frames: seq<Frame>)

  function PollAll(ms: seq<Message>): Option<Ear> {
    if ms == [] then Some(Ear(map[], []))
    else
      var e := PollAll(ms[..|ms| - 1]);
      if e.None? then None
      else
        var r := Poll(e.value.parts, ms[|ms| - 1]);
        if r.Raised? then None
        else Some(Ear(r.parts, if r.Delivered? then e.value.frames + [r.frame] else e.value.frames))
  }

  predicate PartOk(parts: map<Key, Partial>, cs: Chains, k: Key)
    requires k in cs
  {
    && cs[k] != [] && KeyOf(cs[k][0].route) == k && Joined(cs[k]) != []
    && k in parts && parts[k] == Partial(FrameSoFar(cs[k]), |Joined(cs[k])|)
  }

  ghost predicate Remembered(parts: map<Key, Partial>, cs: Chains) {
    parts.Keys == cs.Keys && forall k {:trigger PartOk(parts, cs, k)} :: k in cs ==> PartOk(parts, cs, k)
  }

  lemma OrderBits(a: bv16, b: bv16)
    ensures UnpackOrder(a) == UnpackOrder(b) <==> a & 0x300 == b & 0x300
  {
  }

  lemma LastBit(flags: bv16)
    ensures Has(flags, LAST) <==> flags & 2 != 0
  {
  }

  /** A fragment is refused if and only if it does not continue its chain. */
  lemma RefusedIff(parts: map<Key, Partial>, cs: Chains, m: Message)
    requires Remembered(parts, cs) && IsFragment(m)
    ensures Poll(parts, m).Raised? <==> !Continues(ChainOf(cs, KeyOf(m.route)), m)
  {
    var k := KeyOf(m.route);
    var c := ChainOf(cs, k);
    LastBit(m.header.flags);
    assert k in cs <==> k in parts;
    if c != [] {
      assert PartOk(parts, cs, k);
      OrderBits(c[0].header.flags, m.header.flags);
    } else {
      assert k in cs ==> PartOk(parts, cs, k);
    }
    hide UnpackOrder, Has, IsFragment;
  }

  /** One that is taken completes the frame, with the bytes of its whole chain, or is remembered. */
  lemma TakenAs(parts: map<Key, Partial>, cs: Chains, m: Message)
    requires Remembered(parts, cs) && IsFragment(m) && Continues(ChainOf(cs, KeyOf(m.route)), m)
    ensures var k, r := KeyOf(m.route), Poll(parts, m);
            var c := ChainOf(cs, k);
            if |Joined(c)| + |m.payload| == m.header.length then r == Delivered(parts - {k}, FrameSoFar(c + [m]))
            else r == Kept(parts[k := Partial(FrameSoFar(c + [m]), |Joined(c + [m])|)])
  {
    RefusedIff(parts, cs, m);
    var k := KeyOf(m.route);
    var c := ChainOf(cs, k);
    LastBit(m.header.flags);
    JoinedAppend(c, m);
    assert k in cs ==> PartOk(parts, cs, k);
    hide UnpackOrder, Has, IsFragment;
    if c != [] {
      assert (c + [m])[0] == c[0];
    } else {
      assert c + [m] == [m] && Joined(c) == [];
    }
  }

  /** The chain that a fragment lengthens. */
  lemma LongerChain(parts: map<Key, Partial>, cs: Chains, m: Message)
    requires Remembered(parts, cs) && Continues(ChainOf(cs, KeyOf(m.route)), m)
    ensures var c := ChainOf(cs, KeyOf(m.route)) + [m]; KeyOf(c[0].route) == KeyOf(m.route) && Joined(c) != []
  {
    var c := ChainOf(cs, KeyOf(m.route));
    JoinedAppend(c, m);
    hide Joined;
  }

  lemma NotAFragment(parts: map<Key, Partial>, m: Message)
    requires !IsFragment(m)
    ensures Poll(parts, m) == Delivered(parts, FrameOf(m))
  {
    hide IsFragment, FrameOf;
  }

  lemma ListenKeeps(e: Ear, h: Heard, m: Message)
    requires Remembered(e.parts, h.chains)
    ensures Poll(e.parts, m).Raised? <==> Listen(h, m).None?
    ensures var r := Poll(e.parts, m);
            !r.Raised? ==>
              && Remembered(r.parts, Listen(h, m).value.chains)
              && Listen(h, m).value.frames == h.frames + if r.Delivered? then [r.frame] else []
  {
    hide Poll, IsFragment, Continues, Joined, FrameSoFar, FrameOf, Remembered, KeyOf;
    var k := KeyOf(m.route);
    if !IsFragment(m) {
      NotAFragment(e.parts, m);
    } else {
      RefusedIff(e.parts, h.chains, m);
      if Continues(ChainOf(h.chains, k), m) {
        TakenAs(e.parts, h.chains, m);
        LongerChain(e.parts, h.chains, m);
        StillRemembered(e.parts, h.chains, k, ChainOf(h.chains, k) + [m]);
      }
    }
  }

  lemma StillRemembered(parts: map<Key, Partial>, cs: Chains, k: Key, c: seq<Message>)
    requires Remembered(parts, cs) && c != [] && KeyOf(c[0].route) == k && Joined(c) != []
    ensures Remembered(parts - {k}, cs - {k})
    ensures Remembered(parts[k := Partial(FrameSoFar(c), |Joined(c)|)], cs[k := c])
  {
    hide Joined, FrameSoFar;
    forall x | x in cs
      ensures PartOk(parts, cs, x)
    {
    }
    var parts', cs' := parts[k := Partial(FrameSoFar(c), |Joined(c)|)], cs[k := c];
    forall x | x in cs'
      ensures PartOk(parts', cs', x)
    {
      assert x != k ==> PartOk(parts, cs, x);
    }
    forall x | x in cs - {k}
      ensures PartOk(parts - {k}, cs - {k}, x)
    {
      assert PartOk(parts, cs, x);
    }
  }

  lemma {:induction false} PollsAreChains(ms: seq<Message>)
    ensures PollAll(ms).None? <==> ListenAll(ms).None?
    ensures PollAll(ms).Some? ==>
              && Remembered(PollAll(ms).value.parts, ListenAll(ms).value.chains)
              && PollAll(ms).value.frames == ListenAll(ms).value.frames
  {
    hide Poll, Listen;
    if ms != [] {
      var before := ms[..|ms| - 1];
      PollsAreChains(before);
      if PollAll(before).Some? {
        hide Remembered;
        ListenKeeps(PollAll(before).value, ListenAll(before).value, ms[|ms| - 1]);
      }
    }
  }

  /** Whatever messages come in, from whomever, the device process raises an exception if and only if a fragment does
      not continue the frame of its source and sequence number, and otherwise has delivered exactly the frames that
      are complete. */
  lemma OnlyWholeFrames(ms: seq<Message>)
    ensures PollAll(ms).None? <==> ListenAll(ms).None?
    ensures PollAll(ms).Some? ==> PollAll(ms).value.frames == ListenAll(ms).value.frames
  {
    PollsAreChains(ms);
    hide PollAll, ListenAll;
  }

  // ------------------------------------------------------------------ the fabric

  /** A part of a request continues the work request of which `c` are the parts so far.  Offsets are compared modulo
      2^32, and parts need not repeat the route; the last one has to complete the request. */
  predicate Extends(c: seq<Message>, m: Message) {
    var n, h := |Joined(c)|, m.header;
    && (h.operation == 0 || h.operation == 1 || h.operation == 3 || h.operation == 6)
    && h.flags & 0x300 != 0x300
    && (h.payloadOffset + |m.payload|) % 0x1_0000_0000 <= h.length
    && (h.operation == 6 ==> m.payload == [] && h.payloadOffset == 0)
    && (c == [] ==> h.payloadOffset == 0)
    && (c != [] ==>
          && h.payloadOffset == n % 0x1_0000_0000 && c[0].header.operation == h.operation
          && c[0].header.length == h.length && c[0].header.body.request == h.body.request)
    && (h.flags & 2 != 0 ==> n + |m.payload| == if h.operation == 6 then 0 else h.length)
  }

  function WqeSoFar(c: seq<Message>): Wqe
    requires c != []
  {
    Wqe(c[0].route, c[0].header, Joined(c), |Joined(c)| % 0x1_0000_0000)
  }

  predicate WqeOk(wqes: map<Key, Wqe>, cs: Chains, k: Key)
    requires k in cs
  {
    cs[k] != [] && KeyOf(cs[k][0].route) == k && k in wqes && wqes[k] == WqeSoFar(cs[k])
  }

  ghost predicate Collected(wqes: map<Key, Wqe>, cs: Chains) {
    wqes.Keys == cs.Keys && forall k {:trigger WqeOk(wqes, cs, k)} :: k in cs ==> WqeOk(wqes, cs, k)
  }

  lemma OrderThree(flags: bv16)
    ensures UnpackOrder(flags) > ORDER_STRONG <==> flags & 0x300 == 0x300
  {
  }

  /** The fabric refuses a part if and only if it does not continue its work request. */
  lemma RejectedIff(wqes: map<Key, Wqe>, cs: Chains, m: Message)
    requires Collected(wqes, cs)
    ensures AcceptChunk(wqes, m).Rejected? <==> !Extends(ChainOf(cs, KeyOf(m.route)), m)
  {
    var k := KeyOf(m.route);
    var c := ChainOf(cs, k);
    LastBit(m.header.flags);
    OrderThree(m.header.flags);
    assert k in cs <==> k in wqes;
    assert k in cs ==> WqeOk(wqes, cs, k);
    hide UnpackOrder, Has;
    if c == [] {
      assert Joined(c) == [];
    }
  }

  /** One that is taken submits the work request, with the bytes of all its parts, or waits for more. */
  lemma CollectedAs(wqes: map<Key, Wqe>, cs: Chains, m: Message)
    requires Collected(wqes, cs) && Extends(ChainOf(cs, KeyOf(m.route)), m)
    ensures var k, a := KeyOf(m.route), AcceptChunk(wqes, m);
            var c := ChainOf(cs, k) + [m];
            if m.header.flags & 2 != 0 then a == Submitted(wqes - {k}, WqeSoFar(c))
            else a == Waiting(wqes[k := WqeSoFar(c)])
  {
    RejectedIff(wqes, cs, m);
    var k := KeyOf(m.route);
    var c := ChainOf(cs, k);
    LastBit(m.header.flags);
    assert k in cs <==> k in wqes;
    assert k in cs ==> WqeOk(wqes, cs, k);
    hide Extends, UnpackOrder, Has, Joined, Sum32;
    LongerWqe(c, m);
    if c != [] {
      assert (c + [m])[0] == c[0];
    }
  }

  /** The payload and the offset of a chain that gets longer. */
  lemma LongerWqe(c: seq<Message>, m: Message)
    ensures Joined(c + [m]) == Joined(c) + m.payload
    ensures Sum32(|Joined(c)| % 0x1_0000_0000, |m.payload|) == |Joined(c + [m])| % 0x1_0000_0000
    ensures c == [] ==> c + [m] == [m] && Joined(c + [m]) == [] + m.payload
                        && Sum32(0, |m.payload|) == |Joined(c + [m])| % 0x1_0000_0000
  {
    JoinedAppend(c, m);
  }

  /** What the fabric should have: the open chains and the work requests that are complete. */
  datatype Gathered = Gathered(chains: Chains, wqes: seq<Wqe>)

  function Gather(g: Gathered, m: Message): Option<Gathered> {
    var k := KeyOf(m.route);
    var c := ChainOf(g.chains, k);
    if !Extends(c, m) then None
    else if m.header.flags & 2 != 0 then Some(Gathered(g.chains - {k}, g.wqes + [WqeSoFar(c + [m])]))
    else Some(g.(chains := g.chains[k := c + [m]]))
  }

  function GatherAll(ms: seq<Message>): Option<Gathered> {
    if ms == [] then Some(Gathered(map[], []))
    else
      var g := GatherAll(ms[..|ms| - 1]);
      if g.None? then None else Gather(g.value, ms[|ms| - 1])
  }

  datatype Desk = Desk(parts: map<Key, Wqe>, wqes: seq<Wqe>)

  function AcceptAll(ms: seq<Message>): Option<Desk> {
    if ms == [] then Some(Desk(map[], []))
    else
      var d := AcceptAll(ms[..|ms| - 1]);
      if d.None? then None
      else
        var a := AcceptChunk(d.value.parts, ms[|ms| - 1]);
        if a.Rejected? then None
        else Some(Desk(a.parts, if a.Submitted? then d.value.wqes + [a.wqe] else d.value.wqes))
  }

  lemma GatherKeeps(d: Desk, g: Gathered, m: Message)
    requires Collected(d.parts, g.chains)
    ensures AcceptChunk(d.parts, m).Rejected? <==> Gather(g, m).None?
    ensures var a := AcceptChunk(d.parts, m);
            !a.Rejected? ==>
              && Collected(a.parts, Gather(g, m).value.chains)
              && Gather(g, m).value.wqes == g.wqes + if a.Submitted? then [a.wqe] else []
  {
    RejectedIff(d.parts, g.chains, m);
    if Extends(ChainOf(g.chains, KeyOf(m.route)), m) {
      CollectedAs(d.parts, g.chains, m);
      var k := KeyOf(m.route);
      assert k in g.chains ==> WqeOk(d.parts, g.chains, k);
      hide AcceptChunk;
      StillCollected(d.parts, g.chains, k, ChainOf(g.chains, k) + [m]);
    }
  }

  lemma StillCollected(wqes: map<Key, Wqe>, cs: Chains, k: Key, c: seq<Message>)
    requires Collected(wqes, cs) && c != [] && KeyOf(c[0].route) == k
    ensures Collected(wqes - {k}, cs - {k}) && Collected(wqes[k := WqeSoFar(c)], cs[k := c])
  {
    hide Joined;
    var wqes', cs' := wqes[k := WqeSoFar(c)], cs[k := c];
    forall x | x in cs'
      ensures WqeOk(wqes', cs', x)
    {
      assert x != k ==> WqeOk(wqes, cs, x);
    }
    forall x | x in cs - {k}
      ensures WqeOk(wqes - {k}, cs - {k}, x)
    {
      assert WqeOk(wqes, cs, x);
    }
  }

  lemma {:induction false} AcceptsAreChains(ms: seq<Message>)
    ensures AcceptAll(ms).None? <==> GatherAll(ms).None?
    ensures AcceptAll(ms).Some? ==>
              && Collected(AcceptAll(ms).value.parts, GatherAll(ms).value.chains)
              && AcceptAll(ms).value.wqes == GatherAll(ms).value.wqes
  {
    hide AcceptChunk, Gather;
    if ms != [] {
      var before := ms[..|ms| - 1];
      AcceptsAreChains(before);
      if AcceptAll(before).Some? {
        hide Collected;
        GatherKeeps(AcceptAll(before).value, GatherAll(before).value, ms[|ms| - 1]);
      }
    }
  }

  /** Whatever messages come in, the fabric raises an exception if and only if one does not continue the work request of
      its source and sequence number, and otherwise has submitted exactly those that are complete. */
  lemma OnlyWholeRequests(ms: seq<Message>)
    ensures AcceptAll(ms).None? <==> GatherAll(ms).None?
    ensures AcceptAll(ms).Some? ==> AcceptAll(ms).value.wqes == GatherAll(ms).value.wqes
  {
    AcceptsAreChains(ms);
    hide AcceptAll, GatherAll;
  }
}
