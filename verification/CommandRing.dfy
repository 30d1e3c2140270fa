/** The command queue of the device: chains of descriptors, responses written back over them, and events
    written to the guest's queue. */
module CommandRing {
  import opened Modular
  import opened Optional
  import opened Words

  type Bytes = seq<u8>
  type Depth = x: u32 | x > 0 witness 1

  const BLOCK := 32

  // ------------------------------------------------------------------ layout of a chain

  /** Payload bytes before block `i` of a chain: the first block has room for 24, the others for 32. */
  function Before(i: nat): nat { if i == 0 then 0 else 24 + BLOCK * (i - 1) }

  /** Bytes `[a, b)` of a text that is followed by zeros. */
  function Window(bytes: Bytes, a: nat, b: nat): (w: Bytes)
    requires a <= b
    ensures |w| == b - a && forall i :: 0 <= i < b - a ==> w[i] == if a + i < |bytes| then bytes[a + i] else 0
  {
    seq(b - a, i requires 0 <= i < b - a => if a + i < |bytes| then bytes[a + i] else 0)
  }

  /** How many blocks the program says a text needs. */
  function Blocks(size: nat): nat { (size + 39) / 32 }

  /** That is the least number of blocks that holds it. */
  lemma BlocksIsLeast(size: nat, n: nat)
    ensures n > 0 ==> (size <= Before(n) <==> Blocks(size) <= n)
    ensures Blocks(size) > 0
  {
  }

  /** What a reader of the first `n` blocks puts together. */
  function Gathered(bytes: Bytes, n: nat): Bytes {
    if n == 0 then [] else Gathered(bytes, n - 1) + Window(bytes, Before(n - 1), Before(n))
  }

  lemma {:induction false} GatherIsWindow(bytes: Bytes, n: nat)
    ensures Gathered(bytes, n) == Window(bytes, 0, Before(n))
  {
    if n > 0 {
      GatherIsWindow(bytes, n - 1);
      assert Window(bytes, 0, Before(n - 1)) + Window(bytes, Before(n - 1), Before(n)) == Window(bytes, 0, Before(n));
    }
  }

  /** Enough blocks give the text back, padded with zeros. */
  lemma GatherRestores(bytes: Bytes, n: nat)
    requires n >= Blocks(|bytes|)
    ensures |Gathered(bytes, n)| == Before(n) >= |bytes|
    ensures Gathered(bytes, n)[..|bytes|] == bytes
    ensures forall i :: |bytes| <= i < Before(n) ==> Gathered(bytes, n)[i] == 0
  {
    GatherIsWindow(bytes, n);
    BlocksIsLeast(|bytes|, n);
    assert Window(bytes, 0, Before(n))[..|bytes|] == bytes;
  }

  // ------------------------------------------------------------------ events to the guest

  datatype Write = Write(slot: nat, bytes: Bytes)

  /** The slot `i` places after `start`. */
  function Slot(start: nat, i: nat, depth: Depth): (k: nat)
    ensures k < depth
  {
    (start + i) % depth
  }

  const EVENT_LOW: u8 := 0x0e
  const EVENT_HIGH: u8 := 0xf0
  const DONE: u8 := 2

  /** Descriptor `i` of an event. */
  function EventBlock(event: Bytes, i: nat): Bytes {
    if i == 0 then [EVENT_LOW, EVENT_HIGH, DONE, Blocks(|event|) % 256, 0, 0, 0, 0] + Window(event, 0, 24)
    else Window(event, Before(i), Before(i + 1))
  }

  /** The writes that bring an event to the slots from `start` on. */
  predicate IsEvent(writes: seq<Write>, event: Bytes, start: nat, depth: Depth) {
    && |writes| == Blocks(|event|)
    && forall i :: 0 <= i < |writes| ==> writes[i] == Write(Slot(start, i, depth), EventBlock(event, i))
  }

  /** `EmitCtrlqResponse` up to its first DMA: which descriptor goes to which slot, and the new tail. */
  method BuildEvent(event: Bytes, tail: u32, depth: Depth) returns (writes: seq<Write>, newTail: nat)
    ensures IsEvent(writes, event, tail % depth, depth) && newTail == Slot(tail % depth, |writes|, depth)
  {
    hide EventBlock, Slot;
    var count := (|event| + 39) / 32;
    writes := [];
    newTail := tail % depth;
    FirstSlot(tail, depth);
    var offset := 0;
    for i := 0 to count
      invariant |writes| == i && newTail == Slot(tail % depth, i, depth)
      invariant offset == Min(Before(i), |event|)
      invariant forall j :: 0 <= j < i ==> writes[j] == Write(Slot(tail % depth, j, depth), EventBlock(event, j))
    {
      var desc, chunk := BuildBlock(event, i, offset);
      writes := writes + [Write(newTail, desc)];
      offset := offset + chunk;
      NextSlot(tail % depth, i, depth);
      newTail := (newTail + 1) % depth;
    }
  }

  /** One round of the loop: the descriptor and how many bytes of the event it takes. */
  method BuildBlock(event: Bytes, i: nat, offset: nat) returns (desc: Bytes, chunk: nat)
    requires offset == Min(Before(i), |event|)
    ensures desc == EventBlock(event, i) && offset + chunk == Min(Before(i + 1), |event|)
  {
    var start := if i == 0 then 8 else 0;
    chunk := Min(32 - start, |event| - offset);
    var head := if i == 0 then [EVENT_LOW, EVENT_HIGH, DONE, Blocks(|event|) % 256, 0, 0, 0, 0] else [];
    var body := event[offset..offset + chunk] + seq(32 - start - chunk, _ => 0);
    assert body == Window(event, Before(i), Before(i + 1));
    desc := head + body;
  }

  lemma FirstSlot(tail: nat, depth: Depth)
    ensures tail % depth == Slot(tail % depth, 0, depth)
  {
    Unique(tail % depth, depth, 0, tail % depth);
  }

  lemma NextSlot(start: nat, i: nat, depth: Depth)
    ensures (Slot(start, i, depth) + 1) % depth == Slot(start, i + 1, depth)
  {
    RemainderStep(start + i, 1, depth);
  }

  /** Fewer than `depth` steps apart, slots differ. */
  lemma SlotsDiffer(start: nat, i: nat, j: nat, depth: Depth)
    requires i < j < i + depth
    ensures Slot(start, i, depth) != Slot(start, j, depth)
  {
    RemaindersDiffer(start + i, start + j, depth);
  }

  /** The size check of the program, on the bytes behind the two headers. */
  predicate EventFits(size: nat, depth: Depth) { size + 8 < depth * 32 }

  /** An event that passes the check uses each slot of the guest's ring at most once, and what the guest
      gathers from the slots is the event and zeros.  The first
      descriptor begins with the opcode 0xf00e, low byte first, and the done flag; the block count behind them is
      right exactly when it fits a byte. */
  lemma EventsArriveWhole(event: Bytes, start: nat, depth: Depth, writes: seq<Write>)
    requires EventFits(|event|, depth) && IsEvent(writes, event, start, depth)
    ensures 0 < |writes| <= depth
    ensures forall i, j :: 0 <= i < j < |writes| ==> writes[i].slot != writes[j].slot
    ensures |Payloads(writes, |writes|)| >= |event| && Payloads(writes, |writes|)[..|event|] == event
    ensures forall i :: |event| <= i < |Payloads(writes, |writes|)| ==> Payloads(writes, |writes|)[i] == 0
    ensures |writes[0].bytes| == 32 && (writes[0].bytes[3] == |writes| <==> |writes| < 256)
    ensures writes[0].bytes[..3] == [0x0e, 0xf0, 2]
  {
    hide Slot, Gathered, Window, Payloads, EventBlock;
    FirstBlock(event);
    SlotsOfEvent(event, start, depth, writes);
    PayloadsGather(event, start, depth, writes, |writes|);
    GatherRestores(event, |writes|);
  }

  lemma FirstBlock(event: Bytes)
    ensures |EventBlock(event, 0)| == 32 && EventBlock(event, 0)[3] == Blocks(|event|) % 256
    ensures EventBlock(event, 0)[..3] == [0x0e, 0xf0, 2]
  {
  }

  lemma SlotsOfEvent(event: Bytes, start: nat, depth: Depth, writes: seq<Write>)
    requires EventFits(|event|, depth) && IsEvent(writes, event, start, depth)
    ensures forall i, j :: 0 <= i < j < |writes| ==> writes[i].slot != writes[j].slot
  {
    hide EventBlock;
    forall i, j | 0 <= i < j < |writes|
      ensures writes[i].slot != writes[j].slot
    {
      SlotsDiffer(start, i, j, depth);
    }
  }

  /** What a reader takes from a descriptor: all of it, or what follows the header in the first. */
  function PayloadOf(w: Write, first: bool): Bytes { if first && |w.bytes| >= 8 then w.bytes[8..] else w.bytes }

  function Payloads(writes: seq<Write>, n: nat): Bytes
    requires n <= |writes|
  {
    if n == 0 then [] else Payloads(writes, n - 1) + PayloadOf(writes[n - 1], n == 1)
  }

  lemma {:induction false} PayloadsGather(event: Bytes, start: nat, depth: Depth, writes: seq<Write>, n: nat)
    requires n <= |writes| && IsEvent(writes, event, start, depth)
    ensures Payloads(writes, n) == Gathered(event, n)
  {
    if n > 0 {
      PayloadsGather(event, start, depth, writes, n - 1);
      assert EventBlock(event, 0)[8..] == Window(event, 0, 24);
      hide Slot;
    }
  }

  // ------------------------------------------------------------------ responses to commands

  predicate IsDescriptor(d: Bytes) { |d| == 32 }

  /** Two commands are answered with one constant word. */
  const VERSION: u16 := 0x0001
  const READY: u16 := 0x7001

  predicate ByWord(opcode: u16) { opcode == VERSION || opcode == READY }

  function Word(opcode: u16): Bytes
    requires ByWord(opcode)
  {
    if opcode == VERSION then [0, 0, 0, 1] else [1, 0, 0, 0]
  }

  /** The head descriptor when the command is done: response, done flag, status and, for two commands, a word. */
  function Answered(d: Bytes, opcode: u16, response: Bytes, status: nat): (t: Bytes)
    requires IsDescriptor(d) && status < 0x1_0000
    ensures |t| == 32 && t[4] as int + 256 * (t[5] as int) == status
    ensures t[..2] == d[..2] && t[3] == d[3] && t[6..8] == d[6..8]
    ensures t[2] == if (d[2] / 2) % 2 == 1 then d[2] else d[2] + 2
  {
    var first := Min(|response|, 24);
    var t := d[..8] + response[..first] + d[8 + first..];
    var u: Bytes := t[2 := SetDone(t[2])][4 := status % 256][5 := status / 256];
    if ByWord(opcode) then u[..8] + Word(opcode) + u[12..] else u
  }

  function SetDone(flags: u8): u8 { if (flags / 2) % 2 == 1 then flags else flags + 2 }

  /** How many continuations the response needs, at most those the chain has. */
  function Continuations(size: nat, count: nat): nat {
    if size <= 24 || count == 0 then 0 else Min(count - 1, (size - 24 + 31) / 32)
  }

  /** The writes of a response to the chain at `head`: continuations first, the head descriptor last. */
  predicate IsResponse(writes: seq<Write>, d: Bytes, opcode: u16, response: Bytes, status: nat, head: nat, count: nat,
                       depth: Depth)
    requires IsDescriptor(d) && status < 0x1_0000
  {
    var n := Continuations(|response|, count);
    && |writes| == n + 1
    && (forall i :: 0 <= i < n ==>
              writes[i] == Write(Slot(head, i + 1, depth), Window(response, Before(i + 1), Before(i + 2))))
    && writes[n] == Write(head, Answered(d, opcode, response, status))
  }

  /** `FinishUbaseDescriptor` up to its first DMA: the writes in the order they are issued, each after the
      one before has succeeded. */
  method BuildResponse(d: Bytes, opcode: u16, response: Bytes, status: nat, head: nat, count: nat, depth: Depth)
    returns (writes: seq<Write>)
    requires IsDescriptor(d) && status < 0x1_0000 && head < depth && count > 0
    ensures IsResponse(writes, d, opcode, response, status, head, count, depth)
  {
    var first := Min(|response|, 24);
    var t := HeadDescriptor(d, opcode, response, status);
    writes := [];
    var offset := first;
    var index := 1;
    while index < count && offset < |response|
      invariant 1 <= index <= count && |writes| == index - 1
      invariant offset == if index == 1 then first else Min(Before(index), |response|)
      invariant index == 1 || Before(index - 1) < |response|
      invariant forall i :: 0 <= i < |writes| ==>
                  writes[i] == Write(Slot(head, i + 1, depth), Window(response, Before(i + 1), Before(i + 2)))
    {
      var chunk := Min(32, |response| - offset);
      var continuation := response[offset..offset + chunk] + seq(32 - chunk, _ => 0);
      assert continuation == Window(response, Before(index), Before(index + 1));
      writes := writes + [Write((head + index) % depth, continuation)];
      offset := offset + chunk;
      index := index + 1;
    }
    assert |writes| == Continuations(|response|, count);
    writes := writes + [Write(head, t)];
  }

  method HeadDescriptor(d: Bytes, opcode: u16, response: Bytes, status: nat) returns (t: Bytes)
    requires IsDescriptor(d) && status < 0x1_0000
    ensures t == Answered(d, opcode, response, status)
  {
    var first := Min(|response|, 24);
    t := d[..8] + response[..first] + d[8 + first..];
    t := t[2 := SetDone(t[2])];
    t := t[4 := status % 256][5 := status / 256];
    if opcode == 0x0001 {
      t := t[..8] + [0, 0, 0, 1] + t[12..];
    }
    if opcode == 0x7001 {
      t := t[..8] + [1, 0, 0, 0] + t[12..];
    }
  }

  /** What the guest reads from a chain: 24 bytes of the head, then 32 of each continuation written. */
  function Read(writes: seq<Write>): Bytes
    requires writes != []
  {
    PayloadOf(writes[|writes| - 1], true) + Flat(writes[..|writes| - 1])
  }

  function Flat(writes: seq<Write>): Bytes {
    if writes == [] then [] else Flat(writes[..|writes| - 1]) + writes[|writes| - 1].bytes
  }

  lemma {:induction false} FlatIsWindow(response: Bytes, writes: seq<Write>)
    requires forall i :: 0 <= i < |writes| ==> writes[i].bytes == Window(response, Before(i + 1), Before(i + 2))
    ensures Flat(writes) == Window(response, 24, Before(|writes| + 1))
  {
    var n := |writes|;
    if n > 0 {
      FlatIsWindow(response, writes[..n - 1]);
      assert Window(response, 24, Before(n)) + Window(response, Before(n), Before(n + 1)) == Window(response, 24,
            Before(n + 1));
    }
  }

  /** The device accepts a response only if it fits the chain. */
  predicate ResponseFits(size: nat, count: nat) { count > 0 && size <= 24 + (count - 1) * 32 }

  /** An accepted response is not truncated: the chain holds all of it.  The head, whose done flag tells the
      guest to look, is written last, and every write goes to a slot of its own within the chain. */
  lemma ResponsesAreWhole(d: Bytes, opcode: u16, response: Bytes, status: nat, head: nat, count: nat, depth: Depth,
                          writes: seq<Write>)
    requires IsDescriptor(d) && status < 0x1_0000 && head < depth && ResponseFits(|response|, count) && count <= depth
    requires IsResponse(writes, d, opcode, response, status, head, count, depth)
    ensures 0 < |writes| <= count
    ensures 24 + (|writes| - 1) * 32 >= |response| && (|writes| > 1 ==> 24 + (|writes| - 2) * 32 < |response|)
    ensures writes[|writes| - 1].slot == head && |writes[|writes| - 1].bytes| == 32
            && writes[|writes| - 1].bytes[2] == (if (d[2] / 2) % 2 == 1 then d[2] else d[2] + 2)
            && writes[|writes| - 1].bytes[..2] == d[..2] && writes[|writes| - 1].bytes[3] == d[3]
            && writes[|writes| - 1].bytes[4] == status % 256 && writes[|writes| - 1].bytes[5] == status / 256
    ensures |Read(writes)| >= |response| && |Read(writes)| >= 4
    ensures opcode == 0x0001 ==> Read(writes)[..4] == [0, 0, 0, 1]
    ensures opcode == 0x7001 ==> Read(writes)[..4] == [1, 0, 0, 0]
    ensures opcode != 0x0001 && opcode != 0x7001 ==> Read(writes)[..|response|] == response
    ensures forall i, j :: 0 <= i < j < |writes| ==> writes[i].slot != writes[j].slot
  {
    SlotsOfResponse(d, opcode, response, status, head, count, depth, writes);
    hide Slot, Answered;
    FlatIsWindow(response, writes[..|writes| - 1]);
    ResponseRead(d, opcode, response, status, writes);
  }

  lemma SlotsOfResponse(d: Bytes, opcode: u16, response: Bytes, status: nat, head: nat, count: nat, depth: Depth,
                        writes: seq<Write>)
    requires IsDescriptor(d) && status < 0x1_0000 && head < depth && count <= depth
    requires IsResponse(writes, d, opcode, response, status, head, count, depth)
    ensures forall i, j :: 0 <= i < j < |writes| ==> writes[i].slot != writes[j].slot
  {
    var n := |writes| - 1;
    Unique(head, depth, 0, head);
    assert Slot(head, 0, depth) == head;
    forall i, j | 0 <= i < j < |writes|
      ensures writes[i].slot != writes[j].slot
    {
      if j == n {
        SlotsDiffer(head, 0, i + 1, depth);
      } else {
        SlotsDiffer(head, i + 1, j + 1, depth);
      }
    }
  }

  lemma ResponseRead(d: Bytes, opcode: u16, response: Bytes, status: nat, writes: seq<Write>)
    requires IsDescriptor(d) && status < 0x1_0000 && writes != []
    requires writes[|writes| - 1].bytes == Answered(d, opcode, response, status)
    requires Flat(writes[..|writes| - 1]) == Window(response, 24, Before(|writes|)) && |response| <= Before(|writes|)
    ensures |Read(writes)| >= |response| && |Read(writes)| >= 4
    ensures ByWord(opcode) ==> Read(writes)[..4] == Word(opcode)
    ensures !ByWord(opcode) ==> Read(writes)[..|response|] == response
  {
    var first := Min(|response|, 24);
    var a := Answered(d, opcode, response, status)[8..];
    if ByWord(opcode) {
      assert a[..4] == Word(opcode);
    } else {
      assert a[..first] == response[..first];
    }
    if |response| > 24 {
      assert Window(response, 24, Before(|writes|))[..|response| - 24] == response[24..];
      assert response == response[..24] + response[24..];
    }
  }
}
