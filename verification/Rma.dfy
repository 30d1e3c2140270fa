/** Outstanding READ and WRITE requests of a device and the responses that complete them.

    A request keeps only a summary of what it has accepted: byte counts, a counter of DMA writes
    in flight, the transaction numbers seen and a sorted list of reserved intervals.  Beside it the
    model keeps the list of DMA writes issued for the request, which the device never looks at. */
module Rma {
  import opened Optional
  import opened Words

  const WRITE: u8 := 3
  const READ: u8 := 6

  datatype Range = Range(first: u32, second: u32)

  datatype Response = Response(ssn: u32, offset: u32, length: u32, bytes: seq<u8>)

  datatype Pending = Pending(
    opcode: u8, jetty: u32, byteCount: u32, token: u32, address: u64,
    acceptedBytes: u32, completedBytes: u32, responseDma: nat, failed: bool,
    tassns: map<u32, bool>, ranges: seq<Range>)

  datatype Outcome = InFlight | Placed | Lost

  /** One `WriteToken` call made for a response, and what became of it. */
  datatype Write = Write(ssn: u32, offset: u32, address: u64, bytes: seq<u8>, outcome: Outcome)

  datatype Transfer = Transfer(p: Pending, writes: seq<Write>)

  /** `std::lower_bound` on the first components: how many leading intervals start before `begin`. */
  function LowerBound(ranges: seq<Range>, begin: u32): (i: nat)
    ensures i <= |ranges|
    ensures forall j :: 0 <= j < i ==> ranges[j].first < begin
    ensures i < |ranges| ==> ranges[i].first >= begin
  {
    if ranges == [] || ranges[0].first >= begin then 0 else 1 + LowerBound(ranges[1..], begin)
  }

  /** The two neighbours of the insertion point leave room for `[begin, end)`. */
  predicate FitsBetween(ranges: seq<Range>, begin: u32, end: u32) {
    var next := LowerBound(ranges, begin);
    !(next < |ranges| && ranges[next].first < end) && !(next > 0 && ranges[next - 1].second > begin)
  }

  predicate Acceptable(p: Pending, r: Response) {
    && p.opcode == READ && !p.failed
    && |r.bytes| == r.length && r.length != 0
    && r.offset <= p.byteCount
    && r.length <= p.byteCount - r.offset
    && r.length <= p.byteCount - p.acceptedBytes
    && (p.byteCount != 0 ==> p.byteCount - 1 <= 0xFFFF_FFFF_FFFF_FFFF - p.address)
    && r.ssn !in p.tassns
    && FitsBetween(p.ranges, r.offset, r.offset + r.length)
  }

  function Insert(ranges: seq<Range>, r: Range): seq<Range> {
    var next := LowerBound(ranges, r.first);
    ranges[..next] + [r] + ranges[next..]
  }

  /** What the request remembers of an accepted response. */
  function Remember(p: Pending, r: Response): Pending
    requires 0 <= r.offset + r.length < 0x1_0000_0000 && 0 <= p.acceptedBytes + r.length < 0x1_0000_0000
  {
    p.(ranges := Insert(p.ranges, Range(r.offset, r.offset + r.length)),
       tassns := p.tassns[r.ssn := false],
       acceptedBytes := p.acceptedBytes + r.length,
       responseDma := p.responseDma + 1)
  }

  /** `ReceiveReadResponse` up to and including the DMA write it issues. */
  function Accept(t: Transfer, r: Response): Transfer
    requires Acceptable(t.p, r) && 0 <= t.p.acceptedBytes + r.length < 0x1_0000_0000
  {
    Transfer(Remember(t.p, r), t.writes + [Write(r.ssn, r.offset, t.p.address + r.offset, r.bytes, InFlight)])
  }

  /** The write for transaction `ssn` that is still in flight. */
  predicate IsLive(t: Transfer, i: nat, ssn: u32) {
    i < |t.writes| && t.writes[i].ssn == ssn && t.writes[i].outcome == InFlight
  }

  /** The DMA callback, up to the test for completion. */
  function Land(t: Transfer, i: nat, ok: bool): Transfer
    requires i < |t.writes| && t.p.responseDma > 0
    requires 0 <= t.p.completedBytes + |t.writes[i].bytes| < 0x1_0000_0000
  {
    var w := t.writes[i];
    var p := t.p.(responseDma := t.p.responseDma - 1);
    Transfer(
      if ok then p.(tassns := p.tassns[w.ssn := true], completedBytes := p.completedBytes + |w.bytes|)
      else p.(failed := true),
      t.writes[i := w.(outcome := if ok then Placed else Lost)])
  }

  predicate Terminal(p: Pending) {
    p.responseDma == 0 && (p.failed || p.completedBytes == p.byteCount)
  }

  const SUCCESS := 0
  const SEND_FAILED := 1
  const REMOTE_FAILED := 5

  function Status(p: Pending): int { if p.failed then REMOTE_FAILED else SUCCESS }

  /** `ReceiveWriteAck`: an acknowledgement needs no DMA, so it is complete at once. */
  predicate AckAcceptable(p: Pending, r: Response) {
    && p.opcode == WRITE
    && r.length != 0 && r.ssn !in p.tassns
    && r.offset <= p.byteCount
    && r.length <= p.byteCount - r.offset
    && r.length <= p.byteCount - p.completedBytes
    && FitsBetween(p.ranges, r.offset, r.offset + r.length)
  }

  function Acknowledge(t: Transfer, r: Response): Transfer
    requires AckAcceptable(t.p, r) && 0 <= t.p.completedBytes + r.length < 0x1_0000_0000
  {
    t.(p := t.p.(ranges := Insert(t.p.ranges, Range(r.offset, r.offset + r.length)),
                 tassns := t.p.tassns[r.ssn := true],
                 completedBytes := t.p.completedBytes + r.length))
  }

  // ------------------------------------------------------------------ what the summary means

  predicate Sorted(ranges: seq<Range>, n: int) {
    && (forall i :: 0 <= i < |ranges| ==> ranges[i].first < ranges[i].second <= n)
    && (forall i, j :: 0 <= i < j < |ranges| ==> ranges[i].second <= ranges[j].first)
  }

  function Total(ranges: seq<Range>, from: nat): int
    decreases |ranges| - from
  {
    if from >= |ranges| then 0 else ranges[from].second - ranges[from].first + Total(ranges, from + 1)
  }

  function Bytes(ws: seq<Write>, only: set<Outcome>, from: nat): (n: nat)
    decreases |ws| - from
  {
    if from >= |ws| then 0
    else (if ws[from].outcome in only then |ws[from].bytes| else 0) + Bytes(ws, only, from + 1)
  }

  function Live(ws: seq<Write>, from: nat): nat
    decreases |ws| - from
  {
    if from >= |ws| then 0 else (if ws[from].outcome == InFlight then 1 else 0) + Live(ws, from + 1)
  }

  const ANY: set<Outcome> := {InFlight, Placed, Lost}

  predicate Covers(w: Write, k: int) { w.offset <= k < w.offset + |w.bytes| }

  /** Extents of two writes do not meet. */
  predicate Apart(a: Write, b: Write) { a.offset + |a.bytes| <= b.offset || b.offset + |b.bytes| <= a.offset }

  predicate Separate(a: Write, b: Write) { Apart(a, b) && a.ssn != b.ssn }

  predicate Matches(w: Write, r: Range) { w.offset == r.first && w.offset + |w.bytes| == r.second }

  /** Every byte of the buffer is written exactly once, successfully, at its own address. */
  ghost predicate Exact(t: Transfer) {
    forall k :: 0 <= k < t.p.byteCount ==> WrittenOnce(t, k)
  }

  ghost predicate WrittenOnce(t: Transfer, k: int) { exists i :: ExactlyAt(t, i, k) }

  ghost predicate ExactlyAt(t: Transfer, i: int, k: int) {
    && 0 <= i < |t.writes| && Covers(t.writes[i], k)
    && t.writes[i].outcome == Placed
    && t.writes[i].address + (k - t.writes[i].offset) == t.p.address + k
    && forall j :: 0 <= j < |t.writes| && Covers(t.writes[j], k) ==> j == i
  }

  /** The acknowledged intervals are disjoint and leave no gap. */
  ghost predicate Tiled(p: Pending) {
    && Sorted(p.ranges, p.byteCount)
    && forall k :: 0 <= k < p.byteCount ==> InSome(p.ranges, 0, k)
  }

  predicate InSome(ranges: seq<Range>, from: nat, k: int) {
    exists i :: from <= i < |ranges| && ranges[i].first <= k < ranges[i].second
  }

  ghost predicate Wellformed(t: Transfer) {
    var p := t.p;
    && Sorted(p.ranges, p.byteCount)
    && (p.opcode == READ || p.opcode == WRITE)
    && (p.opcode == WRITE ==>
          t.writes == [] && p.responseDma == 0 && p.completedBytes == Total(p.ranges, 0) && p.acceptedBytes == 0)
    && (p.opcode == READ ==> ReadWellformed(t))
  }

  /** The summary of a READ says what the list of writes says: its counters are sums over the list ... */
  ghost predicate ReadWellformed(t: Transfer) { Counted(t) && Linked(t) }

  ghost predicate Counted(t: Transfer) {
    && t.p.acceptedBytes == Total(t.p.ranges, 0) == Bytes(t.writes, ANY, 0)
    && t.p.completedBytes == Bytes(t.writes, {Placed}, 0)
    && t.p.responseDma == Live(t.writes, 0)
  }

  /** ... and its intervals and transaction numbers are those of the list. */
  ghost predicate Linked(t: Transfer) {
    && (forall i {:trigger WriteWellformed(t.p, t.writes[i])} :: 0 <= i < |t.writes| ==>
              WriteWellformed(t.p, t.writes[i]))
    && (forall i, j {:trigger Separate(t.writes[i], t.writes[j])} :: 0 <= i < j < |t.writes| ==>
              Separate(t.writes[i], t.writes[j]))
    && (forall r :: r in t.p.ranges ==> Reserved(t.writes, r))
    && (forall s :: s in t.p.tassns ==> Used(t.writes, s))
  }

  predicate Reserved(ws: seq<Write>, r: Range) { exists i :: 0 <= i < |ws| && Matches(ws[i], r) }

  predicate Used(ws: seq<Write>, ssn: u32) { exists i :: 0 <= i < |ws| && ws[i].ssn == ssn }

  ghost predicate WriteWellformed(p: Pending, w: Write) {
    && 0 < |w.bytes| && w.offset + |w.bytes| <= p.byteCount
    && Range(w.offset, w.offset + |w.bytes|) in p.ranges
    && w.address == p.address + w.offset
    && w.ssn in p.tassns && (p.tassns[w.ssn] <==> w.outcome == Placed)
    && (w.outcome == Lost ==> p.failed)
  }
}
