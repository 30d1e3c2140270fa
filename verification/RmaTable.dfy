/** The table of outstanding RMA requests, with the handlers that change it in place.

    `CompleteSq` and everything it re-enters is the environment: a completion is recorded in
    `done`, and the work a DMA callback still has to do afterwards is a method of its own. */
module RmaTable {
  import opened Words
  import opened Rma
  import opened RmaProof

  /** Names one DMA write issued for a response. */
  datatype Tag = Tag(jetty: u32, request: nat, ssn: u32)

  datatype Done = Done(t: Transfer, status: int)

  /** `std::lower_bound`: halving finds the point because the intervals are sorted. */
  method FindLowerBound(ranges: seq<Range>, begin: u32, ghost n: int) returns (next: nat)
    requires Sorted(ranges, n)
    ensures next == LowerBound(ranges, begin)
  {
    var count := |ranges|;
    next := 0;
    while count > 0
      invariant 0 <= count <= |ranges| - next
      invariant forall j :: 0 <= j < next ==> ranges[j].first < begin
      invariant forall j :: next + count <= j < |ranges| ==> ranges[j].first >= begin
    {
      var step := count / 2;
      var middle := next + step;
      if ranges[middle].first < begin {
        assert forall j :: 0 <= j < middle ==> ranges[j].second <= ranges[middle].first;
        next := middle + 1;
        count := count - step - 1;
      } else {
        assert forall j :: middle < j < |ranges| ==> ranges[middle].second <= ranges[j].first;
        count := step;
      }
    }
    LowerBoundUnique(ranges, begin, next);
  }

  lemma {:induction false} LowerBoundUnique(ranges: seq<Range>, begin: u32, k: nat)
    requires k <= |ranges| && forall j :: 0 <= j < k ==> ranges[j].first < begin
    requires k < |ranges| ==> ranges[k].first >= begin
    ensures k == LowerBound(ranges, begin)
  {
    if k > 0 {
      LowerBoundUnique(ranges[1..], begin, k - 1);
    }
  }

  // ------------------------------------------------------------------ what the table keeps

  ghost predicate NothingInFlight(t: Transfer) {
    forall i :: 0 <= i < |t.writes| ==> t.writes[i].outcome != InFlight
  }

  /** What a completed request guarantees to the guest. */
  ghost predicate Settled(d: Done) {
    && NothingInFlight(d.t)
    && (d.status == SUCCESS && d.t.p.opcode == READ ==> Exact(d.t))
    && (d.status == SUCCESS && d.t.p.opcode == WRITE ==> Tiled(d.t.p))
  }

  /** Numbers are never reused, so no request is completed twice. */
  ghost predicate Requests(pending: map<nat, Transfer>, done: map<nat, Done>, next: nat) {
    && (forall id :: id in pending ==> id < next && id !in done && Wellformed(pending[id]))
    && (forall id :: id in done ==> id < next && Settled(done[id]))
  }

  ghost predicate SsnLive(x: Transfer, ssn: u32) { exists i: nat :: IsLive(x, i, ssn) }

  ghost predicate Flying(x: Transfer, t: Tag) { x.p.opcode == READ && x.p.jetty == t.jetty && SsnLive(x, t.ssn) }

  /** The callbacks outstanding at the DMA layer are those of the writes in flight of pending requests. */
  ghost predicate Flights(pending: map<nat, Transfer>, live: set<Tag>) {
    forall t :: t in live <==> t.request in pending && Flying(pending[t.request], t)
  }

  /** A callback that is returning belongs to a finished request or to a transaction already seen. */
  ghost predicate Departed(pending: map<nat, Transfer>, done: map<nat, Done>, leaving: set<Tag>) {
    forall t :: t in leaving ==> t.request in done || (t.request in pending && t.ssn in pending[t.request].p.tassns)
  }

  function OfJetty(tags: set<Tag>, jetty: u32): set<Tag> { set t | t in tags && t.jetty == jetty }

  /** `read_response_dma_` counts, per queue, the callbacks that have not released it. */
  ghost predicate Leases(readDma: map<u32, nat>, tags: set<Tag>) {
    forall j: u32 :: Lease(readDma, tags, j)
  }

  ghost predicate Lease(readDma: map<u32, nat>, tags: set<Tag>, j: u32) {
    if j in readDma then readDma[j] == |OfJetty(tags, j)| > 0 else OfJetty(tags, j) == {}
  }

  lemma FlyingAccept(x: Transfer, r: Response, t: Tag)
    requires Wellformed(x) && Acceptable(x.p, r) && x.p.acceptedBytes + r.length <= x.p.byteCount
    ensures Flying(Accept(x, r), t) <==> Flying(x, t) || (x.p.jetty == t.jetty && t.ssn == r.ssn)
  {
    var x' := Accept(x, r);
    assert x'.writes[|x.writes|].ssn == r.ssn;
    if t.ssn == r.ssn {
      assert IsLive(x', |x.writes|, r.ssn);
    }
    if SsnLive(x, t.ssn) {
      var i: nat :| IsLive(x, i, t.ssn);
      assert IsLive(x', i, t.ssn);
    }
    if SsnLive(x', t.ssn) {
      var i: nat :| IsLive(x', i, t.ssn);
      assert i < |x.writes| ==> IsLive(x, i, t.ssn);
    }
  }

  lemma FlyingLand(x: Transfer, i: nat, ssn: u32, ok: bool, t: Tag)
    requires Wellformed(x) && x.p.opcode == READ && IsLive(x, i, ssn)
    requires x.p.responseDma > 0 && x.p.completedBytes + |x.writes[i].bytes| <= x.p.byteCount
    ensures Flying(Land(x, i, ok), t) <==> Flying(x, t) && t.ssn != ssn
  {
    var x' := Land(x, i, ok);
    if SsnLive(x, t.ssn) && t.ssn != ssn {
      var j: nat :| IsLive(x, j, t.ssn);
      assert IsLive(x', j, t.ssn);
    }
    if SsnLive(x', t.ssn) {
      var j: nat :| IsLive(x', j, t.ssn);
      assert IsLive(x, j, t.ssn);
      assert Separate(x.writes[i], x.writes[j]) || Separate(x.writes[j], x.writes[i]) || i == j;
    }
  }

  lemma FreshTag(x: Transfer, ssn: u32, t: Tag)
    requires Wellformed(x) && ssn !in x.p.tassns && t.ssn == ssn
    ensures !Flying(x, t)
  {
    if x.p.opcode == READ {
      forall i: nat | i < |x.writes|
        ensures x.writes[i].ssn != ssn
      {
        assert WriteWellformed(x.p, x.writes[i]);
      }
    }
  }

  lemma LeaseAdded(readDma: map<u32, nat>, tags: set<Tag>, t: Tag)
    requires Leases(readDma, tags) && t !in tags
    ensures Leases(readDma[t.jetty := (if t.jetty in readDma then readDma[t.jetty] else 0) + 1], tags + {t})
  {
    var readDma' := readDma[t.jetty := (if t.jetty in readDma then readDma[t.jetty] else 0) + 1];
    forall j: u32
      ensures Lease(readDma', tags + {t}, j)
    {
      assert Lease(readDma, tags, j);
      assert OfJetty(tags + {t}, j) == if j == t.jetty then OfJetty(tags, j) + {t} else OfJetty(tags, j);
    }
  }

  lemma LeaseRemoved(readDma: map<u32, nat>, tags: set<Tag>, t: Tag)
    requires Leases(readDma, tags) && t in tags
    ensures t.jetty in readDma && readDma[t.jetty] > 0
    ensures Leases(if readDma[t.jetty] == 1 then readDma - {t.jetty} else readDma[t.jetty := readDma[t.jetty] - 1],
                   tags - {t})
  {
    assert Lease(readDma, tags, t.jetty) && t in OfJetty(tags, t.jetty);
    var readDma' := if readDma[t.jetty] == 1 then readDma - {t.jetty} else readDma[t.jetty := readDma[t.jetty] - 1];
    forall j: u32
      ensures Lease(readDma', tags - {t}, j)
    {
      assert Lease(readDma, tags, j);
      assert OfJetty(tags - {t}, j) == if j == t.jetty then OfJetty(tags, j) - {t} else OfJetty(tags, j);
    }
  }

  lemma EndedIsSettled(x: Transfer)
    requires Wellformed(x) && x.p.opcode == READ && Terminal(x.p)
    ensures Settled(Done(x, Status(x.p))) && forall t :: !Flying(x, t)
  {
    NoneLive(x.writes, 0);
    if Status(x.p) == SUCCESS {
      SuccessIsExact(x);
    }
  }

  lemma FailedIsSettled(x: Transfer, status: int)
    requires Wellformed(x) && x.p.responseDma == 0 && status != SUCCESS
    ensures Settled(Done(x, status)) && forall t :: !Flying(x, t)
  {
    NoneLive(x.writes, 0);
  }

  lemma FlyingFailed(x: Transfer)
    ensures forall t :: Flying(x.(p := x.p.(failed := true)), t) <==> Flying(x, t)
  {
    var x' := x.(p := x.p.(failed := true));
    forall t
      ensures Flying(x', t) <==> Flying(x, t)
    {
      assert forall i: nat :: IsLive(x', i, t.ssn) <==> IsLive(x, i, t.ssn);
    }
  }

  lemma FlightsUpdate(pending: map<nat, Transfer>, live: set<Tag>, id: nat, x: Transfer, live': set<Tag>)
    requires Flights(pending, live)
    requires forall u: Tag :: u.request == id ==> (u in live' <==> Flying(x, u))
    requires forall u: Tag :: u.request != id ==> (u in live' <==> u in live)
    ensures Flights(pending[id := x], live')
  {
    hide Flying;
  }

  lemma FlightsRemove(pending: map<nat, Transfer>, live: set<Tag>, id: nat, live': set<Tag>)
    requires Flights(pending, live)
    requires forall u :: u in live' <==> u.request != id && u in live
    ensures Flights(pending - {id}, live')
  {
    hide Flying;
  }

  /** A request changes in place, and `t` may start to leave. */
  lemma KeepOpen(pending: map<nat, Transfer>, done: map<nat, Done>, next: nat, leaving: set<Tag>, id: nat, x: Transfer)
    requires Requests(pending, done, next) && Departed(pending, done, leaving)
    requires id in pending && Wellformed(x) && pending[id].p.tassns.Keys <= x.p.tassns.Keys
    ensures Requests(pending[id := x], done, next) && Departed(pending[id := x], done, leaving)
    ensures forall t: Tag :: t.request == id && t.ssn in x.p.tassns ==> Departed(pending[id := x], done, leaving + {t})
  {
    hide Wellformed, Settled;
  }

  /** A request is handed to CompleteSq, and `t` may start to leave. */
  lemma Close(pending: map<nat, Transfer>, done: map<nat, Done>, next: nat, leaving: set<Tag>, id: nat, d: Done)
    requires Requests(pending, done, next) && Departed(pending, done, leaving)
    requires id in pending && Settled(d)
    ensures Requests(pending - {id}, done[id := d], next) && Departed(pending - {id}, done[id := d], leaving)
    ensures forall t: Tag :: t.request == id ==> Departed(pending - {id}, done[id := d], leaving + {t})
  {
    hide Wellformed, Settled;
  }

  /** What accepting a response does to the table. */
  lemma AcceptInTable(pending: map<nat, Transfer>, done: map<nat, Done>, next: nat,
                      live: set<Tag>, leaving: set<Tag>, id: nat, r: Response)
    requires Requests(pending, done, next) && Flights(pending, live) && Departed(pending, done, leaving)
    requires id in pending && Acceptable(pending[id].p, r)
    ensures pending[id].p.acceptedBytes + r.length <= pending[id].p.byteCount
    ensures var pending' := pending[id := Accept(pending[id], r)];
            var t := Tag(pending[id].p.jetty, id, r.ssn);
            && Requests(pending', done, next) && Flights(pending', live + {t}) && Departed(pending', done, leaving)
            && t !in live && t !in leaving
  {
    var x := pending[id];
    AcceptKeeps(x, r);
    AcceptFlights(pending, live, id, r);
    KeepOpen(pending, done, next, leaving, id, Accept(x, r));
    hide Wellformed, Settled, Flying, Flights, FitsBetween, Insert, Requests;
  }

  lemma AcceptFlights(pending: map<nat, Transfer>, live: set<Tag>, id: nat, r: Response)
    requires Flights(pending, live) && id in pending && Wellformed(pending[id]) && Acceptable(pending[id].p, r)
    requires pending[id].p.acceptedBytes + r.length <= pending[id].p.byteCount
    ensures Flights(pending[id := Accept(pending[id], r)], live + {Tag(pending[id].p.jetty, id, r.ssn)})
    ensures Tag(pending[id].p.jetty, id, r.ssn) !in live
  {
    var x := pending[id];
    var t := Tag(x.p.jetty, id, r.ssn);
    FreshTag(x, r.ssn, t);
    hide Accept;
    forall u: Tag | u.request == id
      ensures u in live + {t} <==> Flying(Accept(x, r), u)
    {
      FlyingAccept(x, r, u);
    }
    FlightsUpdate(pending, live, id, Accept(x, r), live + {t});
  }

  lemma LandFlights(pending: map<nat, Transfer>, live: set<Tag>, t: Tag, i: nat, ok: bool)
    requires Flights(pending, live) && t in live && Wellformed(pending[t.request])
    requires IsLive(pending[t.request], i, t.ssn)
    ensures pending[t.request].p.responseDma > 0
    ensures pending[t.request].p.completedBytes + |pending[t.request].writes[i].bytes| <= pending[t.request].p.byteCount
    ensures var x' := Land(pending[t.request], i, ok);
            && Wellformed(x') && x'.p.opcode == READ && t.ssn in x'.p.tassns
            && Flights(pending[t.request := x'], live - {t})
            && (Terminal(x'.p) ==> Flights(pending - {t.request}, live - {t}) && Settled(Done(x', Status(x'.p))))
  {
    var x := pending[t.request];
    assert Flying(x, t);
    LandKeeps(x, i, t.ssn, ok);
    var x' := Land(x, i, ok);
    assert t.ssn in x.p.tassns by {
      assert WriteWellformed(x.p, x.writes[i]);
    }
    forall u: Tag | u.request == t.request
      ensures u in live - {t} <==> Flying(x', u)
    {
      FlyingLand(x, i, t.ssn, ok, u);
    }
    FlightsUpdate(pending, live, t.request, x', live - {t});
    if Terminal(x'.p) {
      EndedIsSettled(x');
      hide Flying, Wellformed, Settled;
      assert forall u: Tag :: u in live - {t} ==> u.request != t.request;
      FlightsRemove(pending, live, t.request, live - {t});
    }
  }

  /** What a returning DMA callback does to the table: the request stays open or is completed. */
  lemma LandInTable(pending: map<nat, Transfer>, done: map<nat, Done>, next: nat,
                    live: set<Tag>, leaving: set<Tag>, t: Tag, i: nat, ok: bool)
    requires Requests(pending, done, next) && Flights(pending, live) && Departed(pending, done, leaving)
    requires t in live && IsLive(pending[t.request], i, t.ssn)
    ensures pending[t.request].p.responseDma > 0
    ensures pending[t.request].p.completedBytes + |pending[t.request].writes[i].bytes| <= pending[t.request].p.byteCount
    ensures var x' := Land(pending[t.request], i, ok);
            && Wellformed(x') && x'.p.opcode == READ
            && (Terminal(x'.p) ==>
                  && Requests(pending - {t.request}, done[t.request := Done(x', Status(x'.p))], next)
                  && Flights(pending - {t.request}, live - {t})
                  && Departed(pending - {t.request}, done[t.request := Done(x', Status(x'.p))], leaving + {t}))
            && (!Terminal(x'.p) ==>
                  && Requests(pending[t.request := x'], done, next)
                  && Flights(pending[t.request := x'], live - {t})
                  && Departed(pending[t.request := x'], done, leaving + {t}))
  {
    LandFlights(pending, live, t, i, ok);
    hide Wellformed, Settled, Flying, Flights, Departed;
    var x' := Land(pending[t.request], i, ok);
    if Terminal(x'.p) {
      Close(pending, done, next, leaving, t.request, Done(x', Status(x'.p)));
    } else {
      assert t.ssn in x'.p.tassns;
      LandTassns(pending[t.request], i, ok);
      KeepOpen(pending, done, next, leaving, t.request, x');
    }
    hide Requests;
  }

  lemma LandTassns(x: Transfer, i: nat, ok: bool)
    requires i < |x.writes| && x.p.responseDma > 0 && 0 <= x.p.completedBytes + |x.writes[i].bytes| < 0x1_0000_0000
    ensures x.p.tassns.Keys <= Land(x, i, ok).p.tassns.Keys
  {
  }

  lemma TagLeaves(live: set<Tag>, leaving: set<Tag>, t: Tag)
    requires live !! leaving && t in live
    ensures (live - {t}) !! (leaving + {t}) && (live - {t}) + (leaving + {t}) == live + leaving
  {
  }

  lemma LiveRequest(pending: map<nat, Transfer>, done: map<nat, Done>, next: nat, live: set<Tag>, t: Tag)
    requires Requests(pending, done, next) && Flights(pending, live) && t in live
    ensures t.request in pending && Wellformed(pending[t.request]) && pending[t.request].p.opcode == READ
    ensures t.request !in done
  {
  }

  /** Closing a request with an error once nothing of it is in flight. */
  lemma CloseInTable(pending: map<nat, Transfer>, done: map<nat, Done>, next: nat,
                     live: set<Tag>, leaving: set<Tag>, id: nat, status: int)
    requires Requests(pending, done, next) && Flights(pending, live) && Departed(pending, done, leaving)
    requires id in pending && pending[id].p.responseDma == 0 && status != SUCCESS
    ensures var x := pending[id].(p := pending[id].p.(failed := true));
            var done' := done[id := Done(x, status)];
            Requests(pending - {id}, done', next) && Flights(pending - {id}, live)
                && Departed(pending - {id}, done', leaving)
  {
    var x := pending[id].(p := pending[id].p.(failed := true));
    FailKeeps(pending[id]);
    FailedIsSettled(x, status);
    FlyingFailed(pending[id]);
    Close(pending, done, next, leaving, id, Done(x, status));
    hide Wellformed, Settled, Flying, Requests, Departed;
  }

  lemma FailInTable(pending: map<nat, Transfer>, done: map<nat, Done>, next: nat,
                    live: set<Tag>, leaving: set<Tag>, id: nat)
    requires Requests(pending, done, next) && Flights(pending, live) && Departed(pending, done, leaving)
    requires id in pending
    ensures var pending' := pending[id := pending[id].(p := pending[id].p.(failed := true))];
            Requests(pending', done, next) && Flights(pending', live) && Departed(pending', done, leaving)
  {
    FailKeeps(pending[id]);
    FlyingFailed(pending[id]);
    KeepOpen(pending, done, next, leaving, id, pending[id].(p := pending[id].p.(failed := true)));
    hide Wellformed, Settled, Flying, Requests, Departed;
  }

  lemma AcceptJetty(x: Transfer, r: Response)
    requires Acceptable(x.p, r) && 0 <= x.p.acceptedBytes + r.length < 0x1_0000_0000
    ensures Accept(x, r).p.jetty == x.p.jetty
  {
  }

  /** A transaction number names at most one write of a request. */
  method FindWrite(x: Transfer, ssn: u32, ghost i: nat) returns (at: nat)
    requires Wellformed(x) && x.p.opcode == READ && IsLive(x, i, ssn)
    ensures at == i
  {
    at := 0;
    while x.writes[at].ssn != ssn
      invariant at <= i
      decreases i - at
    {
      at := at + 1;
    }
    assert at < i ==> Separate(x.writes[at], x.writes[i]);
  }

  /** `finish_response`, on one request, up to the test for completion. */
  method LandOn(x: Transfer, ssn: u32, ghost i: nat, ok: bool) returns (x': Transfer)
    requires Wellformed(x) && x.p.opcode == READ && IsLive(x, i, ssn)
    ensures x.p.responseDma > 0 && x.p.completedBytes + |x.writes[i].bytes| <= x.p.byteCount
    ensures x' == Land(x, i, ok)
  {
    var at := FindWrite(x, ssn, i);
    LandKeeps(x, i, ssn, ok);
    var w := x.writes[at];
    var p := x.p.(responseDma := x.p.responseDma - 1);
    if ok {
      p := p.(tassns := p.tassns[ssn := true], completedBytes := p.completedBytes + |w.bytes|);
    } else {
      p := p.(failed := true);
    }
    x' := Transfer(p, x.writes[at := w.(outcome := if ok then Placed else Lost)]);
  }

  method AdmitAck(x: Transfer, r: Response) returns (accepted: bool, x': Transfer)
    requires Wellformed(x)
    ensures accepted == AckAcceptable(x.p, r)
    ensures accepted ==> x.p.completedBytes + r.length <= x.p.byteCount && x' == Acknowledge(x, r)
  {
    hide ReadWellformed, LowerBound, Total;
    var p := x.p;
    x' := x;
    if p.opcode != WRITE || r.length == 0 || r.ssn in p.tassns || r.offset > p.byteCount ||
       r.length > p.byteCount - r.offset || r.length > p.byteCount - p.completedBytes {
      return false, x;
    }
    var begin, end := r.offset, r.offset + r.length;
    var at := FindLowerBound(p.ranges, begin, p.byteCount);
    if (at < |p.ranges| && p.ranges[at].first < end) || (at > 0 && p.ranges[at - 1].second > begin) {
      return false, x;
    }
    AcknowledgeBound(x, r);
    x' := x.(p := p.(ranges := p.ranges[..at] + [Range(begin, end)] + p.ranges[at..],
                     tassns := p.tassns[r.ssn := true], completedBytes := p.completedBytes + r.length));
    accepted := true;
  }

  lemma AckInTable(pending: map<nat, Transfer>, done: map<nat, Done>, next: nat,
                   live: set<Tag>, leaving: set<Tag>, id: nat, r: Response)
    requires Requests(pending, done, next) && Flights(pending, live) && Departed(pending, done, leaving)
    requires id in pending && AckAcceptable(pending[id].p, r)
    ensures pending[id].p.completedBytes + r.length <= pending[id].p.byteCount
    ensures var x := Acknowledge(pending[id], r);
            && (x.p.completedBytes != x.p.byteCount ==>
                  && Requests(pending[id := x], done, next) && Flights(pending[id := x], live)
                  && Departed(pending[id := x], done, leaving))
            && (x.p.completedBytes == x.p.byteCount ==>
                  && Requests(pending - {id}, done[id := Done(x, SUCCESS)], next) && Flights(pending - {id}, live)
                  && Departed(pending - {id}, done[id := Done(x, SUCCESS)], leaving))
  {
    AcknowledgeKeeps(pending[id], r);
    var x := Acknowledge(pending[id], r);
    assert x.p.opcode == WRITE && x.writes == [] && pending[id].p.tassns.Keys <= x.p.tassns.Keys;
    FlightsUpdate(pending, live, id, x, live);
    FlightsRemove(pending, live, id, live);
    if x.p.completedBytes == x.p.byteCount {
      AcknowledgedIsTiled(x);
      hide Wellformed, Flying, Flights, Acknowledge, Requests, Departed;
      Close(pending, done, next, leaving, id, Done(x, SUCCESS));
    } else {
      hide Flying, Flights, Acknowledge, Requests, Departed;
      KeepOpen(pending, done, next, leaving, id, x);
    }
  }

  /** The tests and the insertion of `ReceiveReadResponse`, on one request. */
  method Admit(x: Transfer, r: Response) returns (accepted: bool, x': Transfer)
    requires Wellformed(x)
    ensures accepted == Acceptable(x.p, r)
    ensures accepted ==> x.p.acceptedBytes + r.length <= x.p.byteCount && x' == Accept(x, r)
    ensures !accepted ==> x' == x
  {
    hide ReadWellformed, LowerBound;
    var p := x.p;
    x' := x;
    if p.opcode != READ || p.failed || |r.bytes| != r.length || r.length == 0 ||
       r.offset > p.byteCount || r.length > p.byteCount - r.offset || r.length > p.byteCount - p.acceptedBytes ||
       (p.byteCount != 0 && p.byteCount - 1 > 0xFFFF_FFFF_FFFF_FFFF - p.address) || r.ssn in p.tassns {
      return false, x;
    }
    var begin, end := r.offset, r.offset + r.length;
    var at := FindLowerBound(p.ranges, begin, p.byteCount);
    if (at < |p.ranges| && p.ranges[at].first < end) || (at > 0 && p.ranges[at - 1].second > begin) {
      return false, x;
    }
    AcceptKeeps(x, r);
    x' := Transfer(p.(ranges := p.ranges[..at] + [Range(begin, end)] + p.ranges[at..],
                      tassns := p.tassns[r.ssn := false],
                      acceptedBytes := p.acceptedBytes + r.length,
                      responseDma := p.responseDma + 1),
                   x.writes + [Write(r.ssn, begin, p.address + begin, r.bytes, InFlight)]);
    accepted := true;
  }

  // ------------------------------------------------------------------ the handlers

  class Table {
    var pending: map<nat, Transfer>
    var next: nat                       // next_rma_request_
    var readDma: map<u32, nat>          // read_response_dma_
    var errors: nat
    ghost var live: set<Tag>            // DMA callbacks not yet called
    ghost var leaving: set<Tag>         // callbacks called that have not yet released their queue
    ghost var done: map<nat, Done>      // requests handed to CompleteSq

    ghost predicate Valid()
      reads this
    {
      && Requests(pending, done, next) && Flights(pending, live) && Departed(pending, done, leaving)
      && live !! leaving && Leases(readDma, live + leaving)
    }

    constructor ()
      ensures Valid() && pending == map[] && done == map[]
    {
      pending, next, readDma, errors := map[], 1, map[], 0;
      live, leaving, done := {}, {}, map[];
      new;
      assert forall j: u32 :: OfJetty({}, j) == {};
      assert forall j: u32 :: Lease(map[], {}, j);
    }

    /** A WQE becomes an outstanding request under a number never used before. */
    method Start(opcode: u8, jetty: u32, byteCount: u32, token: u32, address: u64) returns (id: nat)
      requires Valid() && (opcode == READ || opcode == WRITE)
      modifies this
      ensures Valid()
      ensures id !in old(pending) && id !in done
      ensures pending == old(pending)[id := Transfer(Pending(opcode, jetty, byteCount, token, address, 0, 0, 0, false,
                                                             map[], []), [])]
      ensures done == old(done) && live == old(live) && leaving == old(leaving) && errors == old(errors)
    {
      id := next;
      next := next + 1;
      var x := Transfer(Pending(opcode, jetty, byteCount, token, address, 0, 0, 0, false, map[], []), []);
      assert forall t :: !Flying(x, t);
      pending := pending[id := x];
    }

    /** A response is taken exactly when the request is open and the response fits; otherwise it
        changes nothing but the error count. */
    method ReceiveReadResponse(id: nat, r: Response) returns (accepted: bool)
      requires Valid()
      modifies this
      ensures Valid()
      ensures accepted == (id in old(pending) && Acceptable(old(pending)[id].p, r))
      ensures !accepted ==> errors == old(errors) + 1 && pending == old(pending) && live == old(live)
      ensures accepted ==>
                && old(pending)[id].p.acceptedBytes + r.length <= old(pending)[id].p.byteCount
                && pending == old(pending)[id := Accept(old(pending)[id], r)]
                && live == old(live) + {Tag(old(pending)[id].p.jetty, id, r.ssn)} && errors == old(errors)
      ensures done == old(done) && leaving == old(leaving) && next == old(next)
    {
      hide Wellformed, Acceptable, Settled, Flying, Accept;
      accepted := false;
      if id in pending {
        var x;
        accepted, x := Admit(pending[id], r);
        if accepted {
          var t := Tag(x.p.jetty, id, r.ssn);
          AcceptJetty(pending[id], r);
          AcceptInTable(pending, done, next, live, leaving, id, r);
          LeaseAdded(readDma, live + leaving, t);
          pending := pending[id := x];
          readDma := readDma[x.p.jetty := (if x.p.jetty in readDma then readDma[x.p.jetty] else 0) + 1];
          live := live + {t};
          assert live + leaving == old(live + leaving) + {t};
        }
      }
      if !accepted {
        errors := errors + 1;
      }
    }

    /** The DMA layer calls each callback once.  The request is completed by this call exactly when
        nothing of it is left in flight and it has failed or has all its bytes. */
    method FinishResponse(t: Tag, ghost i: nat, ok: bool) returns (completed: bool)
      requires Valid() && t in live && IsLive(pending[t.request], i, t.ssn)
      modifies this
      ensures Valid()
      ensures old(pending)[t.request].p.responseDma > 0
      ensures old(pending)[t.request].p.completedBytes + |old(pending)[t.request].writes[i].bytes| < 0x1_0000_0000
      ensures var x := Land(old(pending)[t.request], i, ok);
              && completed == (x.p.responseDma == 0 && (x.p.failed || x.p.completedBytes == x.p.byteCount))
              && (completed ==>
                    && pending == old(pending) - {t.request}
                    && done == old(done)[t.request := Done(x, if x.p.failed then 5 else 0)])
              && (!completed ==> pending == old(pending)[t.request := x] && done == old(done))
      ensures t.request !in old(done)
      ensures live == old(live) - {t} && leaving == old(leaving) + {t} && next == old(next)
      ensures errors == old(errors) + if ok then 0 else 1
    {
      LiveRequest(pending, done, next, live, t);
      hide Wellformed, Settled, Flying, Requests, Departed, Flights, Leases, Land, IsLive, Terminal, Status, Total;
      LandInTable(pending, done, next, live, leaving, t, i, ok);
      var x := LandOn(pending[t.request], t.ssn, i, ok);
      TagLeaves(live, leaving, t);
      live, leaving := live - {t}, leaving + {t};
      completed := Store(t.request, x);
      if !ok {
        errors := errors + 1;
      }
    }

    /** The request waits for more, or is handed to CompleteSq. */
    method Store(id: nat, x: Transfer) returns (completed: bool)
      modifies this`pending, this`done
      ensures completed == Terminal(x.p)
      ensures completed == (x.p.responseDma == 0 && (x.p.failed || x.p.completedBytes == x.p.byteCount))
      ensures Status(x.p) == if x.p.failed then 5 else 0
      ensures pending == if completed then old(pending) - {id} else old(pending)[id := x]
      ensures done == if completed then old(done)[id := Done(x, Status(x.p))] else old(done)
    {
      if x.p.responseDma != 0 || (!x.p.failed && x.p.completedBytes != x.p.byteCount) {
        pending := pending[id := x];
        completed := false;
      } else {
        pending := pending - {id};
        done := done[id := Done(x, if x.p.failed then REMOTE_FAILED else SUCCESS)];
        completed := true;
      }
    }

    /** The last thing the callback does, after the completion it may have published. */
    method ReleaseResponseDma(t: Tag)
      requires Valid() && t in leaving
      modifies this
      ensures Valid()
      ensures leaving == old(leaving) - {t}
      ensures pending == old(pending) && done == old(done) && live == old(live) && next == old(next)
          && errors == old(errors)
    {
      LeaseRemoved(readDma, live + leaving, t);
      var left := readDma[t.jetty] - 1;
      readDma := if left == 0 then readDma - {t.jetty} else readDma[t.jetty := left];
      leaving := leaving - {t};
      assert live + leaving == old(live + leaving) - {t};
    }

    /** A remote error fails the request, but completes it only when no DMA of it is in flight. */
    method ReceiveError(id: nat)
      requires Valid()
      modifies this
      ensures Valid()
      ensures id !in old(pending) ==> errors == old(errors) + 1 && pending == old(pending) && done == old(done)
      ensures id in old(pending) ==>
                var x := old(pending)[id].(p := old(pending)[id].p.(failed := true));
                && errors == old(errors)
                && (x.p.responseDma > 0 ==> pending == old(pending)[id := x] && done == old(done))
                && (x.p.responseDma == 0 ==>
                      pending == old(pending) - {id} && done == old(done)[id := Done(x, REMOTE_FAILED)])
      ensures id in old(pending) ==> id !in old(done)
      ensures live == old(live) && leaving == old(leaving) && next == old(next)
    {
      hide Wellformed, Settled, Flying;
      if id !in pending {
        errors := errors + 1;
        return;
      }
      var x := pending[id].(p := pending[id].p.(failed := true));
      if x.p.responseDma > 0 {
        FailInTable(pending, done, next, live, leaving, id);
        pending := pending[id := x];
        return;
      }
      CloseInTable(pending, done, next, live, leaving, id, REMOTE_FAILED);
      pending, done := pending - {id}, done[id := Done(x, REMOTE_FAILED)];
    }

    /** The request frame could not be sent: completed with an error at once unless DMA of it is in flight. */
    method ReadNotSent(id: nat)
      requires Valid()
      modifies this
      ensures Valid()
      ensures id !in old(pending) ==> pending == old(pending) && done == old(done)
      ensures id in old(pending) ==>
                var x := old(pending)[id].(p := old(pending)[id].p.(failed := true));
                && (x.p.responseDma > 0 ==> pending == old(pending)[id := x] && done == old(done))
                && (x.p.responseDma == 0 ==>
                      pending == old(pending) - {id} && done == old(done)[id := Done(x, SEND_FAILED)])
      ensures errors == old(errors) + 1
      ensures live == old(live) && leaving == old(leaving) && next == old(next)
    {
      hide Wellformed, Settled, Flying;
      errors := errors + 1;
      if id !in pending {
        return;
      }
      var x := pending[id].(p := pending[id].p.(failed := true));
      if x.p.responseDma > 0 {
        FailInTable(pending, done, next, live, leaving, id);
        pending := pending[id := x];
        return;
      }
      CloseInTable(pending, done, next, live, leaving, id, SEND_FAILED);
      pending, done := pending - {id}, done[id := Done(x, SEND_FAILED)];
    }

    /** An acknowledgement of a WRITE; the last one completes the request. */
    method ReceiveWriteAck(id: nat, r: Response) returns (accepted: bool)
      requires Valid()
      modifies this
      ensures Valid()
      ensures accepted == (id in old(pending) && AckAcceptable(old(pending)[id].p, r))
      ensures !accepted ==> errors == old(errors) + 1 && pending == old(pending) && done == old(done)
      ensures accepted ==>
                && old(pending)[id].p.completedBytes + r.length <= old(pending)[id].p.byteCount
                && var x := Acknowledge(old(pending)[id], r);
                && errors == old(errors)
                && (x.p.completedBytes != x.p.byteCount ==> pending == old(pending)[id := x] && done == old(done))
                && (x.p.completedBytes == x.p.byteCount ==>
                      pending == old(pending) - {id} && done == old(done)[id := Done(x, SUCCESS)])
      ensures live == old(live) && leaving == old(leaving) && next == old(next)
    {
      accepted := false;
      var x;
      if id in pending {
        accepted, x := AdmitAck(pending[id], r);
      }
      if !accepted {
        errors := errors + 1;
        return;
      }
      AckInTable(pending, done, next, live, leaving, id, r);
      hide Wellformed, Settled, Flying, Requests, Departed, Flights, Leases, Acknowledge, AckAcceptable;
      if x.p.completedBytes != x.p.byteCount {
        pending := pending[id := x];
      } else {
        pending, done := pending - {id}, done[id := Done(x, SUCCESS)];
      }
    }

    /** What the destroy of a send queue asks of this table. */
    predicate QueueBusy(jetty: u32)
      reads this
    {
      jetty in readDma || exists id :: id in pending && pending[id].p.jetty == jetty
    }

    /** A queue that is not busy owns no request and no DMA callback. */
    lemma IdleQueueOwnsNothing(jetty: u32)
      requires Valid() && !QueueBusy(jetty)
      ensures forall id :: id in pending ==> pending[id].p.jetty != jetty
      ensures forall t :: t in live || t in leaving ==> t.jetty != jetty
    {
      assert Lease(readDma, live + leaving, jetty);
      forall t | t in live + leaving
        ensures t.jetty != jetty
      {
        assert t.jetty == jetty ==> t in OfJetty(live + leaving, jetty);
      }
    }
  }
}
