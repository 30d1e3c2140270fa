/** The summary kept with a request is faithful, and completion means exact coverage. */
module RmaProof {
  import opened Optional
  import opened Words
  import opened Rma

  // ------------------------------------------------------------------ intervals

  /** Disjoint intervals inside `[start, n)` have at most its length in total, and tile it when they reach it. */
  lemma {:induction false} Coverage(ranges: seq<Range>, from: nat, start: int, n: int)
    requires Sorted(ranges, n) && from <= |ranges| && 0 <= start <= n
    requires from < |ranges| ==> start <= ranges[from].first
    ensures Total(ranges, from) <= n - start
    ensures Total(ranges, from) == n - start ==>
              forall k :: start <= k < n ==> InSome(ranges, from, k)
    decreases |ranges| - from
  {
    if from < |ranges| {
      Coverage(ranges, from + 1, ranges[from].second, n);
      if Total(ranges, from) == n - start {
        forall k | start <= k < n
          ensures InSome(ranges, from, k)
        {
          if k < ranges[from].second {
            assert ranges[from].first <= k < ranges[from].second;
          } else {
            assert InSome(ranges, from + 1, k);
          }
        }
      }
    }
  }

  /** Converse of `Coverage`: intervals that miss no byte of `[start, n)` add up to it. */
  lemma {:induction false} CoveredAddsUp(ranges: seq<Range>, from: nat, start: int, n: int)
    requires Sorted(ranges, n) && from <= |ranges| && 0 <= start <= n
    requires from < |ranges| ==> start <= ranges[from].first
    requires forall k :: start <= k < n ==> InSome(ranges, from, k)
    ensures Total(ranges, from) == n - start
    decreases |ranges| - from
  {
    if start < n {
      assert InSome(ranges, from, start);
      assert forall i :: from < i < |ranges| ==> ranges[from].second <= ranges[i].first;
      forall k {:trigger InSome(ranges, from + 1, k)} | ranges[from].second <= k < n
        ensures InSome(ranges, from + 1, k)
      {
        assert InSome(ranges, from, k);
      }
      CoveredAddsUp(ranges, from + 1, ranges[from].second, n);
    }
  }

  /** The test against the two neighbours is exact: it passes if and only if no interval is met. */
  lemma NeighbourTestIsExact(ranges: seq<Range>, n: int, begin: u32, end: u32)
    requires Sorted(ranges, n) && begin < end
    ensures FitsBetween(ranges, begin, end)
            <==> forall x :: x in ranges ==> x.second <= begin || end <= x.first
  {
    var next := LowerBound(ranges, begin);
    if FitsBetween(ranges, begin, end) {
      forall x | x in ranges
        ensures x.second <= begin || end <= x.first
      {
        var i :| 0 <= i < |ranges| && ranges[i] == x;
        if i < next {
          assert ranges[i].second <= ranges[next - 1].second;
        } else {
          assert ranges[next].first <= ranges[i].first;
        }
      }
    } else if next < |ranges| && ranges[next].first < end {
      assert ranges[next] in ranges;
    } else {
      assert ranges[next - 1] in ranges;
      assert ranges[next - 1].first < begin < ranges[next - 1].second;
    }
  }

  lemma {:induction false} TotalInsert(ranges: seq<Range>, at: nat, r: Range, from: nat)
    requires from <= at <= |ranges|
    ensures Total(ranges[..at] + [r] + ranges[at..], from) == Total(ranges, from) + (r.second - r.first)
    decreases |ranges| - from
  {
    var all := ranges[..at] + [r] + ranges[at..];
    if from == at {
      TotalShift(ranges, all, at);
    } else {
      assert all[from] == ranges[from];
      TotalInsert(ranges, at, r, from + 1);
    }
  }

  lemma {:induction false} TotalShift(ranges: seq<Range>, all: seq<Range>, from: nat)
    requires from <= |ranges| && |all| == |ranges| + 1
    requires forall i :: from <= i < |ranges| ==> all[i + 1] == ranges[i]
    ensures Total(all, from + 1) == Total(ranges, from)
    decreases |ranges| - from
  {
    if from < |ranges| {
      TotalShift(ranges, all, from + 1);
    }
  }

  lemma InsertKeeps(ranges: seq<Range>, n: int, r: Range)
    requires Sorted(ranges, n) && r.first < r.second <= n && FitsBetween(ranges, r.first, r.second)
    ensures Sorted(Insert(ranges, r), n)
    ensures Total(Insert(ranges, r), 0) == Total(ranges, 0) + (r.second - r.first) <= n
    ensures forall x :: x in Insert(ranges, r) <==> x == r || x in ranges
  {
    TotalInsert(ranges, LowerBound(ranges, r.first), r, 0);
    InsertSorted(ranges, n, r);
    InsertMembers(ranges, r);
    hide Sorted, FitsBetween;
    Coverage(Insert(ranges, r), 0, 0, n) by {
      InsideZero(Insert(ranges, r), n);
    }
  }

  lemma InsideZero(ranges: seq<Range>, n: int)
    requires Sorted(ranges, n) && ranges != []
    ensures 0 <= ranges[0].first && 0 <= n
  {
  }

  lemma InsertMembers(ranges: seq<Range>, r: Range)
    ensures forall x :: x in Insert(ranges, r) <==> x == r || x in ranges
  {
    var at := LowerBound(ranges, r.first);
    assert ranges == ranges[..at] + ranges[at..];
  }

  /** What lies before the insertion point ends before the new interval, the rest starts after it. */
  lemma Sides(ranges: seq<Range>, n: int, r: Range)
    requires Sorted(ranges, n) && r.first < r.second && FitsBetween(ranges, r.first, r.second)
    ensures var at := LowerBound(ranges, r.first);
            && (forall i :: 0 <= i < at ==> ranges[i].second <= r.first)
            && (forall i :: at <= i < |ranges| ==> r.second <= ranges[i].first)
  {
    var at := LowerBound(ranges, r.first);
    forall i | 0 <= i < at
      ensures ranges[i].second <= r.first
    {
      assert i < at - 1 ==> ranges[i].second <= ranges[at - 1].first;
    }
    forall i | at <= i < |ranges|
      ensures r.second <= ranges[i].first
    {
      assert at < i ==> ranges[at].second <= ranges[i].first;
    }
  }

  lemma SortedWith(ranges: seq<Range>, n: int, at: nat, r: Range, all: seq<Range>)
    requires Sorted(ranges, n) && r.first < r.second <= n && at <= |ranges|
    requires forall i :: 0 <= i < at ==> ranges[i].second <= r.first
    requires forall i :: at <= i < |ranges| ==> r.second <= ranges[i].first
    requires all == ranges[..at] + [r] + ranges[at..]
    ensures Sorted(all, n)
  {
    assert forall i :: 0 <= i < |all| ==> all[i] == if i < at then ranges[i] else if i == at then r else ranges[i - 1];
  }

  lemma InsertSorted(ranges: seq<Range>, n: int, r: Range)
    requires Sorted(ranges, n) && r.first < r.second <= n && FitsBetween(ranges, r.first, r.second)
    ensures Sorted(Insert(ranges, r), n)
  {
    Sides(ranges, n, r);
    SortedWith(ranges, n, LowerBound(ranges, r.first), r, Insert(ranges, r));
  }

  // ------------------------------------------------------------------ sums over writes

  lemma {:induction false} BytesAppend(ws: seq<Write>, w: Write, only: set<Outcome>, from: nat)
    requires from <= |ws|
    ensures Bytes(ws + [w], only, from) == Bytes(ws, only, from) + (if w.outcome in only then |w.bytes| else 0)
    decreases |ws| - from
  {
    if from < |ws| {
      BytesAppend(ws, w, only, from + 1);
    }
  }

  lemma {:induction false} LiveAppend(ws: seq<Write>, w: Write, from: nat)
    requires from <= |ws|
    ensures Live(ws + [w], from) == Live(ws, from) + (if w.outcome == InFlight then 1 else 0)
    decreases |ws| - from
  {
    if from < |ws| {
      LiveAppend(ws, w, from + 1);
    }
  }

  lemma {:induction false} BytesUpdate(ws: seq<Write>, i: nat, w: Write, only: set<Outcome>, from: nat)
    requires i < |ws| && w.bytes == ws[i].bytes
    ensures Bytes(ws[i := w], only, from)
            == Bytes(ws, only, from)
               + (if from <= i && w.outcome in only then |w.bytes| else 0)
               - (if from <= i && ws[i].outcome in only then |w.bytes| else 0)
    decreases |ws| - from
  {
    if from < |ws| {
      BytesUpdate(ws, i, w, only, from + 1);
    }
  }

  lemma {:induction false} LiveUpdate(ws: seq<Write>, i: nat, w: Write, from: nat)
    requires i < |ws| && ws[i].outcome == InFlight && w.outcome != InFlight
    ensures Live(ws[i := w], from) == Live(ws, from) - (if from <= i then 1 else 0)
    decreases |ws| - from
  {
    if from < |ws| {
      LiveUpdate(ws, i, w, from + 1);
    }
  }

  lemma {:induction false} BytesBound(ws: seq<Write>, from: nat)
    ensures Bytes(ws, {Placed}, from) <= Bytes(ws, ANY, from)
    ensures forall i :: from <= i < |ws| && ws[i].outcome != Placed ==>
              Bytes(ws, {Placed}, from) + |ws[i].bytes| <= Bytes(ws, ANY, from)
    decreases |ws| - from
  {
    if from < |ws| {
      BytesBound(ws, from + 1);
    }
  }

  lemma {:induction false} NoneLive(ws: seq<Write>, from: nat)
    ensures Live(ws, from) == 0 <==> forall i :: from <= i < |ws| ==> ws[i].outcome != InFlight
    decreases |ws| - from
  {
    if from < |ws| {
      NoneLive(ws, from + 1);
    }
  }

  // ------------------------------------------------------------------ accepting and landing

  lemma AcceptCounts(t: Transfer, r: Response)
    requires Wellformed(t) && Acceptable(t.p, r)
    ensures t.p.acceptedBytes + r.length <= t.p.byteCount
    ensures Counted(Accept(t, r))
  {
    hide Linked, FitsBetween, Sorted, Insert, LowerBound;
    InsertKeeps(t.p.ranges, t.p.byteCount, Range(r.offset, r.offset + r.length));
    var w := Write(r.ssn, r.offset, t.p.address + r.offset, r.bytes, InFlight);
    BytesAppend(t.writes, w, {Placed}, 0);
    BytesAppend(t.writes, w, ANY, 0);
    LiveAppend(t.writes, w, 0);
  }

  lemma ReservedAppend(ws: seq<Write>, w: Write)
    ensures forall r :: Reserved(ws, r) || Matches(w, r) ==> Reserved(ws + [w], r)
    ensures forall s :: Used(ws, s) || w.ssn == s ==> Used(ws + [w], s)
  {
    assert (ws + [w])[|ws|] == w;
    forall r | Reserved(ws, r)
      ensures Reserved(ws + [w], r)
    {
      var i :| 0 <= i < |ws| && Matches(ws[i], r);
      assert (ws + [w])[i] == ws[i];
    }
    forall s | Used(ws, s)
      ensures Used(ws + [w], s)
    {
      var i :| 0 <= i < |ws| && ws[i].ssn == s;
      assert (ws + [w])[i] == ws[i];
    }
  }

  /** The new write does not meet an earlier one ... */
  lemma AcceptApart(p: Pending, r: Response, w: Write)
    requires Sorted(p.ranges, p.byteCount) && Acceptable(p, r) && WriteWellformed(p, w)
    ensures w.offset + |w.bytes| <= r.offset || r.offset + r.length <= w.offset
    ensures w.ssn != r.ssn
  {
    NeighbourTestIsExact(p.ranges, p.byteCount, r.offset, r.offset + r.length);
    hide FitsBetween, Sorted;
    assert Range(w.offset, w.offset + |w.bytes|) in p.ranges;
  }

  /** ... which stays well-formed, as the new one is. */
  lemma RememberOld(p: Pending, r: Response, w: Write)
    requires r.offset + r.length < 0x1_0000_0000 && 0 <= p.acceptedBytes + r.length < 0x1_0000_0000
    requires forall x :: x in p.ranges ==> x in Insert(p.ranges, Range(r.offset, r.offset + r.length))
    requires WriteWellformed(p, w) && w.ssn != r.ssn
    ensures WriteWellformed(Remember(p, r), w)
  {
    hide Insert;
  }

  lemma RememberNew(p: Pending, r: Response, w: Write)
    requires r.offset + r.length <= p.byteCount && 0 <= p.acceptedBytes + r.length < 0x1_0000_0000
    requires Range(r.offset, r.offset + r.length) in Insert(p.ranges, Range(r.offset, r.offset + r.length))
    requires w.ssn == r.ssn && w.offset == r.offset && |w.bytes| == r.length > 0
    requires w.address == p.address + w.offset && w.outcome == InFlight
    ensures WriteWellformed(Remember(p, r), w)
  {
    hide Insert;
  }

  lemma AcceptLinks(t: Transfer, r: Response)
    requires Wellformed(t) && Acceptable(t.p, r) && t.p.acceptedBytes + r.length <= t.p.byteCount
    ensures Linked(Accept(t, r))
  {
    var t' := Accept(t, r);
    InsertKeeps(t.p.ranges, t.p.byteCount, Range(r.offset, r.offset + r.length));
    hide Insert, FitsBetween, Sorted, Counted, Reserved, Used, WriteWellformed, Remember;
    var w := Write(r.ssn, r.offset, t.p.address + r.offset, r.bytes, InFlight);
    assert t'.writes == t.writes + [w];
    ReservedAppend(t.writes, w);
    assert Matches(w, Range(r.offset, r.offset + r.length));
    RememberNew(t.p, r, w);
    forall i | 0 <= i < |t.writes|
      ensures WriteWellformed(t'.p, t'.writes[i]) && Separate(t'.writes[i], w)
    {
      assert WriteWellformed(t.p, t.writes[i]);
      AcceptApart(t.p, r, t.writes[i]);
      RememberOld(t.p, r, t.writes[i]);
    }
    forall i, j | 0 <= i < j < |t.writes|
      ensures Separate(t'.writes[i], t'.writes[j])
    {
      assert Separate(t.writes[i], t.writes[j]);
    }
  }

  /** A response that repeats no number and meets no write issued for the request. */
  predicate Clear(w: Write, x: Response) {
    w.ssn != x.ssn && (w.offset + |w.bytes| <= x.offset || x.offset + x.length <= w.offset)
  }

  lemma NumberIsNew(t: Transfer, x: Response)
    requires Linked(t) && forall i {:trigger t.writes[i]} :: 0 <= i < |t.writes| ==> Clear(t.writes[i], x)
    ensures x.ssn !in t.p.tassns
  {
    assert !Used(t.writes, x.ssn);
  }

  lemma RoomIsLeft(t: Transfer, x: Response)
    requires Wellformed(t) && t.p.opcode == READ
    requires forall i {:trigger t.writes[i]} :: 0 <= i < |t.writes| ==> Clear(t.writes[i], x)
    requires 0 < x.length && x.offset + x.length <= t.p.byteCount
    ensures FitsBetween(t.p.ranges, x.offset, x.offset + x.length)
    ensures x.length <= t.p.byteCount - t.p.acceptedBytes
  {
    forall y | y in t.p.ranges
      ensures y.second <= x.offset || x.offset + x.length <= y.first
    {
      assert Reserved(t.writes, y);
      var i :| 0 <= i < |t.writes| && Matches(t.writes[i], y);
    }
    NeighbourTestIsExact(t.p.ranges, t.p.byteCount, x.offset, x.offset + x.length);
    InsertKeeps(t.p.ranges, t.p.byteCount, Range(x.offset, x.offset + x.length));
  }

  /** A READ that has not failed takes a response if and only if it has its bytes, lies within the request, whose buffer
      ends inside the address space, and repeats or meets nothing that was taken before; one that has failed takes no
      more. */
  lemma ResponseTakenIff(t: Transfer, x: Response)
    requires Wellformed(t) && t.p.opcode == READ
    ensures Acceptable(t.p, x) <==>
            && !t.p.failed && 0 < x.length == |x.bytes| && x.offset + x.length <= t.p.byteCount
            && t.p.address + t.p.byteCount <= 0x1_0000_0000_0000_0000
            && forall i {:trigger t.writes[i]} :: 0 <= i < |t.writes| ==> Clear(t.writes[i], x)
  {
    if Acceptable(t.p, x) {
      forall i | 0 <= i < |t.writes|
        ensures Clear(t.writes[i], x)
      {
        assert WriteWellformed(t.p, t.writes[i]);
        AcceptApart(t.p, x, t.writes[i]);
      }
    } else if 0 < x.length && x.offset + x.length <= t.p.byteCount
              && forall i {:trigger t.writes[i]} :: 0 <= i < |t.writes| ==> Clear(t.writes[i], x) {
      NumberIsNew(t, x);
      RoomIsLeft(t, x);
    }
    hide Wellformed, FitsBetween, Sorted, Linked, Counted;
  }

  /** An accepted response never overflows a counter and keeps the summary faithful. */
  lemma AcceptKeeps(t: Transfer, r: Response)
    requires Wellformed(t) && Acceptable(t.p, r)
    ensures t.p.acceptedBytes + r.length <= t.p.byteCount
    ensures Wellformed(Accept(t, r))
  {
    AcceptCounts(t, r);
    AcceptLinks(t, r);
    InsertKeeps(t.p.ranges, t.p.byteCount, Range(r.offset, r.offset + r.length));
    hide Counted, Linked, Sorted, Insert;
  }

  lemma LandCounts(t: Transfer, i: nat, ssn: u32, ok: bool)
    requires Wellformed(t) && t.p.opcode == READ && IsLive(t, i, ssn)
    ensures t.p.responseDma > 0 && t.p.completedBytes + |t.writes[i].bytes| <= t.p.byteCount
    ensures Counted(Land(t, i, ok))
  {
    hide Linked;
    var w' := t.writes[i].(outcome := if ok then Placed else Lost);
    BytesBound(t.writes, 0);
    Coverage(t.p.ranges, 0, 0, t.p.byteCount);
    NoneLive(t.writes, 0);
    BytesUpdate(t.writes, i, w', {Placed}, 0);
    BytesUpdate(t.writes, i, w', ANY, 0);
    LiveUpdate(t.writes, i, w', 0);
  }

  lemma ReservedUpdate(ws: seq<Write>, i: nat, w: Write)
    requires i < |ws| && w.ssn == ws[i].ssn && w.offset == ws[i].offset && w.bytes == ws[i].bytes
    ensures forall r :: Reserved(ws, r) ==> Reserved(ws[i := w], r)
    ensures forall s :: Used(ws, s) ==> Used(ws[i := w], s)
  {
    forall r | Reserved(ws, r)
      ensures Reserved(ws[i := w], r)
    {
      var j :| 0 <= j < |ws| && Matches(ws[j], r);
      assert Matches(ws[i := w][j], r);
    }
    forall s | Used(ws, s)
      ensures Used(ws[i := w], s)
    {
      var j :| 0 <= j < |ws| && ws[j].ssn == s;
      assert ws[i := w][j].ssn == s;
    }
  }

  lemma LandOne(t: Transfer, i: nat, ok: bool, w: Write)
    requires i < |t.writes| && WriteWellformed(t.p, t.writes[i]) && t.writes[i].outcome == InFlight
    requires t.p.responseDma > 0 && t.p.completedBytes + |t.writes[i].bytes| <= t.p.byteCount
    requires WriteWellformed(t.p, w)
    ensures w.ssn != t.writes[i].ssn ==> WriteWellformed(Land(t, i, ok).p, w)
    ensures WriteWellformed(Land(t, i, ok).p, Land(t, i, ok).writes[i])
  {
  }

  lemma LandWrites(t: Transfer, i: nat, ssn: u32, ok: bool)
    requires Linked(t) && IsLive(t, i, ssn) && t.p.responseDma > 0
    requires t.p.completedBytes + |t.writes[i].bytes| <= t.p.byteCount
    ensures forall j {:trigger Land(t, i, ok).writes[j]} :: 0 <= j < |t.writes| ==>
              WriteWellformed(Land(t, i, ok).p, Land(t, i, ok).writes[j])
  {
    hide WriteWellformed, Reserved, Used;
    forall j | 0 <= j < |t.writes|
      ensures WriteWellformed(Land(t, i, ok).p, Land(t, i, ok).writes[j])
    {
      LandAt(t, i, ssn, ok, j);
    }
  }

  lemma LandAt(t: Transfer, i: nat, ssn: u32, ok: bool, j: nat)
    requires Linked(t) && IsLive(t, i, ssn) && t.p.responseDma > 0
    requires t.p.completedBytes + |t.writes[i].bytes| <= t.p.byteCount && j < |t.writes|
    ensures WriteWellformed(Land(t, i, ok).p, Land(t, i, ok).writes[j])
  {
    assert WriteWellformed(t.p, t.writes[i]) && WriteWellformed(t.p, t.writes[j]);
    assert Separate(t.writes[i], t.writes[j]) || Separate(t.writes[j], t.writes[i]) || i == j;
    hide Linked;
    LandOne(t, i, ok, t.writes[j]);
  }

  lemma LandSeparate(t: Transfer, i: nat, ssn: u32, ok: bool)
    requires Linked(t) && IsLive(t, i, ssn) && t.p.responseDma > 0
    requires t.p.completedBytes + |t.writes[i].bytes| <= t.p.byteCount
    ensures forall j, k {:trigger Separate(Land(t, i, ok).writes[j], Land(t, i, ok).writes[k])} ::
              0 <= j < k < |t.writes| ==> Separate(Land(t, i, ok).writes[j], Land(t, i, ok).writes[k])
  {
    hide WriteWellformed, Reserved, Used;
    var ws := Land(t, i, ok).writes;
    forall j, k | 0 <= j < k < |ws|
      ensures Separate(ws[j], ws[k])
    {
      assert Separate(t.writes[j], t.writes[k]);
    }
  }

  lemma LandLinks(t: Transfer, i: nat, ssn: u32, ok: bool)
    requires Linked(t) && IsLive(t, i, ssn) && t.p.responseDma > 0
    requires t.p.completedBytes + |t.writes[i].bytes| <= t.p.byteCount
    ensures Linked(Land(t, i, ok))
  {
    assert WriteWellformed(t.p, t.writes[i]);
    var t' := Land(t, i, ok);
    assert t'.writes == t.writes[i := t'.writes[i]];
    assert t'.p.ranges == t.p.ranges && t'.p.tassns.Keys == t.p.tassns.Keys;
    ReservedUpdate(t.writes, i, t'.writes[i]);
    hide Land, WriteWellformed, Reserved, Used, Separate;
    LandWrites(t, i, ssn, ok);
    LandSeparate(t, i, ssn, ok);
  }

  lemma LandKeeps(t: Transfer, i: nat, ssn: u32, ok: bool)
    requires Wellformed(t) && t.p.opcode == READ && IsLive(t, i, ssn)
    ensures t.p.responseDma > 0 && t.p.completedBytes + |t.writes[i].bytes| <= t.p.byteCount
    ensures Wellformed(Land(t, i, ok))
  {
    hide Counted, Linked;
    LandCounts(t, i, ssn, ok);
    LandLinks(t, i, ssn, ok);
  }

  lemma AcknowledgeBound(t: Transfer, r: Response)
    requires Wellformed(t) && AckAcceptable(t.p, r)
    ensures t.p.completedBytes + r.length <= t.p.byteCount
  {
    hide ReadWellformed, FitsBetween;
  }

  lemma AcknowledgeKeeps(t: Transfer, r: Response)
    requires Wellformed(t) && AckAcceptable(t.p, r)
    ensures t.p.completedBytes + r.length <= t.p.byteCount
    ensures Wellformed(Acknowledge(t, r))
  {
    hide Insert, FitsBetween, ReadWellformed;
    InsertKeeps(t.p.ranges, t.p.byteCount, Range(r.offset, r.offset + r.length));
  }

  lemma FailKeeps(t: Transfer)
    requires Wellformed(t)
    ensures Wellformed(t.(p := t.p.(failed := true)))
  {
    var t' := t.(p := t.p.(failed := true));
    forall i | 0 <= i < |t.writes| && t.p.opcode == READ
      ensures WriteWellformed(t'.p, t'.writes[i])
    {
      assert WriteWellformed(t.p, t.writes[i]);
    }
  }

  lemma SuccessIsPlaced(t: Transfer)
    requires Wellformed(t) && t.p.opcode == READ && Terminal(t.p) && Status(t.p) == SUCCESS
    ensures forall i :: 0 <= i < |t.writes| ==> t.writes[i].outcome == Placed
    ensures Total(t.p.ranges, 0) == t.p.byteCount
  {
    NoneLive(t.writes, 0);
    BytesBound(t.writes, 0);
    Coverage(t.p.ranges, 0, 0, t.p.byteCount);
    forall i | 0 <= i < |t.writes|
      ensures t.writes[i].outcome == Placed
    {
      assert WriteWellformed(t.p, t.writes[i]);
    }
  }

  /** Success is reported only when every byte was written exactly once, at its own address. */
  lemma SuccessIsExact(t: Transfer)
    requires Wellformed(t) && t.p.opcode == READ && Terminal(t.p) && Status(t.p) == SUCCESS
    ensures Exact(t)
  {
    SuccessIsPlaced(t);
    Coverage(t.p.ranges, 0, 0, t.p.byteCount);
    hide Counted;
    forall k | 0 <= k < t.p.byteCount
      ensures WrittenOnce(t, k)
    {
      assert InSome(t.p.ranges, 0, k);
      var r :| 0 <= r < |t.p.ranges| && t.p.ranges[r].first <= k < t.p.ranges[r].second;
      assert t.p.ranges[r] in t.p.ranges;
      var i :| 0 <= i < |t.writes| && Matches(t.writes[i], t.p.ranges[r]);
      assert WriteWellformed(t.p, t.writes[i]);
      forall j | 0 <= j < |t.writes| && j != i
        ensures !Covers(t.writes[j], k)
      {
        assert Separate(t.writes[i], t.writes[j]) || Separate(t.writes[j], t.writes[i]);
      }
      assert ExactlyAt(t, i, k);
    }
  }

  lemma AcknowledgedIsTiled(t: Transfer)
    requires Wellformed(t) && t.p.opcode == WRITE && t.p.completedBytes == t.p.byteCount
    ensures Tiled(t.p)
  {
    Coverage(t.p.ranges, 0, 0, t.p.byteCount);
  }
}
