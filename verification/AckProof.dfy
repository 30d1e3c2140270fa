/** Acknowledgements of a WRITE: whatever their order, each is taken, and the last one completes the request. */
module AckProof {
  import opened Optional
  import opened Words
  import opened Rma
  import opened RmaProof

  predicate Within(x: Response, n: nat) { 0 < x.length && x.offset + x.length <= n }

  /** Two acknowledgements with different numbers, for parts that do not meet. */
  predicate Parted(x: Response, y: Response) {
    x.ssn != y.ssn && (x.offset + x.length <= y.offset || y.offset + y.length <= x.offset)
  }

  predicate Touches(x: Response, b: int) { x.offset <= b < x.offset + x.length }

  predicate Covered(acks: seq<Response>, b: int) { exists i :: 0 <= i < |acks| && Touches(acks[i], b) }

  predicate OfSome(acks: seq<Response>, x: Range) {
    exists i :: 0 <= i < |acks| && acks[i].offset == x.first && acks[i].offset + acks[i].length == x.second
  }

  predicate Numbered(acks: seq<Response>, ssn: u32) { exists i :: 0 <= i < |acks| && acks[i].ssn == ssn }

  predicate Has(ranges: seq<Range>, x: Response) {
    exists j :: 0 <= j < |ranges| && ranges[j].first == x.offset && ranges[j].second == x.offset + x.length
  }

  /** The request has taken the acknowledgements `acks` and no other. */
  ghost predicate Took(p: Pending, acks: seq<Response>) {
    && p.opcode == WRITE && Sorted(p.ranges, p.byteCount) && p.completedBytes == Total(p.ranges, 0)
    && (forall i {:trigger acks[i]} :: 0 <= i < |acks| ==> Within(acks[i], p.byteCount) && Has(p.ranges, acks[i]))
    && (forall x :: x in p.ranges ==> OfSome(acks, x))
    && (forall ssn :: ssn in p.tassns <==> Numbered(acks, ssn))
  }

  /** An acknowledgement is taken if and only if it lies within the request, has a number of its own and meets none
      before it. */
  lemma AckFits(p: Pending, acks: seq<Response>, x: Response)
    requires Took(p, acks)
    ensures AckAcceptable(p, x) <==> Within(x, p.byteCount) && forall i :: 0 <= i < |acks| ==> Parted(acks[i], x)
    ensures AckAcceptable(p, x) ==> p.completedBytes + x.length <= p.byteCount
  {
    if Within(x, p.byteCount) {
      if forall i :: 0 <= i < |acks| ==> Parted(acks[i], x) {
        ApartFits(p, acks, x);
      } else {
        MeetingIsRefused(p, acks, x);
      }
    }
  }

  lemma ApartFits(p: Pending, acks: seq<Response>, x: Response)
    requires Took(p, acks) && Within(x, p.byteCount) && forall i :: 0 <= i < |acks| ==> Parted(acks[i], x)
    ensures AckAcceptable(p, x)
  {
    forall y | y in p.ranges
      ensures y.second <= x.offset || x.offset + x.length <= y.first
    {
      assert OfSome(acks, y);
      var i :| 0 <= i < |acks| && acks[i].offset == y.first && acks[i].offset + acks[i].length == y.second;
      assert Parted(acks[i], x);
    }
    assert !Numbered(acks, x.ssn);
    NeighbourTestIsExact(p.ranges, p.byteCount, x.offset, x.offset + x.length);
    InsertKeeps(p.ranges, p.byteCount, Range(x.offset, x.offset + x.length));
    hide FitsBetween, Sorted, Total, Insert;
  }

  lemma MeetingIsRefused(p: Pending, acks: seq<Response>, x: Response)
    requires Took(p, acks) && Within(x, p.byteCount) && !(forall i :: 0 <= i < |acks| ==> Parted(acks[i], x))
    ensures !AckAcceptable(p, x)
  {
    var i :| 0 <= i < |acks| && !Parted(acks[i], x);
    if acks[i].ssn == x.ssn {
      assert Numbered(acks, x.ssn);
    } else {
      var j :| 0 <= j < |p.ranges| && p.ranges[j].first == acks[i].offset
               && p.ranges[j].second == acks[i].offset + acks[i].length;
      NeighbourTestIsExact(p.ranges, p.byteCount, x.offset, x.offset + x.length);
      assert p.ranges[j] in p.ranges;
    }
    hide FitsBetween, Sorted, Total;
  }

  lemma AckTaken(t: Transfer, acks: seq<Response>, x: Response)
    requires Took(t.p, acks) && Within(x, t.p.byteCount) && AckAcceptable(t.p, x)
    requires t.p.completedBytes + x.length <= t.p.byteCount
    ensures Took(Acknowledge(t, x).p, acks + [x])
  {
    TookSays(t.p, acks);
    var r := Range(x.offset, x.offset + x.length);
    assert FitsBetween(t.p.ranges, r.first, r.second);
    var q := Acknowledge(t, x).p;
    assert q.ranges == Insert(t.p.ranges, r) && q.opcode == WRITE && q.byteCount == t.p.byteCount;
    assert q.completedBytes == t.p.completedBytes + x.length && q.tassns == t.p.tassns[x.ssn := true];
    assert 0 < x.length && r.second <= t.p.byteCount;
    hide Took, Sorted, FitsBetween, Insert, Total, Acknowledge, AckAcceptable, Within;
    InsertKeeps(t.p.ranges, t.p.byteCount, r);
    OneMore(t.p, q, acks, x, r);
  }

  lemma TookSays(p: Pending, acks: seq<Response>)
    requires Took(p, acks)
    ensures p.opcode == WRITE && Sorted(p.ranges, p.byteCount) && p.completedBytes == Total(p.ranges, 0)
  {
  }

  lemma OneMore(p: Pending, q: Pending, acks: seq<Response>, x: Response, r: Range)
    requires Took(p, acks) && Within(x, p.byteCount) && r.first == x.offset && r.second == x.offset + x.length
    requires q.opcode == WRITE && q.byteCount == p.byteCount && Sorted(q.ranges, q.byteCount)
    requires q.completedBytes == Total(q.ranges, 0)
    requires forall y :: y in q.ranges <==> y == r || y in p.ranges
    requires forall ssn :: ssn in q.tassns <==> ssn == x.ssn || ssn in p.tassns
    ensures Took(q, acks + [x])
  {
    hide Sorted, Total, Has, OfSome, Numbered;
    var all := acks + [x];
    forall i | 0 <= i < |all|
      ensures Within(all[i], q.byteCount) && Has(q.ranges, all[i])
    {
      HasLater(p.ranges, q.ranges, r, acks, x, i);
    }
    forall y | y in q.ranges
      ensures OfSome(all, y)
    {
      OfSomeLater(acks, x, y);
    }
    forall ssn
      ensures ssn in q.tassns <==> Numbered(all, ssn)
    {
      NumberedLater(acks, x, ssn);
    }
  }

  lemma OfSomeLater(acks: seq<Response>, x: Response, y: Range)
    requires OfSome(acks, y) || (y.first == x.offset && y.second == x.offset + x.length)
    ensures OfSome(acks + [x], y)
  {
    if OfSome(acks, y) {
      var i :| 0 <= i < |acks| && acks[i].offset == y.first && acks[i].offset + acks[i].length == y.second;
      assert (acks + [x])[i] == acks[i];
    } else {
      assert (acks + [x])[|acks|] == x;
    }
  }

  lemma NumberedLater(acks: seq<Response>, x: Response, ssn: u32)
    ensures Numbered(acks + [x], ssn) <==> Numbered(acks, ssn) || ssn == x.ssn
  {
    var all := acks + [x];
    if Numbered(acks, ssn) {
      var i :| 0 <= i < |acks| && acks[i].ssn == ssn;
      assert all[i] == acks[i];
    } else if ssn == x.ssn {
      assert all[|acks|] == x;
    }
    if Numbered(all, ssn) {
      var i :| 0 <= i < |all| && all[i].ssn == ssn;
      assert i < |acks| ==> acks[i] == all[i];
    }
  }

  lemma HasLater(ranges: seq<Range>, after: seq<Range>, r: Range, acks: seq<Response>, x: Response, i: nat)
    requires i <= |acks| && (i < |acks| ==> Has(ranges, acks[i]))
    requires r.first == x.offset && r.second == x.offset + x.length
    requires forall y :: y in after <==> y == r || y in ranges
    ensures Has(after, (acks + [x])[i])
  {
    var y := r;
    if i < |acks| {
      var j :| 0 <= j < |ranges| && ranges[j].first == acks[i].offset
               && ranges[j].second == acks[i].offset + acks[i].length;
      y := ranges[j];
    }
    assert y in after;
  }

  /** All bytes are counted exactly when none is missing. */
  lemma FullIsCovered(p: Pending, acks: seq<Response>)
    requires Took(p, acks)
    ensures p.completedBytes <= p.byteCount
    ensures p.completedBytes == p.byteCount <==> forall b :: 0 <= b < p.byteCount ==> Covered(acks, b)
  {
    Coverage(p.ranges, 0, 0, p.byteCount);
    if p.completedBytes == p.byteCount {
      forall b | 0 <= b < p.byteCount
        ensures Covered(acks, b)
      {
        assert InSome(p.ranges, 0, b);
        var j :| 0 <= j < |p.ranges| && p.ranges[j].first <= b < p.ranges[j].second;
        assert OfSome(acks, p.ranges[j]);
        var i :| 0 <= i < |acks| && acks[i].offset == p.ranges[j].first
                 && acks[i].offset + acks[i].length == p.ranges[j].second;
        assert Touches(acks[i], b);
      }
    }
    if forall b :: 0 <= b < p.byteCount ==> Covered(acks, b) {
      forall b | 0 <= b < p.byteCount
        ensures InSome(p.ranges, 0, b)
      {
        assert Covered(acks, b);
        var i :| 0 <= i < |acks| && Touches(acks[i], b);
        var j :| 0 <= j < |p.ranges| && p.ranges[j].first == acks[i].offset
                 && p.ranges[j].second == acks[i].offset + acks[i].length;
      }
      CoveredAddsUp(p.ranges, 0, 0, p.byteCount);
    }
  }

  // ------------------------------------------------------------------ all acknowledgements of a request

  /** The acknowledgements of one WRITE of `n` bytes: they have different numbers, do not meet and leave no gap. */
  ghost predicate Tiles(acks: seq<Response>, n: nat) {
    && (forall i :: 0 <= i < |acks| ==> Within(acks[i], n))
    && (forall i, j :: 0 <= i < j < |acks| ==> Parted(acks[i], acks[j]))
    && (forall b :: 0 <= b < n ==> Covered(acks, b))
  }

  /** The request after the first `m` of them; `None` when one was refused. */
  function After(t: Transfer, acks: seq<Response>, m: nat): Option<Transfer>
    requires m <= |acks|
  {
    if m == 0 then Some(t)
    else
      var before := After(t, acks, m - 1);
      if before.None? || !AckAcceptable(before.value.p, acks[m - 1]) then None
      else Some(Acknowledge(before.value, acks[m - 1]))
  }

  lemma Earlier(acks: seq<Response>, n: nat, m: nat)
    requires Tiles(acks, n) && m < |acks|
    ensures Within(acks[m], n) && forall i :: 0 <= i < |acks[..m]| ==> Parted(acks[..m][i], acks[m])
    ensures acks[..m] + [acks[m]] == acks[..m + 1]
  {
  }

  lemma {:induction false} EachIsTaken(t: Transfer, acks: seq<Response>, m: nat)
    requires Took(t.p, []) && Tiles(acks, t.p.byteCount) && m <= |acks|
    ensures After(t, acks, m).Some? && Took(After(t, acks, m).value.p, acks[..m])
    ensures After(t, acks, m).value.p.byteCount == t.p.byteCount
  {
    hide Took, Tiles, AckAcceptable, Within, Parted;
    if m > 0 {
      EachIsTaken(t, acks, m - 1);
      var before := After(t, acks, m - 1).value;
      Earlier(acks, t.p.byteCount, m - 1);
      AckFits(before.p, acks[..m - 1], acks[m - 1]);
      AckTaken(before, acks[..m - 1], acks[m - 1]);
    } else {
      assert acks[..0] == [];
    }
  }

  /** Whatever the order of the acknowledgements, which may cut the WRITE into any parts, each of them is taken; and
      the bytes are complete after the last one and not before. */
  lemma AnyOrderCompletes(t: Transfer, acks: seq<Response>, m: nat)
    requires t.p.opcode == WRITE && t.p.ranges == [] && t.p.tassns == map[] && t.p.completedBytes == 0
    requires Tiles(acks, t.p.byteCount) && m <= |acks|
    ensures After(t, acks, m).Some?
    ensures After(t, acks, m).value.p.completedBytes == t.p.byteCount <==> m == |acks|
  {
    EachIsTaken(t, acks, m);
    var p := After(t, acks, m).value.p;
    FullIsCovered(p, acks[..m]);
    hide Took, After;
    if m < |acks| {
      var b := acks[m].offset;
      assert Within(acks[m], t.p.byteCount);
      if Covered(acks[..m], b) {
        var i :| 0 <= i < m && Touches(acks[..m][i], b);
        assert Parted(acks[i], acks[m]);
      }
    } else {
      assert acks[..m] == acks;
    }
  }
}
