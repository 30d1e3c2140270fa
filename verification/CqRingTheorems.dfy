/** The results about the completion ring, over whole runs and stated outright. */
module CqRingTheorems {
  import opened Cq
  import opened CqRing
  import opened CqRingProof
  import opened Optional
  import opened Words

  /** A CQE lands in a slot that is blank or whose entry the guest has already taken. */
  lemma NothingUnreadIsOverwritten(pipelined: bool, shift: nat, acts: seq<Action>, s: Ring, index: nat)
    requires shift < 16 && Run(pipelined, shift, acts) == Some(s) && Enabled(s, Land(index))
    ensures var c := s.memory[Slot(index, s.j.depth)];
            c == Blank || (c.index == index - s.j.depth && c.index < s.next)
  {
    RunInv(pipelined, shift, acts);
    LandsOnStale(s, index);
    hide Run;
  }

  /** The guest takes the entry it looks at if and only if it is the completion of its own position, and
      the completion of that position is taken once its write has landed. */
  lemma GuestTakesExactlyItsPosition(pipelined: bool, shift: nat, acts: seq<Action>, s: Ring)
    requires shift < 16 && Run(pipelined, shift, acts) == Some(s)
    ensures Accepts(s) <==> s.next < |s.taken| && Polled(s) == Entry(s.next, Owner(s.next, s.j.depth), s.taken[s.next])
    ensures s.next in s.writes ==> (Accepts(s) <==> s.writes[s.next].landed)
  {
    RunInv(pipelined, shift, acts);
    PollIsExact(s, shift);
    hide Run, JfcDepth, Owner;
    if s.next in s.writes && !s.writes[s.next].landed {
      LandsOnStale(s, s.next);
      assert !Visible(s, s.next);
    }
  }

  /** What the guest has received is, position by position, what the positions were reserved for. */
  lemma GuestReceivesEachPositionOnce(pipelined: bool, shift: nat, acts: seq<Action>, s: Ring)
    requires shift < 16 && Run(pipelined, shift, acts) == Some(s)
    ensures |s.received| == s.next <= |s.taken|
    ensures forall n :: 0 <= n < s.next ==> s.received[n] == Entry(n, Owner(n, s.j.depth), s.taken[n])
  {
    RunInv(pipelined, shift, acts);
    hide Run, Slots, Indices;
  }

  // ------------------------------------------------------------------ order

  /** A query does not move the cached index while a refresh is outstanding. */
  predicate Calm(s: Ring, a: Action) { a.QueryDone? && a.ok && s.query.Some? ==> s.reading == map[] }

  ghost predicate CalmRun(pipelined: bool, shift: nat, acts: seq<Action>)
    requires shift < 16
  {
    acts == [] ||
    (CalmRun(pipelined, shift, acts[..|acts| - 1])
     && (Run(pipelined, shift, acts[..|acts| - 1]).Some? ==>
           Calm(Run(pipelined, shift, acts[..|acts| - 1]).value, acts[|acts| - 1])))
  }

  predicate Ascending(tickets: seq<nat>, bound: nat) {
    && (forall i, j :: 0 <= i < j < |tickets| ==> tickets[i] < tickets[j])
    && (forall i :: 0 <= i < |tickets| ==> tickets[i] < bound)
  }

  /** A refresh is outstanding only alone, and is for the youngest publication admitted. */
  predicate Alone(s: Ring, ticket: nat)
    requires ticket in s.reading
  {
    && s.inFlight == 1 && ticket + 1 == s.admitted && Ascending(s.taken, ticket)
    && s.reading[ticket].producer == s.j.producer && (s.pipelined ==> Held(s.j) >= s.j.depth)
  }

  ghost predicate Ordered(s: Ring) {
    Ascending(s.taken, s.admitted) && forall t :: t in s.reading ==> Alone(s, t)
  }

  lemma AloneMeans(s: Ring, ticket: nat)
    requires ticket in s.reading && Alone(s, ticket) && |s.reading| + |s.writes| <= s.inFlight
    ensures s.writes == map[] && s.reading.Keys == {ticket}
  {
    assert |s.reading.Keys| == |s.reading| == 1;
    assert s.reading.Keys - {ticket} == {} by {
      assert |s.reading.Keys - {ticket}| == 0;
    }
  }

  lemma OrderKept(s: Ring, a: Action)
    requires |s.memory| == s.j.depth && Indices(s) && Ordered(s) && Enabled(s, a) && Calm(s, a)
    ensures Ordered(Next(s, a))
  {
    hide Masked, Held, NoRoom, Slot, Owner;
    if t :| t in s.reading {
      AloneMeans(s, t);
      OrderKeptAlone(s, a, t);
    } else {
      OrderKeptFree(s, a);
    }
  }

  lemma OrderKeptAlone(s: Ring, a: Action, t: nat)
    requires |s.memory| == s.j.depth && Indices(s) && Ordered(s) && Enabled(s, a) && Calm(s, a)
    requires s.reading.Keys == {t} && s.writes == map[]
    ensures Ordered(Next(s, a))
  {
    hide Masked, Held, NoRoom, Slot, Owner;
    assert Alone(s, t);
    assert !a.Admit? && !a.Release? && !a.Land? && !a.WriteDone?;
    if a.ReadDone? {
      assert a.ticket == t;
      assert (s.reading - {t}).Keys == {};
      var n := Next(s, a);
      assert n.taken == s.taken || n.taken == s.taken + [t];
    } else if a.QueryDone? {
      assert s.reading != map[];
      assert Alone(Next(s, a), t);
    } else {
      assert Alone(Next(s, a), t);
    }
  }

  lemma OrderKeptFree(s: Ring, a: Action)
    requires |s.memory| == s.j.depth && Indices(s) && Ordered(s) && Enabled(s, a) && s.reading.Keys == {}
    ensures Ordered(Next(s, a))
  {
    hide Masked, NoRoom, Slot, Owner, Indices;
    if a.Admit? {
      AdmittedInOrder(s);
    } else {
      hide Held;
      var n := Next(s, a);
      assert n.reading == s.reading && n.admitted == s.admitted;
      assert n.taken == s.taken || (|s.taken| > 0 && n.taken == s.taken[..|s.taken| - 1]);
      assert Ascending(n.taken, n.admitted);
    }
  }

  lemma AdmittedInOrder(s: Ring)
    requires |s.memory| == s.j.depth && Ordered(s) && Enabled(s, Admit) && s.reading.Keys == {}
    ensures Ordered(AdmitOne(s))
  {
    hide Masked, NoRoom, Slot, Owner;
    var n := AdmitOne(s);
    if s.pipelined && Held(s.j) < s.j.depth {
      hide Held;
      assert n.taken == s.taken + [s.admitted] && n.reading == s.reading;
      assert Ascending(n.taken, n.admitted);
    } else {
      hide Held;
      assert n.reading.Keys == {s.admitted} && n.taken == s.taken;
      assert Alone(n, s.admitted);
      assert Ascending(n.taken, n.admitted);
    }
  }

  lemma {:induction false} RunOrdered(pipelined: bool, shift: nat, acts: seq<Action>)
    requires shift < 16 && Run(pipelined, shift, acts).Some? && CalmRun(pipelined, shift, acts)
    ensures Ordered(Run(pipelined, shift, acts).value)
  {
    hide Next, Enabled, Prompt, Calm;
    if acts != [] {
      hide Ordered;
      var before := acts[..|acts| - 1];
      RunOrdered(pipelined, shift, before);
      RunInv(pipelined, shift, before);
      OrderKept(Run(pipelined, shift, before).value, acts[|acts| - 1]);
    }
  }

  /** Positions are reserved, and completions received, in the order the publications were admitted. */
  lemma CompletionsKeepAdmissionOrder(pipelined: bool, shift: nat, acts: seq<Action>, s: Ring)
    requires shift < 16 && Run(pipelined, shift, acts) == Some(s) && CalmRun(pipelined, shift, acts)
    ensures forall i, j :: 0 <= i < j < |s.taken| ==> s.taken[i] < s.taken[j]
    ensures forall i, j :: 0 <= i < j < |s.received| ==>
                             s.received[i].Entry? && s.received[j].Entry? && s.received[i].ticket < s.received[j].ticket
  {
    RunOrdered(pipelined, shift, acts);
    GuestReceivesEachPositionOnce(pipelined, shift, acts, s);
    hide Run, CalmRun;
  }

  // ------------------------------------------------------------------ the hypotheses

  /** Runs that keep to the rules, `Prompt` or not. */
  function FreeRun(pipelined: bool, shift: nat, acts: seq<Action>): (s: Option<Ring>)
    requires shift < 16
    ensures s.Some? ==> |s.value.memory| == s.value.j.depth
  {
    if acts == [] then Some(Created(pipelined, shift))
    else
      var s := FreeRun(pipelined, shift, acts[..|acts| - 1]);
      var a := acts[|acts| - 1];
      if s.None? || !Enabled(s.value, a) then None else Some(Next(s.value, a))
  }

  /** Without queries the hypothesis on reads holds by itself: the ring does not move during a refresh. */
  lemma {:induction false} WithoutQueriesReadsAreTimely(pipelined: bool, shift: nat, acts: seq<Action>)
    requires shift < 16 && forall i :: 0 <= i < |acts| ==> acts[i] != Query
    ensures Run(pipelined, shift, acts) == FreeRun(pipelined, shift, acts)
    ensures CalmRun(pipelined, shift, acts)
    ensures Run(pipelined, shift, acts).Some? ==> Run(pipelined, shift, acts).value.query.None?
  {
    hide Next, Enabled, Prompt;
    if acts != [] {
      var before, a := acts[..|acts| - 1], acts[|acts| - 1];
      WithoutQueriesReadsAreTimely(pipelined, shift, before);
      if Run(pipelined, shift, before).Some? {
        var s := Run(pipelined, shift, before).value;
        RunInv(pipelined, shift, before);
        RunOrdered(pipelined, shift, before);
        if Enabled(s, a) {
          QuietStep(s, a);
        }
        assert Calm(s, a);
      }
    }
  }

  lemma QuietStep(s: Ring, a: Action)
    requires |s.memory| == s.j.depth && Inv(s) && Ordered(s) && s.query.None? && a != Query && Enabled(s, a)
    ensures Prompt(s, a) && Next(s, a).query.None?
  {
    hide Inv, NoRoom, Masked, Held;
    if a.ReadDone? {
      assert Alone(s, a.ticket);
      assert Timely(s, s.reading[a.ticket]) by {
        assert s.j.depth <= 0x20_0000 by {
          Bounded(s);
        }
      }
    }
  }

  lemma Bounded(s: Ring)
    requires |s.memory| == s.j.depth && Inv(s)
    ensures s.j.depth <= 0x20_0000
  {
  }

  // ------------------------------------------------------------------ a query that breaks the order

  lemma Go(shift: nat, acts: seq<Action>, s: Ring, a: Action)
    requires shift < 16 && Run(true, shift, acts) == Some(s) && Enabled(s, a) && Prompt(s, a)
    ensures Run(true, shift, acts + [a]) == Some(Next(s, a))
  {
    assert (acts + [a])[..|acts + [a]| - 1] == acts;
    hide Next, Enabled, Prompt;
  }

  /** `n` completions were published one after the other, and the guest has not looked yet. */
  ghost predicate Filled(s: Ring, n: nat) {
    && s.pipelined && s.j.depth == 64 == |s.memory| && s.j.producer == n == s.admitted && s.inFlight == 0
    && s.j.consumer == s.known == s.posted == s.next == 0 && s.reading == map[] && s.writes == map[] && s.query.None?
    && n <= 64 && s.taken == Tickets(n) && forall i :: 0 <= i < n ==> s.memory[i] == Entry(i, true, i)
  }

  function Tickets(n: nat): (ts: seq<nat>)
    ensures |ts| == n && forall i :: 0 <= i < n ==> ts[i] == i
  {
    seq(n, i => i)
  }

  function Publishing(s: Ring, n: nat): Ring {
    s.(admitted := n + 1, inFlight := 1, j := Taken(s.j, 0, true), known := 0,
       writes := map[n := CqRing.Write(n, false)], taken := Tickets(n + 1))
  }

  lemma FillAdmits(s: Ring, n: nat)
    requires Filled(s, n) && n < 64
    ensures Enabled(s, Admit) && Next(s, Admit) == Publishing(s, n)
  {
    assert Held(s.j) == n;
    assert s.taken + [n] == Tickets(n + 1);
    assert s.writes[n := CqRing.Write(n, false)] == map[n := CqRing.Write(n, false)];
  }

  function Landed(s: Ring, n: nat): Ring
    requires n < |s.memory|
  {
    Publishing(s, n).(writes := map[n := CqRing.Write(n, true)], memory := s.memory[n := Entry(n, true, n)])
  }

  lemma FillLands(s: Ring, n: nat)
    requires Filled(s, n) && n < 64
    ensures Enabled(Publishing(s, n), Land(n)) && Next(Publishing(s, n), Land(n)) == Landed(s, n)
  {
    assert Slot(n, 64) == n && Owner(n, 64);
    assert Publishing(s, n).writes[n := CqRing.Write(n, true)] == map[n := CqRing.Write(n, true)];
  }

  lemma FillOne(acts: seq<Action>, s: Ring, n: nat) returns (acts': seq<Action>, s': Ring)
    requires Run(true, 0, acts) == Some(s) && Filled(s, n) && n < 64
    ensures Run(true, 0, acts') == Some(s') && Filled(s', n + 1)
  {
    hide Run;
    FillAdmits(s, n);
    Go(0, acts, s, Admit);
    acts' := acts + [Admit];
    var s1 := Publishing(s, n);
    FillLands(s, n);
    Go(0, acts', s1, Land(n));
    acts' := acts' + [Land(n)];
    var s2 := Landed(s, n);
    Go(0, acts', s2, WriteDone(n, true));
    acts' := acts' + [WriteDone(n, true)];
    assert s2.writes - {n} == map[];
    var s3 := s2.(writes := map[]);
    Go(0, acts', s3, Release);
    acts' := acts' + [Release];
    s' := s3.(inFlight := 0);
  }

  lemma {:induction false} Fill(n: nat) returns (acts: seq<Action>, s: Ring)
    requires n <= 64
    ensures Run(true, 0, acts) == Some(s) && Filled(s, n)
  {
    if n == 0 {
      acts, s := [], Created(true, 0);
      PowValues();
    } else {
      acts, s := Fill(n - 1);
      acts, s := FillOne(acts, s, n - 1);
    }
  }

  /** The ring is full, the refresh for ticket 64 is under way and the guest takes two completions. */
  lemma GuestCatchesUp(acts: seq<Action>, s: Ring) returns (acts': seq<Action>, s': Ring)
    requires Run(true, 0, acts) == Some(s) && Filled(s, 64)
    ensures Run(true, 0, acts') == Some(s')
    ensures s' == s.(admitted := 65, inFlight := 1, reading := map[64 := Read(0, 64)], next := 2,
                     received := s'.received)
  {
    hide Run;
    assert Held(s.j) == 64;
    Go(0, acts, s, Admit);
    acts' := acts + [Admit];
    var s1 := s.(admitted := 65, inFlight := 1, reading := map[64 := Read(0, 64)]);
    assert Slot(0, 64) == 0 && Slot(1, 64) == 1 && Owner(0, 64) && Owner(1, 64);
    Go(0, acts', s1, Poll);
    acts' := acts' + [Poll];
    var s2 := s1.(next := 1, received := s.received + [s.memory[0]]);
    Go(0, acts', s2, Poll);
    acts' := acts' + [Poll];
    s' := s2.(next := 2, received := s2.received + [s.memory[1]]);
  }

  /** The guest reports its index, and a query brings it into the cache. */
  lemma QueryMovesCache(acts: seq<Action>, s1: Ring) returns (acts': seq<Action>, s4: Ring)
    requires Run(true, 0, acts) == Some(s1) && s1.next == 2 && s1.posted == 0 && s1.query.None?
    requires s1.j.producer == 64 == s1.j.depth
    ensures Run(true, 0, acts') == Some(s4)
    ensures s4 == s1.(posted := 2, j := s1.j.(consumer := 2), known := 2)
  {
    hide Run;
    var s2 := s1.(posted := 2);
    Go(0, acts, s1, Post(2));
    acts' := acts + [Post(2)];
    var s3 := s2.(query := Some(Read(2, 64)));
    Go(0, acts', s2, Query);
    acts' := acts' + [Query];
    s4 := s2.(j := s2.j.(consumer := 2), known := 2);
    Go(0, acts', s3, QueryDone(true, 2));
    acts' := acts' + [QueryDone(true, 2)];
  }

  /** Publication 65 overtakes publication 64: a query moved the cached index while the refresh for 64 was
      outstanding, so 65 was admitted from the cache and took the earlier position. */
  lemma QueryLetsCompletionsOvertake() returns (acts: seq<Action>, s: Ring)
    ensures Run(true, 0, acts) == Some(s)
    ensures |s.taken| == 66 && s.taken[64] == 65 && s.taken[65] == 64
  {
    hide Run;
    acts, s := Fill(64);
    acts, s := GuestCatchesUp(acts, s);
    acts, s := QueryMovesCache(acts, s);
    acts, s := Overtakes(acts, s);
  }

  lemma Overtakes(before: seq<Action>, s4: Ring) returns (acts: seq<Action>, s: Ring)
    requires Run(true, 0, before) == Some(s4) && s4.pipelined && s4.j.depth == 64 && s4.j.producer == 64 == |s4.taken|
    requires s4.j.consumer == 2 == s4.known == s4.posted && s4.admitted == 65 && s4.reading == map[64 := Read(0, 64)]
    ensures Run(true, 0, acts) == Some(s)
    ensures |s.taken| == 66 && s.taken[64] == 65 && s.taken[65] == 64
  {
    hide Run;
    assert Held(s4.j) == 62;
    Go(0, before, s4, Admit);
    acts := before + [Admit];
    var s5 := Next(s4, Admit);
    assert s5.taken == s4.taken + [65] && s5.j.producer == 65 && s5.reading == s4.reading && s5.posted == 2;
    Go(0, acts, s5, ReadDone(64, true, 2));
    acts := acts + [ReadDone(64, true, 2)];
    s := Next(s5, ReadDone(64, true, 2));
    assert !NoRoom(s5.j, Masked(2));
    assert s.taken == s5.taken + [64];
  }
}
