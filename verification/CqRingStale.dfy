/** Why reads of the guest's index must be timely: a run in which a query returns a sample that is a whole
    index space old, the ring looks empty to the device, and it writes over a completion nobody has taken. */
module CqRingStale {
  import opened Cq
  import opened CqRing
  import opened CqRingProof
  import opened CqRingTheorems
  import opened Optional
  import opened Words

  lemma {:induction false} RunIsFree(pipelined: bool, shift: nat, acts: seq<Action>)
    requires shift < 16 && Run(pipelined, shift, acts).Some?
    ensures FreeRun(pipelined, shift, acts) == Run(pipelined, shift, acts)
  {
    hide Next, Enabled, Prompt;
    if acts != [] {
      RunIsFree(pipelined, shift, acts[..|acts| - 1]);
    }
  }

  lemma GoFree(acts: seq<Action>, s: Ring, a: Action, t: Ring)
    requires FreeRun(true, 0, acts) == Some(s) && Enabled(s, a) && Next(s, a) == t
    ensures FreeRun(true, 0, acts + [a]) == Some(t)
  {
    assert (acts + [a])[..|acts + [a]| - 1] == acts;
    hide Next, Enabled;
  }

  /** A full ring of 64: the last 64 of `p` completions are in memory, the guest has taken and reported those
      before them, and a query issued when the first 64 were there has not returned. */
  ghost predicate Full(s: Ring, p: nat) {
    && p >= 64 && s.pipelined && s.j.depth == 64 == |s.memory|
    && s.j.producer == p == s.admitted == |s.taken| && s.inFlight == 0
    && s.known == s.posted == s.next == p - 64 && s.j.consumer == Masked(p - 64)
    && s.reading == map[] && s.writes == map[] && s.query == Some(Read(0, 64))
    && forall i :: p - 64 <= i < p ==> Holds(s.memory, i)
  }

  /** The slot of position `i` holds the completion of that position. */
  predicate Holds(memory: seq<Cell>, i: nat) {
    |memory| == 64 && memory[Slot(i, 64)].Entry? && memory[Slot(i, 64)].index == i
    && memory[Slot(i, 64)].owner == Owner(i, 64)
  }

  /** The guest takes the oldest completion and reports it. */
  lemma GuestTakesOne(acts: seq<Action>, s: Ring, p: nat) returns (acts': seq<Action>, t: Ring)
    requires FreeRun(true, 0, acts) == Some(s) && Full(s, p)
    ensures FreeRun(true, 0, acts') == Some(t)
    ensures t == s.(next := p - 63, posted := p - 63, received := t.received)
  {
    hide FreeRun;
    var n := p - 64;
    MaskedIsEnough(n, 0);
    PowValues();
    assert Holds(s.memory, n);
    var s1 := s.(next := n + 1, received := s.received + [Polled(s)]);
    GoFree(acts, s, Poll, s1);
    t := s1.(posted := n + 1);
    GoFree(acts + [Poll], s1, Post(n + 1), t);
    acts' := acts + [Poll] + [Post(n + 1)];
  }

  /** With a full ring the device asks for the guest's index ... */
  lemma DeviceRefreshes(s: Ring, p: nat)
    requires p >= 64 && s.pipelined && s.j.depth == 64 == |s.memory| && s.j.producer == p == s.admitted
    requires s.inFlight == 0 && s.posted == p - 63 && s.j.consumer == Masked(p - 64) && s.reading == map[]
    ensures Enabled(s, Admit)
    ensures Next(s, Admit) == s.(admitted := p + 1, inFlight := 1, reading := map[p := Read(p - 63, p)])
  {
    MaskedDifference(p, p - 64);
    assert s.reading[p := Read(p - 63, p)] == map[p := Read(p - 63, p)];
    hide Masked;
  }

  /** ... and reserves the position it finds free. */
  lemma DevicePublishes(s: Ring, p: nat)
    requires p >= 64 && s.pipelined && s.j.depth == 64 == |s.memory| && s.j.producer == p
    requires s.posted == p - 63 && s.reading == map[p := Read(p - 63, p)] && s.writes == map[]
    ensures Enabled(s, ReadDone(p, true, p - 63))
    ensures Next(s, ReadDone(p, true, p - 63)) ==
            s.(reading := map[], known := p - 63, writes := map[p := CqRing.Write(p, false)],
               j := s.j.(consumer := Masked(p - 63), producer := p + 1, writing := s.j.writing + 1),
               taken := s.taken + [p])
  {
    MaskedDifference(p, p - 63);
    assert s.reading - {p} == map[];
    assert s.writes[p := CqRing.Write(p, false)] == map[p := CqRing.Write(p, false)];
    hide Masked;
  }

  lemma DeviceReserves(acts: seq<Action>, s: Ring, p: nat) returns (acts': seq<Action>, t: Ring)
    requires FreeRun(true, 0, acts) == Some(s) && p >= 64 && s.pipelined && s.j.depth == 64 == |s.memory|
    requires s.j.producer == p == s.admitted && s.inFlight == 0
    requires s.posted == p - 63 && s.j.consumer == Masked(p - 64) && s.reading == map[] && s.writes == map[]
    ensures FreeRun(true, 0, acts') == Some(t)
    ensures t == s.(admitted := p + 1, inFlight := 1, known := p - 63, writes := map[p := CqRing.Write(p, false)],
                    j := s.j.(consumer := Masked(p - 63), producer := p + 1, writing := s.j.writing + 1),
                    taken := s.taken + [p])
  {
    hide FreeRun;
    DeviceRefreshes(s, p);
    var s1 := s.(admitted := p + 1, inFlight := 1, reading := map[p := Read(p - 63, p)]);
    DevicePublishes(s1, p);
    hide Masked, Next, Enabled;
    GoFree(acts, s, Admit, s1);
    t := s1.(reading := map[], known := p - 63, writes := map[p := CqRing.Write(p, false)],
             j := s.j.(consumer := Masked(p - 63), producer := p + 1, writing := s.j.writing + 1),
             taken := s.taken + [p]);
    GoFree(acts + [Admit], s1, ReadDone(p, true, p - 63), t);
    acts' := acts + [Admit] + [ReadDone(p, true, p - 63)];
  }

  /** And writes it. */
  lemma DeviceWrites(acts: seq<Action>, s: Ring, p: nat) returns (acts': seq<Action>, t: Ring)
    requires FreeRun(true, 0, acts) == Some(s) && s.pipelined && s.j.depth == 64 == |s.memory|
    requires s.inFlight == 1 && s.reading == map[] && s.writes == map[p := CqRing.Write(p, false)]
    ensures FreeRun(true, 0, acts') == Some(t)
    ensures t == s.(inFlight := 0, writes := map[],
                    memory := s.memory[Slot(p, 64) := Entry(p, Owner(p, 64), p)])
  {
    hide FreeRun, Slot, Owner;
    var memory := s.memory[Slot(p, 64) := Entry(p, Owner(p, 64), p)];
    var s1 := s.(writes := map[p := CqRing.Write(p, true)], memory := memory);
    assert s.writes[p := CqRing.Write(p, true)] == s1.writes;
    GoFree(acts, s, Land(p), s1);
    var s2 := s.(writes := map[], memory := memory);
    assert s1.writes - {p} == map[];
    GoFree(acts + [Land(p)], s1, WriteDone(p, true), s2);
    acts' := acts + [Land(p)] + [WriteDone(p, true)];
    t := s2.(inFlight := 0);
    GoFree(acts', s2, Release, t);
    acts' := acts' + [Release];
  }

  lemma MemoryMoves(memory: seq<Cell>, after: seq<Cell>, p: nat)
    requires p >= 64 && |memory| == 64 && forall i :: p - 64 <= i < p ==> Holds(memory, i)
    requires after == memory[Slot(p, 64) := Entry(p, Owner(p, 64), p)]
    ensures forall i :: p - 63 <= i < p + 1 ==> Holds(after, i)
  {
    forall i | p - 63 <= i < p + 1
      ensures Holds(after, i)
    {
      if i < p {
        assert Holds(memory, i);
        SlotsDiffer(i, p, 64);
      }
      hide Slot, Owner;
    }
  }

  lemma OneMore(acts: seq<Action>, s: Ring, p: nat) returns (acts': seq<Action>, t: Ring)
    requires FreeRun(true, 0, acts) == Some(s) && Full(s, p)
    ensures FreeRun(true, 0, acts') == Some(t) && Full(t, p + 1)
  {
    hide FreeRun, Holds, Slot, Owner, Masked;
    acts', t := GuestTakesOne(acts, s, p);
    acts', t := DeviceReserves(acts', t, p);
    acts', t := DeviceWrites(acts', t, p);
    MemoryMoves(s.memory, t.memory, p);
  }

  lemma FilledIsFull(s: Ring)
    requires Filled(s, 64)
    ensures Full(s.(query := Some(Read(0, 64))), 64) && Enabled(s, Query)
    ensures Next(s, Query) == s.(query := Some(Read(0, 64)))
  {
    forall i | 0 <= i < 64
      ensures Holds(s.memory, i)
    {
      assert Slot(i, 64) == i && Owner(i, 64);
      assert s.memory[i] == Entry(i, true, i);
    }
    hide Holds;
  }

  lemma FirstFull() returns (acts: seq<Action>, s: Ring)
    ensures FreeRun(true, 0, acts) == Some(s) && Full(s, 64)
  {
    hide FreeRun, Run, Filled, Full, Next, Enabled;
    var filled;
    acts, filled := Fill(64);
    RunIsFree(true, 0, acts);
    FilledIsFull(filled);
    s := filled.(query := Some(Read(0, 64)));
    GoFree(acts, filled, Query, s);
    acts := acts + [Query];
  }

  lemma {:induction false} ManyLaps(p: nat) returns (acts: seq<Action>, s: Ring)
    requires p >= 64
    ensures FreeRun(true, 0, acts) == Some(s) && Full(s, p)
    decreases p
  {
    hide FreeRun, Full;
    if p == 64 {
      acts, s := FirstFull();
    } else {
      acts, s := ManyLaps(p - 1);
      acts, s := OneMore(acts, s, p - 1);
    }
  }

  /** With a ring that is full, the query returns what it read when the index was zero: to the device the ring
      is empty, and the next completion goes over one that the guest has not taken. */
  lemma StaleSampleOverwritesUnread() returns (acts: seq<Action>, s: Ring)
    ensures FreeRun(true, 0, acts) == Some(s) && Enabled(s, Land(INDEX))
    ensures var c := s.memory[Slot(INDEX, s.j.depth)]; c.Entry? && c.index == INDEX - 64 && s.next == INDEX - 64
  {
    var full;
    acts, full := ManyLaps(INDEX);
    hide FreeRun;
    var s1 := full.(query := None, j := full.j.(consumer := 0), known := 0);
    GoFree(acts, full, QueryDone(true, 0), s1);
    acts := acts + [QueryDone(true, 0)];
    assert Held(s1.j) == 0;
    s := Next(s1, Admit);
    GoFree(acts, s1, Admit, s);
    acts := acts + [Admit];
    assert Holds(full.memory, INDEX - 64);
    assert Slot(INDEX - 64, 64) == Slot(INDEX, 64) == 0;
    assert s.memory == full.memory && INDEX in s.writes && !s.writes[INDEX].landed;
  }
}
