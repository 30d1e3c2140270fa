/** Several READs at once: they share the adapter's table of target DMA and the memories of their devices. */
module ReadMany {
  import opened Native
  import opened Optional
  import opened ReadPath
  import opened ReadPathProof
  import opened Rma
  import opened RmaProof
  import opened Words

  /** How far each READ is, the one table of target DMA, and the memory of each endpoint's guest.  The table of a
      path is not used. */
  datatype Many = Many(paths: seq<Path>, targets: map<TargetKey, Target>, memory: seq<int -> u8>)

  /** Event `e` of READ `i`. */
  datatype Happening = Happening(i: nat, e: Event)

  predicate InBuffer(r: Request, a: int) { 0 <= a - r.address < r.length }

  /** READs over one fabric, told apart by requester and number and by the number of their task, with buffers that do
      not meet. */
  ghost predicate Together(rs: seq<Request>, memory: seq<int -> u8>) {
    && (forall i :: 0 <= i < |rs| ==> Placeable(rs[i]) && |memory| == |rs[i].net| && rs[i].before == memory[rs[i].from])
    && (forall i, j :: 0 <= i < j < |rs| ==> rs[i].net == rs[j].net && rs[i].task != rs[j].task)
    && (forall i, j :: 0 <= i < j < |rs| ==> (rs[i].from, rs[i].id) != (rs[j].from, rs[j].id))
    && (forall i, j, a :: 0 <= i < j < |rs| && rs[i].from == rs[j].from ==> !(InBuffer(rs[i], a) && InBuffer(rs[j], a)))
  }

  ghost predicate Stands(rs: seq<Request>, s: Many) {
    && |s.paths| == |rs|
    && (forall i :: 0 <= i < |rs| ==> Wired(rs[i]) && rs[i].from < |s.memory| && Standing(rs[i], s.paths[i]))
  }

  function WithTargets(p: Path, targets: map<TargetKey, Target>): Path { p.(targets := targets) }

  ghost predicate Possible(rs: seq<Request>, s: Many, h: Happening) {
    |s.paths| == |rs| && h.i < |rs| && Legal(rs[h.i], s.paths[h.i], h.e)
  }

  /** The table leads an answer to the task of another READ; it counts as an exception here. */
  predicate Misled(r: Request, targets: map<TargetKey, Target>, e: Event) {
    e.Serve? && Key(r, e.k) in targets && targets[Key(r, e.k)].task != r.task
  }

  /** The event happens on the common table, and a write reaches the common memory. */
  ghost function Step(rs: seq<Request>, s: Many, h: Happening): (t: Option<Many>)
    requires Stands(rs, s) && Possible(rs, s, h)
    ensures t.Some? ==> Stands(rs, t.value)
  {
    var r, p := rs[h.i], s.paths[h.i];
    var q := ReadPath.Step(r, WithTargets(p, s.targets), h.e);
    if q.None? || Misled(r, s.targets, h.e) then None
    else
      Some(Many(s.paths[h.i := WithTargets(q.value, map[])], q.value.targets,
                if h.e.Place? then
                  var w := p.device.writes[h.e.i];
                  s.memory[r.from := Patched(s.memory[r.from], w.address, w.bytes)]
                else s.memory))
  }

  datatype Outcome = Reached(s: Many) | Illegal | Raised

  ghost function Start(rs: seq<Request>, memory: seq<int -> u8>): Many {
    Many(seq(|rs|, i requires 0 <= i < |rs| => Fresh(rs[i])), map[], memory)
  }

  lemma StartStands(rs: seq<Request>, memory: seq<int -> u8>)
    requires Together(rs, memory)
    ensures Stands(rs, Start(rs, memory))
  {
    forall i | 0 <= i < |rs|
      ensures Standing(rs[i], Fresh(rs[i]))
    {
      FreshInv(rs[i]);
    }
  }

  ghost function Run(rs: seq<Request>, memory: seq<int -> u8>, hs: seq<Happening>): (o: Outcome)
    requires Together(rs, memory)
    ensures o.Reached? ==> Stands(rs, o.s)
  {
    if hs == [] then
      StartStands(rs, memory);
      Reached(Start(rs, memory))
    else
      var o := Run(rs, memory, hs[..|hs| - 1]);
      if !o.Reached? then o
      else if !Possible(rs, o.s, hs[|hs| - 1]) then Illegal
      else
        var t := Step(rs, o.s, hs[|hs| - 1]);
        if t.None? then Raised else Reached(t.value)
  }

  // ------------------------------------------------------------------ one READ among the others

  predicate IsOf(r: Request, key: TargetKey) { key.source == r.from && key.request == r.id }

  /** What of the table is about one READ. */
  function Mine(targets: map<TargetKey, Target>, r: Request): map<TargetKey, Target> {
    map key | key in targets && IsOf(r, key) :: targets[key]
  }

  /** The state of one READ as it would be alone. */
  function Alone(s: Many, r: Request, i: nat): Path
    requires i < |s.paths|
  {
    WithTargets(s.paths[i], Mine(s.targets, r))
  }

  /** The events of READ `i`. */
  function EventsOf(hs: seq<Happening>, i: nat): seq<Event> {
    if hs == [] then []
    else
      var before := EventsOf(hs[..|hs| - 1], i);
      if hs[|hs| - 1].i == i then before + [hs[|hs| - 1].e] else before
  }

  /** A step on the common table is the step the READ would take alone, and leaves the others alone. */
  lemma StepAlone(r: Request, p: Path, targets: map<TargetKey, Target>, e: Event)
    requires Carried(r) && Inv(r, WithTargets(p, Mine(targets, r))) && Legal(r, p, e) && Standing(r, p)
    ensures var q := ReadPath.Step(r, WithTargets(p, targets), e);
            var alone := ReadPath.Step(r, WithTargets(p, Mine(targets, r)), e);
            && q.Some? && alone.Some? && alone.value == WithTargets(q.value, Mine(q.value.targets, r))
            && (forall key :: !IsOf(r, key) ==> (key in q.value.targets <==> key in targets))
            && (forall key :: !IsOf(r, key) && key in targets ==> q.value.targets[key] == targets[key])
  {
    hide Inv, Mine, Executes, Serves;
    match e
    case Execute(k) => ExecuteAlone(r, p, targets, k);
    case Serve(k) => ServeAlone(r, p, targets, k);
    case _ => OtherAlone(r, p, targets, e);
  }

  /** The other events do not look at the table. */
  lemma OtherAlone(r: Request, p: Path, targets: map<TargetKey, Target>, e: Event)
    requires Carried(r) && Inv(r, WithTargets(p, Mine(targets, r))) && Legal(r, p, e) && Standing(r, p)
    requires !e.Execute? && !e.Serve?
    ensures var q := ReadPath.Step(r, WithTargets(p, targets), e);
            var alone := ReadPath.Step(r, WithTargets(p, Mine(targets, r)), e);
            && q.Some? && alone.Some? && alone.value == WithTargets(q.value, Mine(targets, r))
            && q.value.targets == targets
  {
    StepKeeps(r, WithTargets(p, Mine(targets, r)), e);
    hide Inv, Mine, Carried, Enters, ReadPath.Step, Legal;
    Indifferent(r, WithTargets(p, Mine(targets, r)), targets, e);
    Indifferent(r, WithTargets(p, targets), targets, e);
  }

  lemma Indifferent(r: Request, p: Path, targets: map<TargetKey, Target>, e: Event)
    requires Wired(r) && Legal(r, p, e) && Standing(r, p) && !e.Execute? && !e.Serve?
    ensures Legal(r, WithTargets(p, targets), e) && Standing(r, WithTargets(p, targets))
    ensures var q, other := ReadPath.Step(r, p, e), ReadPath.Step(r, WithTargets(p, targets), e);
            && q.Some? == other.Some?
            && (q.Some? ==> other.value == WithTargets(q.value, targets) && q.value.targets == p.targets)
  {
    hide Wellformed, SegmentSent, SegmentCompleted, Acceptable, Accept, Land, Terminal, Status, Enters;
    match e
    case Submit =>
    case Send =>
    case Return(k) =>
    case Arrive =>
    case Place(i) =>
    case _ =>
  }

  lemma ExecuteAlone(r: Request, p: Path, targets: map<TargetKey, Target>, k: nat)
    requires Carried(r) && Inv(r, WithTargets(p, Mine(targets, r))) && Legal(r, p, Execute(k)) && Standing(r, p)
    ensures var q := Executes(r, WithTargets(p, targets), k);
            var alone := Executes(r, WithTargets(p, Mine(targets, r)), k);
            && q.Some? && alone.Some? && alone.value == WithTargets(q.value, Mine(q.value.targets, r))
            && q.value.targets == targets[Key(r, k) := TargetOf(r, k)]
  {
    var p1 := WithTargets(p, Mine(targets, r));
    assert AtTarget(r, p1, k);
    assert Key(r, k) !in targets;
    SegmentTaken(r, targets, k);
    SegmentTaken(r, p1.targets, k);
    hide Inv, TargetExecuted, TargetOf, Ssn;
    assert Mine(targets[Key(r, k) := TargetOf(r, k)], r) == Mine(targets, r)[Key(r, k) := TargetOf(r, k)];
  }

  lemma ServeAlone(r: Request, p: Path, targets: map<TargetKey, Target>, k: nat)
    requires Carried(r) && Inv(r, WithTargets(p, Mine(targets, r))) && Legal(r, p, Serve(k)) && Standing(r, p)
    ensures var q := Serves(r, WithTargets(p, targets), k);
            var alone := Serves(r, WithTargets(p, Mine(targets, r)), k);
            && q.Some? && alone.Some? && alone.value == WithTargets(q.value, Mine(q.value.targets, r))
            && (q.value.targets == targets || q.value.targets == targets - {Key(r, k)})
  {
    var p1, p2 := WithTargets(p, Mine(targets, r)), WithTargets(p, targets);
    assert Entry(r, p1, k) && AtTarget(r, p1, k);
    assert Entry(r, p2, k) && AtTarget(r, p2, k);
    AnswerTaken(r, p1, k);
    AnswerTaken(r, p2, k);
    hide Inv, TargetCompleted, ReadAnswer, TargetOf, Ssn, Slice, Answerable, Entry;
    assert Mine(targets - {Key(r, k)}, r) == Mine(targets, r) - {Key(r, k)};
  }

  /** The others' part of the table stays as it is. */
  lemma OthersStay(targets: map<TargetKey, Target>, after: map<TargetKey, Target>, r: Request, other: Request)
    requires (r.from, r.id) != (other.from, other.id)
    requires forall key :: !IsOf(r, key) ==> (key in after <==> key in targets)
    requires forall key :: !IsOf(r, key) && key in targets ==> after[key] == targets[key]
    ensures Mine(after, other) == Mine(targets, other)
  {
    assert forall key :: IsOf(other, key) ==> !IsOf(r, key);
  }

  lemma Apart(rs: seq<Request>, memory: seq<int -> u8>, i: nat, j: nat)
    requires Together(rs, memory) && i < |rs| && j < |rs| && i != j
    ensures (rs[i].from, rs[i].id) != (rs[j].from, rs[j].id)
    ensures rs[i].from == rs[j].from ==> forall a :: !(InBuffer(rs[i], a) && InBuffer(rs[j], a))
  {
    if i < j {
    } else {
      assert (rs[j].from, rs[j].id) != (rs[i].from, rs[i].id);
    }
  }

  ghost predicate EachAlone(rs: seq<Request>, hs: seq<Happening>, s: Many) {
    |s.paths| == |rs| && forall i {:trigger rs[i]} :: 0 <= i < |rs| ==>
      Wired(rs[i]) && ReadPath.Run(rs[i], EventsOf(hs, i)) == ReadPath.At(Alone(s, rs[i], i))
  }

  lemma OfOne(rs: seq<Request>, memory: seq<int -> u8>, hs: seq<Happening>, s: Many, i: nat)
    requires Together(rs, memory) && EachAlone(rs, hs, s) && i < |rs|
    ensures |s.paths| == |rs| && Placeable(rs[i]) && Carried(rs[i]) && Wired(rs[i])
    ensures ReadPath.Run(rs[i], EventsOf(hs, i)) == ReadPath.At(Alone(s, rs[i], i))
  {
    hide ReadPath.Run;
    assert Wired(rs[i]) && ReadPath.Run(rs[i], EventsOf(hs, i)) == ReadPath.At(Alone(s, rs[i], i));
  }

  lemma StepEach(rs: seq<Request>, memory: seq<int -> u8>, before: seq<Happening>, s: Many, h: Happening)
    requires Together(rs, memory) && Stands(rs, s) && EachAlone(rs, before, s) && Possible(rs, s, h)
    ensures Step(rs, s, h).Some? && EachAlone(rs, before + [h], Step(rs, s, h).value)
  {
    hide Together, EachAlone, ReadPath.Run, ReadPath.Step, Inv, Carried, Placeable, Mine, Standing, Legal, Wired;
    var r, es := rs[h.i], EventsOf(before, h.i);
    assert (before + [h])[..|before|] == before;
    OfOne(rs, memory, before, s, h.i);
    OneGoesOn(r, s, h, es);
    assert Step(rs, s, h).Some?;
    var t := Step(rs, s, h).value;
    forall i | 0 <= i < |rs|
      ensures Wired(rs[i]) && ReadPath.Run(rs[i], EventsOf(before + [h], i)) == ReadPath.At(Alone(t, rs[i], i))
    {
      OfOne(rs, memory, before, s, i);
      if i != h.i {
        Apart(rs, memory, h.i, i);
        OthersStay(s.targets, t.targets, r, rs[i]);
      }
    }
    Each(rs, before + [h], t);
  }

  lemma Each(rs: seq<Request>, hs: seq<Happening>, s: Many)
    requires |s.paths| == |rs|
    requires forall i {:trigger rs[i]} :: 0 <= i < |rs| ==>
               Wired(rs[i]) && ReadPath.Run(rs[i], EventsOf(hs, i)) == ReadPath.At(Alone(s, rs[i], i))
    ensures EachAlone(rs, hs, s)
  {
    hide Wired, ReadPath.Run, EventsOf, Alone;
  }

  /** What may happen next does not depend on the table. */
  lemma SameView(r: Request, p: Path, targets: map<TargetKey, Target>, e: Event)
    ensures Legal(r, WithTargets(p, targets), e) == Legal(r, p, e)
    ensures Standing(r, WithTargets(p, targets)) == Standing(r, p)
  {
    hide Wellformed;
  }

  lemma NotMisled(r: Request, p: Path, targets: map<TargetKey, Target>, e: Event)
    requires Carried(r) && Inv(r, WithTargets(p, Mine(targets, r))) && Legal(r, p, e)
    ensures !Misled(r, targets, e)
  {
    var p1 := WithTargets(p, Mine(targets, r));
    if e.Serve? {
      assert AtTarget(r, p1, e.k);
      assert Key(r, e.k) in targets ==> targets[Key(r, e.k)] == p1.targets[Key(r, e.k)];
    }
  }

  /** The READ whose event it is goes on as it would alone. */
  lemma OneGoesOn(r: Request, s: Many, h: Happening, es: seq<Event>)
    requires Carried(r) && Wired(r) && h.i < |s.paths|
    requires Standing(r, s.paths[h.i]) && Legal(r, s.paths[h.i], h.e)
    requires ReadPath.Run(r, es) == ReadPath.At(Alone(s, r, h.i))
    ensures var q := ReadPath.Step(r, WithTargets(s.paths[h.i], s.targets), h.e);
            && q.Some? && !Misled(r, s.targets, h.e)
            && ReadPath.Run(r, es + [h.e]) == ReadPath.At(WithTargets(q.value, Mine(q.value.targets, r)))
            && (forall key :: !IsOf(r, key) ==> (key in q.value.targets <==> key in s.targets))
            && (forall key :: !IsOf(r, key) && key in s.targets ==> q.value.targets[key] == s.targets[key])
  {
    hide ReadPath.Run, ReadPath.Step, Inv, Mine, Standing, Legal, Posted, Enters, Count, Start;
    SameView(r, s.paths[h.i], Mine(s.targets, r), h.e);
    SameView(r, s.paths[h.i], s.targets, h.e);
    RunInv(r, es);
    NotMisled(r, s.paths[h.i], s.targets, h.e);
    StepAlone(r, s.paths[h.i], s.targets, h.e);
    var q := ReadPath.Step(r, WithTargets(s.paths[h.i], s.targets), h.e).value;
    RunOn(r, es, Alone(s, r, h.i), h.e, WithTargets(q, Mine(q.targets, r)));
  }

  /** However their events interleave, each READ goes on as if it were alone, and no exception is raised. */
  lemma {:induction false} RunEach(rs: seq<Request>, memory: seq<int -> u8>, hs: seq<Happening>)
    requires Together(rs, memory)
    ensures !Run(rs, memory, hs).Raised?
    ensures Run(rs, memory, hs).Reached? ==> EachAlone(rs, hs, Run(rs, memory, hs).s)
  {
    hide Step, Possible, EachAlone, Together;
    if hs == [] {
      StartAlone(rs, memory);
    } else {
      var before := hs[..|hs| - 1];
      RunEach(rs, memory, before);
      var o := Run(rs, memory, before);
      if o.Reached? && Possible(rs, o.s, hs[|hs| - 1]) {
        StepEach(rs, memory, before, o.s, hs[|hs| - 1]);
        assert before + [hs[|hs| - 1]] == hs;
      }
    }
  }

  lemma StartAlone(rs: seq<Request>, memory: seq<int -> u8>)
    requires Together(rs, memory)
    ensures EachAlone(rs, [], Start(rs, memory))
  {
    var s := Start(rs, memory);
    forall i | 0 <= i < |rs|
      ensures Wired(rs[i]) && ReadPath.Run(rs[i], EventsOf([], i)) == ReadPath.At(Alone(s, rs[i], i))
    {
      FreshInv(rs[i]);
      assert Mine(map[], rs[i]) == map[];
    }
  }

  // ------------------------------------------------------------------ memory

  predicate Nobodys(rs: seq<Request>, m: nat, a: int) {
    forall i :: 0 <= i < |rs| && rs[i].from == m ==> !InBuffer(rs[i], a)
  }

  /** The memory of an endpoint's guest holds in each buffer what the READ wrote there, and elsewhere what it held. */
  ghost predicate Shared(rs: seq<Request>, memory: seq<int -> u8>, s: Many) {
    && |s.paths| == |rs| && |s.memory| == |memory| && (forall i :: 0 <= i < |rs| ==> rs[i].from < |memory|)
    && (forall i, a :: 0 <= i < |rs| && InBuffer(rs[i], a) ==> s.memory[rs[i].from](a) == s.paths[i].memory(a))
    && (forall m: nat, a :: m < |memory| && Nobodys(rs, m, a) ==> s.memory[m](a) == memory[m](a))
  }

  /** A write of a READ stays in its buffer. */
  lemma WriteStays(r: Request, s: Path, k: nat, a: int)
    requires Placeable(r) && Inv(r, s) && k < |s.device.writes|
    requires var w := s.device.writes[k]; 0 <= a - w.address < |w.bytes|
    ensures InBuffer(r, a)
  {
    assert WriteOf(r, s.device.writes[k], s.order[k]);
    WriteCovers(r, s.device.writes[k], s.order[k], a);
  }

  lemma StepShares(rs: seq<Request>, memory: seq<int -> u8>, s: Many, h: Happening)
    requires Together(rs, memory) && Stands(rs, s) && Shared(rs, memory, s) && Possible(rs, s, h)
    requires Inv(rs[h.i], Alone(s, rs[h.i], h.i)) && Step(rs, s, h).Some?
    ensures Shared(rs, memory, Step(rs, s, h).value)
  {
    var t := Step(rs, s, h).value;
    hide Together, Stands, Possible, Legal, Shared, Inv, Placeable, Mine, InBuffer, Step;
    var r, p := rs[h.i], s.paths[h.i];
    Changed(rs, s, h);
    assert Placeable(r) by {
      OnePlaceable(rs, memory, h.i);
    }
    if !h.e.Place? {
      SameShares(rs, memory, s, t, h.i);
    } else {
      forall a | 0 <= a - p.device.writes[h.e.i].address < |p.device.writes[h.e.i].bytes|
        ensures InBuffer(r, a)
      {
        WriteStays(r, Alone(s, r, h.i), h.e.i, a);
      }
      PlaceShares(rs, memory, s, t, h.i, p.device.writes[h.e.i]);
    }
  }

  lemma OnePlaceable(rs: seq<Request>, memory: seq<int -> u8>, i: nat)
    requires Together(rs, memory) && i < |rs|
    ensures Placeable(rs[i])
  {
  }

  /** What a step does to the paths and memories. */
  lemma Changed(rs: seq<Request>, s: Many, h: Happening)
    requires Stands(rs, s) && Possible(rs, s, h) && Step(rs, s, h).Some?
    ensures var t, p, m := Step(rs, s, h).value, s.paths[h.i], rs[h.i].from;
            && |t.paths| == |rs| && m < |s.memory|
            && (forall i :: 0 <= i < |rs| && i != h.i ==> t.paths[i] == s.paths[i])
            && (h.e.Place? ==> h.e.i < |p.device.writes|)
            && if h.e.Place? then
                 var w := p.device.writes[h.e.i];
                 && t.memory == s.memory[m := Patched(s.memory[m], w.address, w.bytes)]
                 && t.paths[h.i].memory == Patched(p.memory, w.address, w.bytes)
               else t.memory == s.memory && t.paths[h.i].memory == p.memory
  {
    hide ReadPath.Step, Standing;
    SameView(rs[h.i], s.paths[h.i], s.targets, h.e);
    MemoryOf(rs[h.i], WithTargets(s.paths[h.i], s.targets), h.e);
  }

  lemma SameShares(rs: seq<Request>, memory: seq<int -> u8>, s: Many, t: Many, k: nat)
    requires Shared(rs, memory, s) && k < |rs| && |t.paths| == |rs|
    requires t.memory == s.memory && t.paths[k].memory == s.paths[k].memory
    requires forall i :: 0 <= i < |rs| && i != k ==> t.paths[i] == s.paths[i]
    ensures Shared(rs, memory, t)
  {
    hide InBuffer;
  }

  lemma PlaceShares(rs: seq<Request>, memory: seq<int -> u8>, s: Many, t: Many, k: nat, w: Write)
    requires Together(rs, memory) && Shared(rs, memory, s) && k < |rs| && |t.paths| == |rs|
    requires t.memory == s.memory[rs[k].from := Patched(s.memory[rs[k].from], w.address, w.bytes)]
    requires t.paths[k].memory == Patched(s.paths[k].memory, w.address, w.bytes)
    requires forall i :: 0 <= i < |rs| && i != k ==> t.paths[i] == s.paths[i]
    requires forall a :: 0 <= a - w.address < |w.bytes| ==> InBuffer(rs[k], a)
    ensures Shared(rs, memory, t)
  {
    hide Together, InBuffer;
    forall i, a | 0 <= i < |rs| && InBuffer(rs[i], a)
      ensures t.memory[rs[i].from](a) == t.paths[i].memory(a)
    {
      if i != k && rs[i].from == rs[k].from {
        Apart(rs, memory, k, i);
      }
    }
  }

  lemma MemoryOf(r: Request, p: Path, e: Event)
    requires Wired(r) && Legal(r, p, e) && Standing(r, p) && ReadPath.Step(r, p, e).Some?
    ensures var q := ReadPath.Step(r, p, e).value;
            if e.Place? then q.memory == Patched(p.memory, p.device.writes[e.i].address, p.device.writes[e.i].bytes)
            else q.memory == p.memory
  {
    hide Wellformed, SegmentSent, SegmentCompleted, TargetExecuted, TargetCompleted, Acceptable, Accept, Land, Enters;
  }

  lemma {:induction false} RunShares(rs: seq<Request>, memory: seq<int -> u8>, hs: seq<Happening>)
    requires Together(rs, memory) && Run(rs, memory, hs).Reached?
    ensures Shared(rs, memory, Run(rs, memory, hs).s)
  {
    if hs == [] {
    } else {
      var before, h := hs[..|hs| - 1], hs[|hs| - 1];
      RunShares(rs, memory, before);
      RunEach(rs, memory, before);
      var s := Run(rs, memory, before).s;
      RunInv(rs[h.i], EventsOf(before, h.i));
      hide Shared, Together, Stands, Inv, Step;
      StepShares(rs, memory, s, h);
    }
  }

  /** READ `i` is complete with success exactly if its last segment is in place, and then its buffer holds the remote
      bytes. */
  ghost predicate Exact(rs: seq<Request>, s: Many, i: nat) {
    && i < |rs| == |s.paths| && rs[i].from < |s.memory| && |rs[i].contents| == rs[i].length
    && var r, p := rs[i], s.paths[i];
       && p.errors == 0
       && (p.completed.Some? <==> forall k: nat :: k < Count(r.length) ==> Delivered(p, k))
       && (p.completed.Some? ==>
             && p.completed.value == SUCCESS
             && forall j :: 0 <= j < r.length ==> s.memory[r.from](r.address + j) == r.contents[j])
  }

  /** Any number of READs at once, in whatever order their events come: each completes with success when and only
      when its own last segment is in place, its buffer then holds the remote bytes, and no byte outside the buffers
      has changed in any guest's memory. */
  lemma ManyReadsAreExact(rs: seq<Request>, memory: seq<int -> u8>, hs: seq<Happening>, s: Many)
    requires Together(rs, memory) && Run(rs, memory, hs) == Reached(s)
    ensures forall i :: 0 <= i < |rs| ==> Exact(rs, s, i)
    ensures |s.memory| == |memory|
    ensures forall m: nat, a :: m < |memory| && Nobodys(rs, m, a) ==> s.memory[m](a) == memory[m](a)
  {
    RunEach(rs, memory, hs);
    RunShares(rs, memory, hs);
    hide Run, ReadPath.Run, Delivered;
    forall i | 0 <= i < |rs|
      ensures Exact(rs, s, i)
    {
      OneIsExact(rs, memory, hs, s, i);
    }
  }

  lemma OneIsExact(rs: seq<Request>, memory: seq<int -> u8>, hs: seq<Happening>, s: Many, i: nat)
    requires Together(rs, memory) && EachAlone(rs, hs, s) && Shared(rs, memory, s) && i < |rs|
    ensures Exact(rs, s, i)
  {
    hide Together, EachAlone, Shared, ReadPath.Run, Delivered, Placeable, InBuffer;
    OfOne(rs, memory, hs, s, i);
    var r, alone := rs[i], Alone(s, rs[i], i);
    BufferOf(rs, memory, s, i);
    ReadIsExact(r, EventsOf(hs, i), alone);
    SameDelivery(s, r, i);
    SameBytes(r, alone, s.memory[r.from]);
  }

  lemma BufferOf(rs: seq<Request>, memory: seq<int -> u8>, s: Many, i: nat)
    requires Shared(rs, memory, s) && i < |rs|
    ensures |s.paths| == |rs| && rs[i].from < |s.memory|
    ensures forall a :: InBuffer(rs[i], a) ==> s.memory[rs[i].from](a) == s.paths[i].memory(a)
  {
  }

  lemma SameBytes(r: Request, p: Path, memory: int -> u8)
    requires |r.contents| == r.length && forall a :: InBuffer(r, a) ==> memory(a) == p.memory(a)
    requires p.completed.Some? ==> forall j :: 0 <= j < r.length ==> p.memory(r.address + j) == r.contents[j]
    ensures p.completed.Some? ==> forall j :: 0 <= j < r.length ==> memory(r.address + j) == r.contents[j]
  {
    if p.completed.Some? {
      forall j | 0 <= j < r.length
        ensures memory(r.address + j) == r.contents[j]
      {
        assert InBuffer(r, r.address + j);
      }
    }
  }

  lemma SameDelivery(s: Many, r: Request, i: nat)
    requires i < |s.paths|
    ensures forall k: nat :: Delivered(Alone(s, r, i), k) <==> Delivered(s.paths[i], k)
  {
    forall k: nat, n: nat
      ensures DeliveredBy(Alone(s, r, i), n, k) <==> DeliveredBy(s.paths[i], n, k)
    {
    }
  }

  /** Every READ takes the same number of events as alone, and is complete exactly when it has had them; until then
      something of it can happen next, whatever the others do. */
  lemma ManyReadsComplete(rs: seq<Request>, memory: seq<int -> u8>, hs: seq<Happening>, s: Many, i: nat)
    requires Together(rs, memory) && Run(rs, memory, hs) == Reached(s) && i < |rs| && RemoteFits(rs[i])
    ensures |s.paths| == |rs| && |EventsOf(hs, i)| <= 6 * Count(rs[i].length) + 1
    ensures s.paths[i].completed.Some? <==> |EventsOf(hs, i)| == 6 * Count(rs[i].length) + 1
    ensures s.paths[i].completed.None? ==> exists e :: Run(rs, memory, hs + [Happening(i, e)]).Reached?
  {
    hide Run, ReadPath.Run, Together, EachAlone, Placeable, ReadPath.Step, RemoteFits, Legal, Count;
    RunEach(rs, memory, hs);
    var r := rs[i];
    OfOne(rs, memory, hs, s, i);
    EveryScheduleCompletes(r, EventsOf(hs, i), Alone(s, r, i));
    if s.paths[i].completed.None? {
      var e :| Legal(r, Alone(s, r, i), e);
      SameView(r, s.paths[i], Mine(s.targets, r), e);
      assert Possible(rs, s, Happening(i, e));
      AnotherHappens(rs, memory, hs, s, Happening(i, e));
    }
  }

  lemma AnotherHappens(rs: seq<Request>, memory: seq<int -> u8>, hs: seq<Happening>, s: Many, h: Happening)
    requires Together(rs, memory) && Run(rs, memory, hs) == Reached(s) && Possible(rs, s, h)
    ensures Run(rs, memory, hs + [h]).Reached?
  {
    hide Step, Possible, EachAlone, Together;
    RunEach(rs, memory, hs + [h]);
    assert (hs + [h])[..|hs|] == hs;
  }
}
