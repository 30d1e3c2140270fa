/** Receiving SENDs: frames are scattered one at a time over the entries of a receive queue.

    Every DMA is an operation of the environment: a method starts it and another is its callback. */
module Receive {
  import opened Optional
  import opened Words

  datatype Sge = Sge(length: u32, address: u64)

  datatype Piece = Piece(address: u64, bytes: seq<u8>)

  // ------------------------------------------------------------------ what scattering means

  predicate Usable(s: Sge) { s.length != 0 && s.address != 0 }

  /** The pieces of a payload over the entries `sges`, and how much of it they hold; `None` when an entry is
      reached that cannot be used, or one more than is needed. */
  function Pieces(bytes: seq<u8>, sges: seq<Sge>): Option<(seq<Piece>, nat)> {
    if sges == [] then Some(([], 0))
    else
      var before := Pieces(bytes, sges[..|sges| - 1]);
      var s := sges[|sges| - 1];
      if before.None? || before.value.1 >= |bytes| || !Usable(s) then None
      else
        var copied := before.value.1;
        var size := Min(s.length, |bytes| - copied);
        Some((before.value.0 + [Piece(s.address, bytes[copied..copied + size])], copied + size))
  }

  function Flat(ps: seq<Piece>): seq<u8> {
    if ps == [] then [] else Flat(ps[..|ps| - 1]) + ps[|ps| - 1].bytes
  }

  lemma FlatAppend(ps: seq<Piece>, p: Piece)
    ensures Flat(ps + [p]) == Flat(ps) + p.bytes
  {
    assert (ps + [p])[..|ps|] == ps;
  }

  function Room(sges: seq<Sge>): nat {
    if sges == [] then 0 else Room(sges[..|sges| - 1]) + sges[|sges| - 1].length
  }

  predicate AllUsable(sges: seq<Sge>) { forall i :: 0 <= i < |sges| ==> Usable(sges[i]) }

  predicate Inside(ps: seq<Piece>, sges: seq<Sge>) {
    |ps| == |sges| &&
    forall i :: 0 <= i < |ps| ==> ps[i].address == sges[i].address != 0 && 0 < |ps[i].bytes| <= sges[i].length
  }

  predicate Exact(bytes: seq<u8>, sges: seq<Sge>, ps: seq<Piece>, copied: nat) {
    copied == Min(Room(sges), |bytes|) && Flat(ps) == bytes[..copied] && Inside(ps, sges)
  }

  lemma OnePiece(bytes: seq<u8>, before: seq<Sge>, ps: seq<Piece>, copied: nat, s: Sge, size: nat)
    requires Exact(bytes, before, ps, copied) && copied < |bytes| && Usable(s)
        && size == Min(s.length, |bytes| - copied)
    ensures Exact(bytes, before + [s], ps + [Piece(s.address, bytes[copied..copied + size])], copied + size)
  {
    FlatAppend(ps, Piece(s.address, bytes[copied..copied + size]));
    assert bytes[..copied] + bytes[copied..copied + size] == bytes[..copied + size];
    assert (before + [s])[..|before|] == before;
    assert Room(before + [s]) == Room(before) + s.length;
    hide Flat, Room;
  }

  /** The pieces are the payload, in order and without gap, one to an entry and within it. */
  lemma {:induction false} PiecesAreExact(bytes: seq<u8>, sges: seq<Sge>)
    ensures Pieces(bytes, sges).Some? ==> Exact(bytes, sges, Pieces(bytes, sges).value.0, Pieces(bytes, sges).value.1)
  {
    if sges != [] && Pieces(bytes, sges).Some? {
      var before, s := sges[..|sges| - 1], sges[|sges| - 1];
      assert Pieces(bytes, before).Some?;
      var (ps, copied) := Pieces(bytes, before).value;
      var size := Min(s.length, |bytes| - copied);
      assert copied < |bytes| && Usable(s);
      assert Pieces(bytes, sges).value == (ps + [Piece(s.address, bytes[copied..copied + size])], copied + size);
      hide Exact, Pieces, Usable;
      PiecesAreExact(bytes, before);
      OnePiece(bytes, before, ps, copied, s, size);
      assert before + [s] == sges;
    }
  }

  /** A payload can be scattered over the first entries of a queue entry exactly when some of them, all
      usable, have room for it and no fewer have. */
  lemma {:induction false} ScatterSucceedsWhen(bytes: seq<u8>, sges: seq<Sge>)
    ensures Pieces(bytes, sges).Some? <==>
            AllUsable(sges) && (sges != [] ==> Room(sges[..|sges| - 1]) < |bytes|)
    ensures Pieces(bytes, sges).Some? ==> (Pieces(bytes, sges).value.1 == |bytes| <==> Room(sges) >= |bytes|)
  {
    PiecesAreExact(bytes, sges);
    if sges != [] {
      var before := sges[..|sges| - 1];
      ScatterSucceedsWhen(bytes, before);
      PiecesAreExact(bytes, before);
      assert sges == before + [sges[|sges| - 1]];
      assert AllUsable(sges) <==> AllUsable(before) && Usable(sges[|sges| - 1]);
      RoomGrows(before);
    }
  }

  lemma RoomGrows(sges: seq<Sge>)
    ensures sges != [] ==> Room(sges[..|sges| - 1]) <= Room(sges)
  {
  }

  // ------------------------------------------------------------------ the receiver

  datatype Frame = Frame(jetty: u32, bytes: seq<u8>)

  datatype Jfr = Jfr(consumer: nat, depth: nat, maxSge: nat, ready: bool)

  /** Where the frame being received is: which DMA or publication it waits for. */
  datatype Stage =
    | Producer
    | Index
    | Walking(rqe: u32)
    | Reading(rqe: u32)
    | Placing(rqe: u32, sge: Sge)
    | Publishing(rqe: u32)

  /** The frame being received, what has been read of its queue entry and what has been placed. */
  datatype Active = Active(frame: Frame, jfr: u32, stage: Stage, sges: seq<Sge>, placed: seq<Piece>, copied: nat)

  /** A frame that was released, with what became of it and the queue whose entry it used, if it was started. */
  datatype Served = Served(frame: Frame, ok: bool, queue: Option<u32>)

  /** A queue whose destroy has been asked for. */
  datatype Drain = Jetty(id: u32) | Queue(id: u32)

  function Frames(served: seq<Served>): seq<Frame> {
    if served == [] then [] else Frames(served[..|served| - 1]) + [served[|served| - 1].frame]
  }

  lemma FramesAppend(served: seq<Served>, s: Served)
    ensures Frames(served + [s]) == Frames(served) + [s.frame]
  {
    assert (served + [s])[..|served|] == served;
  }

  /** Receptions that were completed with an entry of receive queue `id`. */
  function Completions(served: seq<Served>, id: u32): nat {
    if served == [] then 0
    else
      var last := served[|served| - 1];
      Completions(served[..|served| - 1], id) + if last.ok && last.queue == Some(id) then 1 else 0
  }

  lemma CompletionsAppend(served: seq<Served>, s: Served, id: u32)
    ensures Completions(served + [s], id) == Completions(served, id) + if s.ok && s.queue == Some(id) then 1 else 0
  {
    assert (served + [s])[..|served|] == served;
  }

  /** The consumer of every queue counts the receptions completed with it since it was created, when `born[id]` frames
      had been served. */
  ghost predicate Counted(jfrs: map<u32, Jfr>, born: map<u32, nat>, served: seq<Served>) {
    forall id :: id in jfrs ==>
      id in born && born[id] <= |served| && jfrs[id].consumer == Completions(served[born[id]..], id)
  }

  /** One entry of receive queue `id` has been used. */
  function Consumed(jfrs: map<u32, Jfr>, id: u32): map<u32, Jfr>
    requires id in jfrs
  {
    jfrs[id := jfrs[id].(consumer := jfrs[id].consumer + 1)]
  }

  /** One more frame is served, and nothing was completed with it. */
  lemma CountedFailure(jfrs: map<u32, Jfr>, born: map<u32, nat>, served: seq<Served>, s: Served)
    requires Counted(jfrs, born, served) && !s.ok
    ensures Counted(jfrs, born, served + [s])
  {
    forall id | id in jfrs
      ensures jfrs[id].consumer == Completions((served + [s])[born[id]..], id)
    {
      CompletionsAppend(served[born[id]..], s, id);
      assert (served + [s])[born[id]..] == served[born[id]..] + [s];
      hide Completions;
    }
  }

  /** One more frame is served, and its queue has moved. */
  lemma CountedSuccess(jfrs: map<u32, Jfr>, born: map<u32, nat>, served: seq<Served>, s: Served, queue: u32)
    requires Counted(jfrs, born, served) && queue in jfrs && s.ok && s.queue == Some(queue)
    ensures Counted(Consumed(jfrs, queue), born, served + [s])
  {
    forall id | id in jfrs
      ensures Consumed(jfrs, queue)[id].consumer == Completions((served + [s])[born[id]..], id)
    {
      CompletionsAppend(served[born[id]..], s, id);
      assert (served + [s])[born[id]..] == served[born[id]..] + [s];
      hide Completions;
    }
  }

  lemma CountedServe(jfrs: map<u32, Jfr>, born: map<u32, nat>, served: seq<Served>, s: Served, queue: u32)
    requires Counted(jfrs, born, served) && queue in jfrs && s.queue == Some(queue)
    ensures Counted(if s.ok then Consumed(jfrs, queue) else jfrs, born, served + [s])
  {
    hide Counted;
    if s.ok {
      CountedSuccess(jfrs, born, served, s, queue);
    } else {
      CountedFailure(jfrs, born, served, s);
    }
  }

  predicate ActiveOk(a: Active, jettys: map<u32, u32>, jfrs: map<u32, Jfr>) {
    && a.frame.jetty in jettys && jettys[a.frame.jetty] == a.jfr && a.jfr in jfrs && jfrs[a.jfr].ready
    && |a.sges| <= jfrs[a.jfr].maxSge
    && |a.frame.bytes| < 0x1_0000_0000
    && Pieces(a.frame.bytes, a.sges) == Some((a.placed, a.copied))
    && (a.stage.Producer? || a.stage.Index? ==> a.sges == [])
    && (a.stage.Reading? || a.stage.Placing? ==> a.copied < |a.frame.bytes| && |a.sges| < jfrs[a.jfr].maxSge)
    && (a.stage.Placing? ==> Usable(a.stage.sge))
    && (a.stage.Publishing? ==> a.copied == |a.frame.bytes|)
  }

  ghost predicate Consistent(waiting: seq<Frame>, active: Option<Active>, jettys: map<u32, u32>, jfrs: map<u32, Jfr>,
                             sending: set<u32>, owed: seq<Frame>, served: seq<Served>, born: map<u32, nat>)
  {
    && (forall f :: f in waiting ==> |f.bytes| < 0x1_0000_0000)
    && (active.Some? ==> ActiveOk(active.value, jettys, jfrs))
    && owed == Frames(served) + (if active.Some? then [active.value.frame] else []) + waiting
    && Counted(jfrs, born, served)
    && sending <= jettys.Keys
  }

  /** The frame being received is released, and its queue has moved on if it was completed. */
  lemma ReleaseKeeps(waiting: seq<Frame>, a: Active, jettys: map<u32, u32>, jfrs: map<u32, Jfr>, sending: set<u32>,
                     owed: seq<Frame>, served: seq<Served>, born: map<u32, nat>, ok: bool)
    requires Consistent(waiting, Some(a), jettys, jfrs, sending, owed, served, born)
    ensures a.jfr in jfrs
    ensures Consistent(waiting, None, jettys, if ok then Consumed(jfrs, a.jfr) else jfrs, sending, owed,
                       served + [Served(a.frame, ok, Some(a.jfr))], born)
  {
    var s := Served(a.frame, ok, Some(a.jfr));
    assert a.jfr in jfrs;
    hide ActiveOk, Frames, Counted, Consumed;
    FramesAppend(served, s);
    CountedServe(jfrs, born, served, s, a.jfr);
  }

  class Receiver {
    const maxJettys: nat                // max_jettys
    var jettys: map<u32, u32>           // receive queue of each jetty
    var jfrs: map<u32, Jfr>
    var sending: set<u32>               // jettys the sending side still uses
    var waiting: seq<Frame>             // receive_frames_
    var active: Option<Active>
    var draining: Option<Drain>         // pending_queue_destroy_
    var errors: nat
    ghost var served: seq<Served>       // frames released, with the result of their completion
    ghost var owed: seq<Frame>          // frames that arrived and were not dropped with their queue
    ghost var born: map<u32, nat>       // frames served when a queue was created

    /** Frames are served in the order they arrived, each once; the queues of the frame being received exist and can be
        read, and those the sending side uses exist; every receive queue has moved on by the receptions completed with
        it. */
    ghost predicate Valid()
      reads this
    {
      Placed(jfrs)
    }

    /** The same with the receive queues `queues`. */
    ghost predicate Placed(queues: map<u32, Jfr>)
      reads this
    {
      Consistent(waiting, active, jettys, queues, sending, owed, served, born)
    }

    constructor (maxJettys: nat)
      ensures Valid() && this.maxJettys == maxJettys && jettys == map[] && jfrs == map[] && sending == {}
      ensures waiting == [] && active.None? && draining.None? && served == [] && owed == []
    {
      this.maxJettys, jettys, jfrs, sending, waiting, active := maxJettys, map[], map[], {}, [], None;
      draining, errors, served, owed, born := None, 0, [], [], map[];
    }

    /** The creation of a jetty; the numbers are the status codes.  No destroy is parked, as the command queue
        would be taken. */
    method CreateJetty(id: u32, queue: u32) returns (status: int)
      requires Valid() && draining.None?
      modifies this`jettys
      ensures Valid()
      ensures status == if id in old(jettys) then 17 else if |old(jettys)| >= maxJettys then 28 else 0
      ensures jettys == if status == 0 then old(jettys)[id := queue] else old(jettys)
    {
      if id in jettys {
        return 17;
      }
      if |jettys| >= maxJettys {
        return 28;
      }
      jettys := jettys[id := queue];
      status := 0;
    }

    /** The creation of a receive queue whose context has arrived; `ready` says that its producer index has a
        place in memory. */
    method CreateJfr(id: u32, depth: nat, maxSge: nat, ready: bool) returns (status: int)
      requires Valid() && draining.None?
      modifies this`jfrs, this`born
      ensures Valid()
      ensures status == if id in old(jfrs) then 17 else if depth == 0 || !ready then 22 else 0
      ensures jfrs == if status == 0 then old(jfrs)[id := Jfr(0, depth, maxSge, ready)] else old(jfrs)
    {
      if id in jfrs {
        return 17;
      }
      if depth == 0 || !ready {
        return 22;
      }
      jfrs, born := jfrs[id := Jfr(0, depth, maxSge, ready)], born[id := |served|];
      assert served[|served|..] == [];
      status := 0;
    }

    /** Whether a frame can be started at all. */
    predicate Startable(f: Frame)
      reads this
    {
      && f.jetty in jettys && draining != Some(Jetty(f.jetty))
      && jettys[f.jetty] in jfrs && jfrs[jettys[f.jetty]].ready && draining != Some(Queue(jettys[f.jetty]))
    }

    /** The parked destroy goes on as soon as no frame is being received. */
    predicate Goes()
      reads this
    {
      Gone(draining, sending)
    }

    /** Reception goes on: no queue moves and nothing parked is touched. */
    twostate predicate Untouched()
      reads this
    {
      jfrs == old(jfrs) && jettys == old(jettys) && draining == old(draining) && owed == old(owed)
      && served == old(served)
    }

    /** Reception ends without a completion: its frame is released, a parked destroy may go on, and no receive
        queue has moved. */
    twostate predicate Failed(a: Active)
      requires old(active).Some?
      reads this
    {
      && Ended(old(served), served, a, false) && owed == old(Dues())
      && Settled(old(draining), old(Goes()), old(jettys), old(jfrs), draining, jettys, jfrs)
    }

    /** What is owed once the frame being received has been released: that frame, and the waiting frames that do
        not go with a queue. */
    ghost function Dues(): seq<Frame>
      reads this
      requires active.Some?
    {
      Frames(served) + [active.value.frame] + if Goes() then Kept(waiting, jettys, draining.value) else waiting
    }

    /** `ProcessReceiveQueue`: the next frame that can be started is; those before it fail. */
    method Process()
      requires Valid()
      modifies this`waiting, this`active, this`errors, this`served
      ensures Valid()
      ensures old(active).Some? ==> active == old(active) && waiting == old(waiting) && served == old(served)
      ensures active.None? ==> waiting == []
      ensures old(active).None? && active.Some? ==> active.value.stage == Producer && Startable(active.value.frame)
      ensures old(served) <= served && forall i :: |old(served)| <= i < |served| ==>
                !served[i].ok && !Startable(served[i].frame)
      ensures errors == old(errors) + (|served| - |old(served)|)
    {
      hide Frames, Counted;
      while active.None? && waiting != []
        invariant Valid()
        invariant old(active).Some? ==> active == old(active) && waiting == old(waiting) && served == old(served)
        invariant old(active).None? && active.Some? ==>
                    active.value.stage == Producer && Startable(active.value.frame)
        invariant old(served) <= served && forall i :: |old(served)| <= i < |served| ==>
                  !served[i].ok && !Startable(served[i].frame)
        invariant errors == old(errors) + (|served| - |old(served)|)
        decreases |waiting|, active.None?
      {
        var f := waiting[0];
        assert waiting == [f] + waiting[1..];
        waiting := waiting[1..];
        if Startable(f) {
          active := Some(Active(f, jettys[f.jetty], Producer, [], [], 0));
        } else {
          errors := errors + 1;
          FramesAppend(served, Served(f, false, None));
          CountedFailure(jfrs, born, served, Served(f, false, None));
          served := served + [Served(f, false, None)];
        }
      }
    }

    /** A frame arrives. */
    method Arrive(f: Frame)
      requires Valid() && |f.bytes| < 0x1_0000_0000
      modifies this`waiting, this`active, this`errors, this`served, this`owed
      ensures Valid() && owed == old(owed) + [f]
      ensures old(active).Some? ==> active == old(active)
    {
      waiting := waiting + [f];
      owed := owed + [f];
      Process();
    }

    /** The frame being received is done with. */
    method Release(ok: bool, ghost used: map<u32, Jfr>)
      requires Placed(used) && active.Some?
      requires jfrs == if ok then Consumed(used, active.value.jfr) else used
      modifies this`active, this`errors, this`served
      ensures Valid() && active.None?
      ensures served == old(served) + [Served(old(active).value.frame, ok, Some(old(active).value.jfr))]
      ensures Frames(served) == Frames(old(served)) + [old(active).value.frame]
    {
      ghost var s := Served(active.value.frame, ok, Some(active.value.jfr));
      ReleaseKeeps(waiting, active.value, jettys, used, sending, owed, served, born, ok);
      FramesAppend(served, s);
      hide Consistent, Frames;
      if !ok {
        errors := errors + 1;
      }
      served := served + [s];
      active := None;
    }

    /** `ReleaseReceive`: the frame is done with, a destroy that waited for it may go on, and the next frame
        is taken up.  `used` are the tables before the entry of a completed reception was used. */
    method Finish(ok: bool, ghost used: map<u32, Jfr>)
      requires Placed(used) && active.Some?
      requires jfrs == if ok then Consumed(used, active.value.jfr) else used
      modifies this`waiting, this`active, this`errors, this`served, this`owed, this`jettys, this`jfrs, this`draining
      ensures Valid() && owed == old(Dues())
      ensures Ended(old(served), served, old(active).value, ok)
      ensures active.None? ==> waiting == []
      ensures Settled(old(draining), old(Goes()), old(jettys), old(jfrs), draining, jettys, jfrs)
    {
      hide ActiveOk, Frames, Kept, Counted, Consumed;
      Release(ok, used);
      MaybeCompleteQueueDestroy();
      Process();
    }

    /** `MaybeCompleteQueueDestroy`. */
    method MaybeCompleteQueueDestroy()
      requires Valid()
      modifies this`waiting, this`owed, this`jettys, this`jfrs, this`draining
      ensures Valid()
      ensures var goes := old(Goes()) && !InUse(active, old(draining).value);
              && waiting == (if goes then Kept(old(waiting), old(jettys), old(draining).value) else old(waiting))
              && owed == Frames(served) + (if active.Some? then [active.value.frame] else []) + waiting
              && Settled(old(draining), goes, old(jettys), old(jfrs), draining, jettys, jfrs)
    {
      hide ActiveOk, Frames, Kept;
      if draining.None? || InUse(active, draining.value)
         || (draining.value.Jetty? && draining.value.id in sending) {
        return;
      }
      Remove(draining.value);
      draining := None;
    }

    /** The queue goes, with the frames that wait for it. */
    method Remove(d: Drain)
      requires Valid() && !InUse(active, d) && !(d.Jetty? && d.id in sending)
      modifies this`waiting, this`jettys, this`jfrs, this`owed
      ensures Valid()
      ensures d.Jetty? ==> jettys == old(jettys) - {d.id} && jfrs == old(jfrs)
      ensures d.Queue? ==> jfrs == old(jfrs) - {d.id} && jettys == old(jettys)
      ensures waiting == Kept(old(waiting), old(jettys), d)
      ensures owed == Frames(served) + (if active.Some? then [active.value.frame] else []) + waiting
    {
      hide Completions;
      ghost var settled := Frames(served) + (if active.Some? then [active.value.frame] else []);
      forall f | f in Kept(waiting, jettys, d)
        ensures |f.bytes| < 0x1_0000_0000
      {
        KeptAre(waiting, jettys, d, f);
      }
      waiting := Kept(waiting, jettys, d);
      owed := settled + waiting;
      if d.Jetty? {
        jettys := jettys - {d.id};
      } else {
        jfrs := jfrs - {d.id};
      }
    }

    /** The sending side takes up work for a jetty, unless the jetty is being destroyed. */
    method StartSending(id: u32)
      requires Valid() && id in jettys && draining != Some(Jetty(id))
      modifies this`sending
      ensures Valid() && sending == old(sending) + {id}
    {
      sending := sending + {id};
    }

    /** The sending side is done with a jetty, which may be what a parked destroy waited for. */
    method EndSending(id: u32)
      requires Valid()
      modifies this`sending, this`waiting, this`owed, this`jettys, this`jfrs, this`draining
      ensures Valid() && sending == old(sending) - {id}
      ensures var goes := Gone(old(draining), sending) && !InUse(active, old(draining).value);
              && waiting == (if goes then Kept(old(waiting), old(jettys), old(draining).value) else old(waiting))
              && owed == Frames(served) + (if active.Some? then [active.value.frame] else []) + waiting
              && Settled(old(draining), goes, old(jettys), old(jfrs), draining, jettys, jfrs)
    {
      hide ActiveOk, Frames, Kept;
      sending := sending - {id};
      MaybeCompleteQueueDestroy();
    }

    /** The producer index of the receive queue has been read. */
    method OnProducer(ok: bool, producer: u16)
      requires Valid() && active.Some? && active.value.stage == Producer
      modifies this`waiting, this`active, this`errors, this`served, this`owed, this`jettys, this`jfrs, this`draining
      ensures Valid()
      ensures var a := old(active).value;
              if ok && old(jfrs)[a.jfr].consumer % 0x1_0000 != producer then
                active == Some(a.(stage := Index)) && Untouched()
              else Failed(a)
    {
      var a := active.value;
      if !ok || jfrs[a.jfr].consumer % 0x1_0000 == producer {
        Finish(false, jfrs);
      } else {
        active := Some(a.(stage := Index));
      }
    }

    /** The index of the queue entry has been read. */
    method OnIndex(ok: bool, rqe: u32)
      requires Valid() && active.Some? && active.value.stage == Index
      modifies this`waiting, this`active, this`errors, this`served, this`owed, this`jettys, this`jfrs, this`draining
      ensures Valid()
      ensures var a := old(active).value;
              if ok && rqe < old(jfrs)[a.jfr].depth then Walked(a, rqe) else Failed(a)
    {
      if !ok || rqe >= jfrs[active.value.jfr].depth {
        Finish(false, jfrs);
      } else {
        active := Some(active.value.(stage := Walking(rqe)));
        Walk();
      }
    }

    /** `ReceiveSge` up to its DMA: the payload is all placed, or another entry is read, if there is one. */
    method Walk()
      requires Valid() && active.Some? && active.value.stage.Walking?
      modifies this`waiting, this`active, this`errors, this`served, this`owed, this`jettys, this`jfrs, this`draining
      ensures Valid()
      ensures Walked(old(active).value, old(active).value.stage.rqe)
    {
      var a := active.value;
      if a.copied == |a.frame.bytes| {
        active := Some(a.(stage := Publishing(a.stage.rqe)));
      } else if |a.sges| >= jfrs[a.jfr].maxSge {
        Finish(false, jfrs);
      } else {
        PiecesAreExact(a.frame.bytes, a.sges);
        active := Some(a.(stage := Reading(a.stage.rqe)));
      }
    }

    /** Reception goes on with publication or with the next entry; with none left the frame is released. */
    twostate predicate Walked(a: Active, rqe: u32)
      requires old(active).Some?
      reads this
    {
      if a.copied == |a.frame.bytes| then active == Some(a.(stage := Publishing(rqe))) && Untouched()
      else if a.jfr in old(jfrs) && |a.sges| < old(jfrs)[a.jfr].maxSge then
        active == Some(a.(stage := Reading(rqe))) && Untouched()
      else Failed(a)
    }

    /** An entry has been read: an empty one, or one without address, ends the reception. */
    method OnSge(ok: bool, sge: Sge)
      requires Valid() && active.Some? && active.value.stage.Reading?
      modifies this`waiting, this`active, this`errors, this`served, this`owed, this`jettys, this`jfrs, this`draining
      ensures Valid()
      ensures var a := old(active).value;
              if ok && Usable(sge) then active == Some(a.(stage := Placing(a.stage.rqe, sge))) && Untouched()
              else Failed(a)
    {
      var a := active.value;
      if !ok || sge.length == 0 || sge.address == 0 {
        Finish(false, jfrs);
      } else {
        active := Some(a.(stage := Placing(a.stage.rqe, sge)));
      }
    }

    /** A piece has been written to the guest. */
    method OnPlaced(ok: bool)
      requires Valid() && active.Some? && active.value.stage.Placing?
      modifies this`waiting, this`active, this`errors, this`served, this`owed, this`jettys, this`jfrs, this`draining
      ensures Valid()
      ensures var a := old(active).value;
              var size := Min(a.stage.sge.length, |a.frame.bytes| - a.copied);
              var piece := Piece(a.stage.sge.address, a.frame.bytes[a.copied..a.copied + size]);
              var b := a.(sges := a.sges + [a.stage.sge], placed := a.placed + [piece], copied := a.copied + size);
              if ok then Walked(b, a.stage.rqe) else Failed(a)
    {
      var a := active.value;
      if !ok {
        Finish(false, jfrs);
      } else {
        var sge := a.stage.sge;
        var size := Min(sge.length, |a.frame.bytes| - a.copied);
        var piece := Piece(sge.address, a.frame.bytes[a.copied..a.copied + size]);
        assert (a.sges + [sge])[..|a.sges|] == a.sges;
        active := Some(a.(stage := Walking(a.stage.rqe), sges := a.sges + [sge], placed := a.placed + [piece],
                          copied := a.copied + size));
        Walk();
      }
    }

    /** The completion of the reception has been published, or not; the queue moves on only if it has. */
    method OnCqe(ok: bool)
      requires Valid() && active.Some? && active.value.stage.Publishing?
      modifies this`waiting, this`active, this`errors, this`served, this`owed, this`jettys, this`jfrs, this`draining
      ensures Valid() && owed == old(Dues())
      ensures var a := old(active).value;
              && Ended(old(served), served, a, ok)
              && Settled(old(draining), old(Goes()), old(jettys), if ok then Consumed(old(jfrs), a.jfr) else old(jfrs),
                         draining, jettys, jfrs)
    {
      var a := active.value;
      ghost var used := jfrs;
      if ok {
        jfrs := Consumed(jfrs, a.jfr);
      }
      Finish(ok, used);
    }

    /** The destroy of a queue: at once, with the frames that wait for it, or parked while it is in use. */
    method Destroy(d: Drain) returns (parked: bool)
      requires Valid() && draining.None?
      modifies this`waiting, this`jettys, this`jfrs, this`draining, this`owed
      ensures Valid()
      ensures parked == (InUse(active, d) || (d.Jetty? && d.id in sending))
      ensures parked ==> draining == Some(d) && waiting == old(waiting) && owed == old(owed)
                         && jettys == old(jettys) && jfrs == old(jfrs)
      ensures !parked ==> draining == None && waiting == Kept(old(waiting), old(jettys), d)
                          && owed == Frames(served) + (if active.Some? then [active.value.frame] else []) + waiting
                          && Settled(Some(d), true, old(jettys), old(jfrs), None, jettys, jfrs)
    {
      if InUse(active, d) || (d.Jetty? && d.id in sending) {
        draining := Some(d);
        return true;
      }
      Remove(d);
      parked := false;
    }

    /** At publication the guest has the whole frame, in order, one piece to an entry and at most `maxSge` of them. */
    lemma PublishedFrameIsPlaced()
      requires Valid() && active.Some? && active.value.stage.Publishing?
      ensures var a := active.value;
              && Flat(a.placed) == a.frame.bytes && |a.placed| == |a.sges| <= jfrs[a.jfr].maxSge
              && forall i :: 0 <= i < |a.placed| ==>
                   a.placed[i].address == a.sges[i].address && 0 < |a.placed[i].bytes| <= a.sges[i].length
    {
      var a := active.value;
      PiecesAreExact(a.frame.bytes, a.sges);
      assert a.frame.bytes[..|a.frame.bytes|] == a.frame.bytes;
    }
  }

  /** The sending side does not hold back the parked destroy. */
  predicate Gone(draining: Option<Drain>, sending: set<u32>) {
    draining.Some? && !(draining.value.Jetty? && draining.value.id in sending)
  }

  /** One frame has been released with the result `ok`, and after it only frames that could not be started. */
  ghost predicate Ended(before: seq<Served>, after: seq<Served>, a: Active, ok: bool) {
    && |before| < |after| && after[..|before| + 1] == before + [Served(a.frame, ok, Some(a.jfr))]
    && forall i :: |before| < i < |after| ==> !after[i].ok
  }

  /** The tables after a chance for a parked destroy to go on. */
  predicate Settled(draining: Option<Drain>, goes: bool, jettys: map<u32, u32>, jfrs: map<u32, Jfr>,
                    draining': Option<Drain>, jettys': map<u32, u32>, jfrs': map<u32, Jfr>) {
    if draining.None? || !goes then draining' == draining && jettys' == jettys && jfrs' == jfrs
    else
      && draining'.None?
      && (draining.value.Jetty? ==> jettys' == jettys - {draining.value.id} && jfrs' == jfrs)
      && (draining.value.Queue? ==> jfrs' == jfrs - {draining.value.id} && jettys' == jettys)
  }

  /** `ResourceQueueBusy`, as far as reception is concerned. */
  predicate InUse(active: Option<Active>, d: Drain) {
    active.Some? && if d.Jetty? then active.value.frame.jetty == d.id else active.value.jfr == d.id
  }

  predicate Drops(f: Frame, jettys: map<u32, u32>, d: Drain) {
    if d.Jetty? then f.jetty == d.id else f.jetty in jettys && jettys[f.jetty] == d.id
  }

  /** Waiting frames of the queue are dropped; the others keep their order. */
  function Kept(frames: seq<Frame>, jettys: map<u32, u32>, d: Drain): (kept: seq<Frame>) {
    if frames == [] then []
    else (if Drops(frames[0], jettys, d) then [] else [frames[0]]) + Kept(frames[1..], jettys, d)
  }

  /** Each frame is kept or dropped by itself, and those that are kept keep their order. */
  lemma KeptOne(f: Frame, rest: seq<Frame>, jettys: map<u32, u32>, d: Drain)
    ensures Kept([f] + rest, jettys, d) == (if Drops(f, jettys, d) then [] else [f]) + Kept(rest, jettys, d)
  {
    assert ([f] + rest)[1..] == rest;
    hide Drops;
  }

  /** Exactly the frames for the queue that goes are dropped. */
  lemma {:induction false} KeptAre(frames: seq<Frame>, jettys: map<u32, u32>, d: Drain, f: Frame)
    ensures d.Jetty? ==> (f in Kept(frames, jettys, d) <==> f in frames && f.jetty != d.id)
    ensures d.Queue? ==>
              (f in Kept(frames, jettys, d) <==> f in frames && (f.jetty in jettys ==> jettys[f.jetty] != d.id))
  {
    if frames != [] {
      KeptAre(frames[1..], jettys, d, f);
    }
  }
}
