/** How the device walks the guest's command queue, and the allocator behind one of its commands. */
module CommandQueue {
  import opened CommandRing
  import opened Modular
  import opened Optional
  import opened Words

  // ------------------------------------------------------------------ walking the queue

  /** Descriptors between the head and the producer the guest last announced. */
  function Pending(head: nat, producer: nat, depth: Depth): (n: nat)
    ensures n < depth
  {
    (producer % depth + depth - head % depth) % depth
  }

  function Sum(ns: seq<nat>): nat { if ns == [] then 0 else ns[0] + Sum(ns[1..]) }

  /** Moving the head by a chain within the pending descriptors shortens the distance by just that. */
  lemma HeadFollows(head: nat, producer: nat, n: nat, depth: Depth)
    requires n <= Pending(head, producer, depth)
    ensures Pending((head + n) % depth, producer, depth) == Pending(head, producer, depth) - n
  {
    var h, p := head % depth, producer % depth;
    RemainderStep(head + n, 0, depth);
    RemainderStep(head, n, depth);
    Wrap(h, p, depth);
    if h + n < depth {
      Unique(h + n, depth, 0, h + n);
      Wrap(h + n, p, depth);
    } else {
      Unique(h + n, depth, 1, h + n - depth);
      Wrap(h + n - depth, p, depth);
    }
  }

  lemma Wrap(h: nat, p: nat, depth: Depth)
    requires h < depth && p < depth
    ensures (p + depth - h) % depth == if h <= p then p - h else p + depth - h
  {
    if h <= p {
      Unique(p + depth - h, depth, 1, p - h);
    } else {
      Unique(p + depth - h, depth, 0, p + depth - h);
    }
  }

  /** The residues of two positions of the queue less than a lap apart tell their distance. */
  lemma PendingIs(done: nat, posted: nat, depth: Depth)
    requires done <= posted < done + depth
    ensures Pending(done % depth, posted % depth, depth) == posted - done
    ensures done % depth == posted % depth <==> done == posted
  {
    var h, n := done % depth, posted - done;
    RemainderStep(done, 0, depth);
    RemainderStep(posted, 0, depth);
    RemainderStep(done, n, depth);
    Wrap(h, posted % depth, depth);
    if h + n < depth {
      Unique(h + n, depth, 0, h + n);
    } else {
      Unique(h + n, depth, 1, h + n - depth);
    }
  }

  lemma {:induction false} SumAppend(ns: seq<nat>, more: seq<nat>)
    ensures Sum(ns + more) == Sum(ns) + Sum(more)
  {
    if ns == [] {
      assert ns + more == more;
    } else {
      SumAppend(ns[1..], more);
      assert (ns + more)[1..] == ns[1..] + more;
    }
  }

  lemma SumOne(ns: seq<nat>, n: nat)
    ensures Sum(ns + [n]) == Sum(ns) + n
  {
    SumAppend(ns, [n]);
    assert Sum([n]) == n + Sum([]);
  }

  /** Chains are not empty. */
  predicate Chains(ns: seq<nat>) { forall i :: 0 <= i < |ns| ==> ns[i] > 0 }

  lemma {:induction false} SumGrows(ns: seq<nat>, all: seq<nat>)
    requires Chains(all) && ns <= all
    ensures Sum(ns) <= Sum(all) && (Sum(ns) == Sum(all) <==> ns == all)
    ensures |ns| < |all| ==> Sum(ns) + all[|ns|] <= Sum(all)
  {
    var rest := all[|ns|..];
    assert all == ns + rest;
    SumAppend(ns, rest);
    if rest != [] {
      assert Sum(rest) == rest[0] + Sum(rest[1..]);
    }
  }

  lemma MoreChains(guest: seq<nat>, chains: seq<nat>, taken: seq<nat>)
    requires Chains(guest) && taken <= guest && Chains(chains)
    ensures Chains(guest + chains) && taken <= guest + chains && Sum(guest + chains) == Sum(guest) + Sum(chains)
    ensures |taken| < |guest| ==> (guest + chains)[|taken|] == guest[|taken|]
  {
    SumAppend(guest, chains);
    hide Sum;
  }

  /** The one callback that is outstanding while the queue is busy: for the descriptor at the head, or for the
      command of a chain of `n` descriptors. */
  datatype Phase = Resting | Fetching | Handling(n: nat)

  /** The command queue: a doorbell may ring at any time, with any producer, and any DMA may fail. */
  class Queue {
    const depth: Depth
    var head: u32
    var target: u32                     // ubase_target_producer_
    var busy: bool                      // ubase_busy_
    var phase: Phase
    var failed: bool                    // the queue came to rest with FailUbase
    ghost var taken: seq<nat>           // lengths of the chains answered
    ghost var guest: seq<nat>           // lengths of the chains the guest laid out and announced
    ghost var whole: bool               // and it has announced nothing else

    /** The position up to which descriptors are announced: the producer, read as less than a lap ahead. */
    ghost function Posted(): (n: nat)
      reads this
      ensures Sum(taken) <= n < Sum(taken) + depth
    {
      Sum(taken) + Pending(head, target, depth)
    }

    /** Every descriptor the head has passed belongs to one chain that was answered; at rest, and if nothing failed,
        it has passed all that are announced.  Of a guest that announces whole chains, and never takes one back, the
        device takes exactly these. */
    ghost predicate Valid()
      reads this
    {
      && head == Sum(taken) % depth
      && busy == !phase.Resting? && (phase.Resting? && !failed ==> Posted() == Sum(taken))
      && (phase.Handling? ==> phase.n > 0)
      && (whole ==>
            && Chains(guest) && taken <= guest && Posted() == Sum(guest)
            && (phase.Fetching? ==> Sum(taken) < Posted())
            && (phase.Handling? ==> |taken| < |guest| && phase.n == guest[|taken|]))
    }

    constructor (depth: Depth)
      ensures Valid() && this.depth == depth && Posted() == 0 && taken == [] && guest == [] && whole && !busy && !failed
    {
      this.depth, head, target, busy, phase, failed := depth, 0, 0, false, Resting, false;
      taken, guest, whole := [], [], true;
      new;
      Unique(0, depth, 0, 0);
      PendingIs(0, 0, depth);
    }

    /** `KickUbase`: the guest announces a producer, for `chains` if it keeps to whole ones. */
    method Doorbell(producer: u32, ghost chains: seq<nat>)
      requires Valid()
      modifies this
      ensures Valid() && taken == old(taken) && head == old(head) && target == producer
      ensures guest == old(guest) + chains
      ensures whole == (old(whole) && Chains(chains) && Posted() == old(Posted()) + Sum(chains))
      ensures old(busy) ==> phase == old(phase) && failed == old(failed)
      ensures !old(busy) ==> !failed && phase == if Sum(taken) < Posted() then Fetching else Resting
    {
      hide Sum, Chains, Pending;
      if whole && Chains(chains) {
        MoreChains(guest, chains, taken);
      }
      whole := whole && Chains(chains) && Sum(taken) + Pending(head, producer, depth) == Posted() + Sum(chains);
      guest := guest + chains;
      target := producer;
      if busy {
        return;
      }
      busy, failed := true, false;
      ProcessNext();
    }

    /** `ProcessNextUbase`. */
    method ProcessNext()
      requires busy && head == Sum(taken) % depth
      modifies this`busy, this`phase
      ensures phase == if Sum(taken) < Posted() then Fetching else Resting
      ensures busy == !phase.Resting?
    {
      RemainderStep(Sum(taken), 0, depth);
      RemainderStep(target, 0, depth);
      Wrap(head, target % depth, depth);
      hide Sum;
      if head == target % depth {
        busy, phase := false, Resting;
      } else {
        phase := Fetching;
      }
    }

    /** `FailUbase`. */
    method Fail()
      requires Valid() && busy
      modifies this`busy, this`phase, this`failed
      ensures Valid() && !busy && failed && Posted() == old(Posted())
    {
      hide Sum;
      busy, phase, failed := false, Resting, true;
    }

    /** The descriptor at the head has been read, or not; `count` is the length of its chain as it says.  A chain
        longer than what is announced by then is rejected, and then only its first descriptor is answered. */
    method Fetched(ok: bool, count: u8) returns (rejected: bool)
      requires Valid() && phase.Fetching?
      modifies this`busy, this`phase, this`failed, this`whole
      ensures Valid() && Posted() == old(Posted())
      ensures !ok ==> !busy && failed && whole == old(whole)
      ensures ok ==> phase == Handling(if rejected || count == 0 then 1 else count) && failed == old(failed)
      ensures ok ==> whole == (old(whole) && |taken| < |guest| && (if count == 0 then 1 else count) == guest[|taken|])
      ensures rejected == (ok && (if count == 0 then 1 else count) > Posted() - Sum(taken))
      ensures rejected ==> !whole
    {
      if whole {
        SumGrows(taken, guest);
      }
      hide Sum, Pending;
      rejected := false;
      if !ok {
        Fail();
        return;
      }
      var pending := Pending(head, target, depth);
      var n: nat := if count == 0 then 1 else count;
      whole := whole && |taken| < |guest| && n == guest[|taken|];
      if n > pending {
        n := 1;
        rejected := true;
      }
      phase := Handling(n);
    }

    /** The last write of the answer has ended, or one of its writes has failed.  The announced position stays what it
        was, unless the guest has taken descriptors of the chain back meanwhile: then the head passes the producer. */
    method Answered(ok: bool)
      requires Valid() && phase.Handling?
      modifies this`busy, this`phase, this`failed, this`head, this`taken
      ensures Valid()
      ensures !ok ==> !busy && failed && taken == old(taken) && head == old(head)
      ensures ok ==> taken == old(taken) + [old(phase).n] && failed == old(failed)
                     && phase == if Sum(taken) < Posted() then Fetching else Resting
      ensures ok ==> (Posted() == old(Posted()) <==> old(phase).n <= old(Posted()) - Sum(old(taken)))
    {
      var n := phase.n;
      ghost var before := Posted();
      SumOne(taken, n);
      RemainderStep(Sum(taken), n, depth);
      if n <= Pending(head, target, depth) {
        HeadFollows(head, target, n, depth);
      }
      if whole {
        assert taken + [n] == guest[..|taken| + 1];
        SumGrows(taken + [n], guest);
      }
      hide Sum, Pending;
      if !ok {
        Fail();
        return;
      }
      head := (head + n) % depth;
      taken := taken + [n];
      assert Posted() == before <==> n <= before - Sum(old(taken));
      ProcessNext();
    }

    /** At rest, after no failure, the device has taken exactly the chains of a guest that announces whole ones. */
    lemma AllChainsTaken()
      requires Valid() && !busy && !failed && whole
      ensures taken == guest
    {
      SumGrows(taken, guest);
    }
  }

  // ------------------------------------------------------------------ transport path ids

  const IDS := 1023

  /** The id after `id`, with 1 after 1023. */
  function After(id: u32): u32 { if id + 1 >= 1024 then 1 else (id + 1) % 0x1_0000_0000 }

  /** The id `k` places after `id`. */
  function Nth(id: u32, k: nat): u32 { if k == 0 then id else After(Nth(id, k - 1)) }

  lemma {:induction false} NthIs(id: u32, k: nat)
    requires 1 <= id <= IDS
    ensures 1 <= Nth(id, k) <= IDS
    ensures k < IDS ==> Nth(id, k) == if id + k <= IDS then id + k else id + k - IDS
  {
    if k > 0 {
      NthIs(id, k - 1);
    }
  }

  /** Every id is met within 1023 places. */
  lemma EveryIdIsMet(start: u32, id: u32)
    requires 1 <= start <= IDS && 1 <= id <= IDS
    ensures var k := if id >= start then id - start else id - start + IDS; k < IDS && Nth(start, k) == id
  {
    NthIs(start, if id >= start then id - start else id - start + IDS);
  }

  function Ids(n: nat): (ids: set<u32>)
    requires n <= IDS
    ensures |ids| == n && forall i: u32 :: i in ids <==> 1 <= i <= n
  {
    if n == 0 then {} else Ids(n - 1) + {n}
  }

  predicate InRange(used: set<u32>) { forall i :: i in used ==> 1 <= i <= IDS }

  /** Fewer than 1023 ids in use leave one free. */
  lemma SomeIdIsFree(used: set<u32>, n: nat) returns (id: u32)
    requires n == IDS && InRange(used) && |used| < n
    ensures 1 <= id <= IDS && id !in used
  {
    var all := Ids(n);
    hide Ids;
    assert all * used == used;
    assert |all - used| == n - |used|;
    id :| id in all - used;
  }

  /** What a request for a transport path gets; the numbers are the status codes. */
  datatype Grant = Path(id: u32) | AllTaken /* 28 */ | BadEid /* 22 */ | NoPort /* 100 */

  /** The first free id from the cursor on is `k` places away. */
  ghost predicate FirstFree(used: set<u32>, from: u32, k: nat) {
    k < IDS && Nth(from, k) !in used && forall j: nat :: j < k ==> Nth(from, j) in used
  }

  /** The search of the program, from the cursor on: an id that is free, and the cursor behind it. */
  method Search(used: set<u32>, cursor: u32) returns (id: u32, next: u32, ghost k: nat)
    requires InRange(used) && |used| < IDS && 1 <= cursor <= IDS
    ensures FirstFree(used, cursor, k) && id == Nth(cursor, k) && next == Nth(cursor, k + 1)
    ensures id !in used && 1 <= id <= IDS && 1 <= next <= IDS
  {
    id, next, k := cursor, cursor, 0;
    ghost var free := SomeIdIsFree(used, IDS);
    EveryIdIsMet(cursor, free);
    ghost var bound := if free >= cursor then free - cursor else free - cursor + IDS;
    hide InRange;
    var attempts := 0;
    while attempts < IDS
      invariant attempts == k <= bound && id == next == Nth(cursor, k) && 1 <= next <= IDS
      invariant forall j: nat :: j < k ==> Nth(cursor, j) in used
    {
      NthIs(cursor, k + 1);
      next := After(next);
      if id !in used {
        break;
      }
      id := next;
      attempts := attempts + 1;
      k := k + 1;
    }
  }

  class Allocator {
    var routes: set<u32>                // keys of tp_routes_
    var next: u32                       // next_tp_id_

    ghost predicate Valid()
      reads this
    {
      InRange(routes) && 1 <= next <= IDS
    }

    constructor ()
      ensures Valid() && routes == {} && next == 1
    {
      routes, next := {}, 1;
    }

    /** An id for a new route between two entities, whose ids have 20 bits and are not zero: the first free one from
        the cursor on.  All are taken only when all 1023 are in use, so the later test whether the id found is taken
        never holds.  The cursor ends behind the id even if no port is up for the route. */
    method Allocate(local: u32, remote: u32, portUp: bool) returns (g: Grant)
      requires Valid()
      modifies this
      ensures Valid()
      ensures g.AllTaken? <==> |old(routes)| >= IDS
      ensures g.BadEid? <==> |old(routes)| < IDS && (local % 0x10_0000 == 0 || remote % 0x10_0000 == 0)
      ensures g.NoPort? <==> |old(routes)| < IDS && local % 0x10_0000 != 0 && remote % 0x10_0000 != 0 && !portUp
      ensures g.Path? ==> g.id !in old(routes) && routes == old(routes) + {g.id} && next == After(g.id)
      ensures !g.Path? ==> routes == old(routes)
      ensures g.AllTaken? || g.BadEid? ==> next == old(next)
      ensures g.Path? || g.NoPort? ==>
                exists k: nat :: FirstFree(old(routes), old(next), k) && next == Nth(old(next), k + 1)
                                 && (g.Path? ==> g.id == Nth(old(next), k))
    {
      if |routes| >= IDS {
        return AllTaken;
      }
      if local % 0x10_0000 == 0 || remote % 0x10_0000 == 0 {
        return BadEid;
      }
      ghost var k;
      var id;
      id, next, k := Search(routes, next);
      if !portUp {
        return NoPort;
      }
      routes := routes + {id};
      g := Path(id);
    }

    /** A path that is known, inactive and without requests in flight is given back. */
    method Remove(id: u32, busy: bool) returns (status: int)
      requires Valid()
      modifies this`routes
      ensures Valid()
      ensures status == if id !in old(routes) then 2 else if busy then 16 else 0
      ensures routes == if status == 0 then old(routes) - {id} else old(routes)
    {
      if id !in routes {
        return 2;
      }
      if busy {
        return 16;
      }
      routes := routes - {id};
      status := 0;
    }
  }
}
