/** The engine keeps `Safe`: slot conservation, credits and lifetimes, in every interleaving. */
module EngineProof {
  import opened Cq
  import opened Engine
  import opened EngineInv
  import opened Optional
  import opened Words

  // ------------------------------------------------------------------ reservations

  /** Only reservation `r` changes hands. */
  lemma PubOwnAt(pubs: map<u32, Publications>, owners: map<nat, Owner>,
                 pubs': map<u32, Publications>, owners': map<nat, Owner>, r: nat)
    requires PubOwn(pubs, owners)
    requires forall id, q {:trigger HoldsSlot(pubs', id, q)} ::
               q != r ==> (HoldsSlot(pubs', id, q) <==> HoldsSlot(pubs, id, q))
    requires forall id, q {:trigger OwnedBy(owners', q, id)} ::
               q != r ==> (OwnedBy(owners', q, id) <==> OwnedBy(owners, q, id))
    requires forall id {:trigger HoldsSlot(pubs', id, r)} {:trigger OwnedBy(owners', r, id)} ::
               HoldsSlot(pubs', id, r) <==> OwnedBy(owners', r, id)
    ensures PubOwn(pubs', owners')
  {
    hide HoldsSlot, OwnedBy;
    forall id, q
      ensures HoldsSlot(pubs', id, q) <==> OwnedBy(owners', q, id)
    {
      if q != r {
        assert HoldsSlot(pubs, id, q) <==> OwnedBy(owners, q, id);
      }
    }
  }

  /** A slot that no publication owns before or after. */
  lemma PubOwnOther(pubs: map<u32, Publications>, owners: map<nat, Owner>, r: nat, owner: Owner)
    requires PubOwn(pubs, owners) && (r in owners ==> !owners[r].Publication?) && !owner.Publication?
    ensures PubOwn(pubs, owners[r := owner]) && PubOwn(pubs, owners - {r})
  {
    hide HoldsSlot;
    forall id, q
      ensures OwnedBy(owners[r := owner], q, id) <==> OwnedBy(owners, q, id)
      ensures OwnedBy(owners - {r}, q, id) <==> OwnedBy(owners, q, id)
    {
    }
  }

  lemma EventOwnOther(events: seq<Event>, active: Option<Active>, owners: map<nat, Owner>, r: nat, owner: Owner)
    requires EventOwn(events, active, owners) && (r in owners ==> !owners[r].Notification?) && !owner.Notification?
    ensures EventOwn(events, active, owners[r := owner]) && EventOwn(events, active, owners - {r})
  {
    hide EventHolds, Queued;
    forall q: nat
      ensures Notifies(owners[r := owner], q) <==> Notifies(owners, q)
      ensures Notifies(owners - {r}, q) <==> Notifies(owners, q)
    {
    }
  }

  lemma QueuedAppend(events: seq<Event>, e: Event)
    ensures forall q: nat :: Queued(events + [e], q) <==> Queued(events, q) || q == e.slot
  {
    forall q: nat
      ensures Queued(events + [e], q) <==> Queued(events, q) || q == e.slot
    {
      var all := events + [e];
      assert all[|events|] == e;
      if Queued(events, q) {
        var i :| 0 <= i < |events| && events[i].slot == q;
        assert all[i].slot == q;
      }
    }
  }

  lemma EventOwnAppend(events: seq<Event>, active: Option<Active>, owners: map<nat, Owner>, e: Event)
    requires EventOwn(events, active, owners) && e.slot in owners && !owners[e.slot].Notification?
    ensures EventOwn(events + [e], active, owners[e.slot := Notification])
  {
    QueuedAppend(events, e);
    var all, owners' := events + [e], owners[e.slot := Notification];
    assert !EventHolds(events, active, e.slot) by {
      assert !Notifies(owners, e.slot);
    }
    forall i | 0 <= i < |events|
      ensures events[i].slot != e.slot
    {
      assert Queued(events, events[i].slot);
    }
    hide Queued;
    forall q: nat
      ensures EventHolds(all, active, q) <==> Notifies(owners', q)
    {
      assert EventHolds(events, active, q) <==> Notifies(owners, q);
    }
  }

  lemma QueuedRemove(events: seq<Event>, i: nat)
    requires i < |events|
    requires forall j, k :: 0 <= j < k < |events| ==> events[j].slot != events[k].slot
    ensures forall q: nat :: Queued(events[..i] + events[i + 1..], q) <==> Queued(events, q) && q != events[i].slot
    ensures var rest := events[..i] + events[i + 1..]; forall j, k :: 0 <= j < k < |rest| ==>
              rest[j].slot != rest[k].slot
  {
    var rest := events[..i] + events[i + 1..];
    assert forall j :: 0 <= j < |rest| ==> rest[j] == events[if j < i then j else j + 1];
    forall q: nat
      ensures Queued(rest, q) <==> Queued(events, q) && q != events[i].slot
    {
      if Queued(events, q) && q != events[i].slot {
        var j :| 0 <= j < |events| && events[j].slot == q;
        assert rest[if j < i then j else j - 1].slot == q;
      }
    }
  }

  /** Event `i` leaves the queue, to become the active one or to be dropped. */
  lemma EventOwnTake(events: seq<Event>, owners: map<nat, Owner>, i: nat, writing: bool)
    requires EventOwn(events, None, owners) && i < |events|
    ensures var rest := events[..i] + events[i + 1..];
            && EventOwn(rest, Some(Active(events[i], writing)), owners)
            && EventOwn(rest, None, owners[events[i].slot := Leaving])
            && Notifies(owners, events[i].slot)
  {
    var rest, e := events[..i] + events[i + 1..], events[i];
    QueuedRemove(events, i);
    assert Queued(events, e.slot);
    hide Queued;
    assert EventHolds(events, None, e.slot);
    forall q: nat
      ensures EventHolds(rest, Some(Active(e, writing)), q) <==> Notifies(owners, q)
      ensures EventHolds(rest, None, q) <==> Notifies(owners[e.slot := Leaving], q)
    {
      assert EventHolds(events, None, q) <==> Notifies(owners, q);
    }
  }

  /** The active event ends. */
  lemma EventOwnEnd(events: seq<Event>, a: Active, owners: map<nat, Owner>)
    requires EventOwn(events, Some(a), owners)
    ensures EventOwn(events, None, owners[a.event.slot := Leaving]) && Notifies(owners, a.event.slot)
    ensures forall w :: EventOwn(events, Some(a.(writing := w)), owners)
  {
    hide Queued;
    assert EventHolds(events, Some(a), a.event.slot);
    forall q: nat
      ensures EventHolds(events, None, q) <==> Notifies(owners[a.event.slot := Leaving], q)
    {
      assert EventHolds(events, Some(a), q) <==> Notifies(owners, q);
    }
    forall w
      ensures EventOwn(events, Some(a.(writing := w)), owners)
    {
      forall q: nat
        ensures EventHolds(events, Some(a.(writing := w)), q) <==> Notifies(owners, q)
      {
        assert EventHolds(events, Some(a), q) <==> Notifies(owners, q);
      }
    }
  }

  lemma SlotsHand(owners: map<nat, Owner>, inUse: nat, slots: nat, r: nat, owner: Owner)
    requires Slots(owners, inUse, slots) && r in owners
    ensures Slots(owners[r := owner], inUse, slots) && inUse > 0
    ensures Slots(owners - {r}, inUse - 1, slots)
  {
    assert owners[r := owner].Keys == owners.Keys;
    assert |owners.Keys| == |owners|;
    assert (owners - {r}).Keys == owners.Keys - {r};
    assert |owners[r := owner].Keys| == |owners[r := owner]|;
    assert |(owners - {r}).Keys| == |owners - {r}|;
  }

  lemma SlotsReserve(owners: map<nat, Owner>, inUse: nat, slots: nat, r: nat, owner: Owner)
    requires Slots(owners, inUse, slots) && r !in owners && inUse < slots
    ensures Slots(owners[r := owner], inUse + 1, slots)
  {
  }

  // ------------------------------------------------------------------ flights

  ghost predicate PubSafe(pipelined: bool, pubs: map<u32, Publications>, jfcs: map<u32, Jfc>,
                          owners: map<nat, Owner>, next: nat) {
    PubOwn(pubs, owners) && Numbered(owners, pubs, next) && Counts(pipelined, pubs) && Contexts(pipelined, pubs, jfcs)
    && Alive(pubs, jfcs)
  }

  predicate SameOff(m: map<nat, Flight>, m': map<nat, Flight>, r: nat) { m - {r} == m' - {r} }

  predicate OwnersOff(m: map<nat, Owner>, m': map<nat, Owner>, r: nat) { m - {r} == m' - {r} }

  lemma OffAt<T>(m: map<nat, T>, m': map<nat, T>, r: nat, q: nat)
    requires m - {r} == m' - {r} && q != r
    ensures (q in m <==> q in m') && (q in m ==> m[q] == m'[q])
  {
    assert q in m <==> q in m - {r};
    assert q in m' <==> q in m' - {r};
    if q in m {
      assert (m - {r})[q] == m[q] && (m' - {r})[q] == m'[q];
    }
  }

  predicate AtMostOwner(owners: map<nat, Owner>, r: nat, id: u32) {
    r in owners && owners[r].Publication? ==> owners[r].jfc == id
  }

  lemma PubOwnFlight(pubs: map<u32, Publications>, owners: map<nat, Owner>, id: u32, r: nat, p': Publications,
                     owners': map<nat, Owner>)
    requires PubOwn(pubs, owners) && id in pubs && SameOff(pubs[id].flights, p'.flights, r)
    requires OwnersOff(owners, owners', r) && AtMostOwner(owners, r, id) && AtMostOwner(owners', r, id)
    requires OwnedBy(owners', r, id) <==> r in p'.flights && p'.flights[r] != Finishing(false)
    ensures PubOwn(pubs[id := p'], owners')
  {
    var pubs' := pubs[id := p'];
    forall x, q | q != r
      ensures HoldsSlot(pubs', x, q) <==> HoldsSlot(pubs, x, q)
      ensures OwnedBy(owners', q, x) <==> OwnedBy(owners, q, x)
    {
      OffAt(pubs[id].flights, p'.flights, r, q);
      OffAt(owners, owners', r, q);
    }
    forall x
      ensures HoldsSlot(pubs', x, r) <==> OwnedBy(owners', r, x)
    {
      assert HoldsSlot(pubs, x, r) <==> OwnedBy(owners, r, x);
    }
    PubOwnAt(pubs, owners, pubs', owners', r);
  }

  lemma WritingOfSet(p: Publications, p': Publications, r: nat, f: Flight)
    requires p'.flights == p.flights[r := f]
    ensures |WritingOf(p')| == |WritingOf(p)| - (if r in p.flights && p.flights[r] == Writing then 1 else 0)
                                             + (if f == Writing then 1 else 0)
  {
    assert WritingOf(p') == if f == Writing then WritingOf(p) + {r} else WritingOf(p) - {r};
  }

  lemma WritingOfDrop(p: Publications, p': Publications, r: nat)
    requires p'.flights == p.flights - {r} && r in p.flights && p.flights[r] != Writing
    ensures WritingOf(p') == WritingOf(p)
  {
  }

  /** A JFC context changed by a step of flight `r`. */
  predicate ContextStep(pipelined: bool, jfcs: map<u32, Jfc>, jfcs': map<u32, Jfc>, id: u32, before: bool,
                        after: bool) {
    && jfcs'.Keys == jfcs.Keys && jfcs' - {id} == jfcs - {id}
    && (id in jfcs ==>
          && JfcOk(jfcs'[id])
          && jfcs'[id].writing == if pipelined then jfcs[id].writing - One(before) + One(after) else jfcs[id].writing)
  }

  lemma ContextsStep(pipelined: bool, pubs: map<u32, Publications>, jfcs: map<u32, Jfc>, jfcs': map<u32, Jfc>, id: u32,
                     p': Publications, before: bool, after: bool)
    requires Contexts(pipelined, pubs, jfcs) && id in pubs && ContextStep(pipelined, jfcs, jfcs', id, before, after)
    requires |WritingOf(p')| == |WritingOf(pubs[id])| - One(before) + One(after)
    ensures Contexts(pipelined, pubs[id := p'], jfcs')
  {
    hide WritingOf, JfcOk;
    var pubs' := pubs[id := p'];
    forall x | x in jfcs'
      ensures jfcs'[x].writing == Writes(pipelined, pubs', x) && JfcOk(jfcs'[x])
    {
      assert jfcs[x].writing == Writes(pipelined, pubs, x) && JfcOk(jfcs[x]);
      if x != id {
        assert (jfcs - {id})[x] == jfcs[x] && (jfcs' - {id})[x] == jfcs'[x];
      }
    }
  }

  lemma AliveStep(pubs: map<u32, Publications>, jfcs: map<u32, Jfc>, jfcs': map<u32, Jfc>, id: u32, r: nat,
                  p': Publications)
    requires Alive(pubs, jfcs) && id in pubs && SameOff(pubs[id].flights, p'.flights, r) && jfcs'.Keys == jfcs.Keys
    requires r in p'.flights && !p'.flights[r].Finishing? ==> id in jfcs
    ensures Alive(pubs[id := p'], jfcs')
  {
    var pubs' := pubs[id := p'];
    forall x, q {:trigger UsesContext(pubs', x, q)} | UsesContext(pubs', x, q)
      ensures x in jfcs'
    {
      if x == id && q != r {
        OffAt(pubs[id].flights, p'.flights, r, q);
      }
      assert x != id || q != r ==> UsesContext(pubs, x, q);
    }
  }

  lemma NumberedStep(pubs: map<u32, Publications>, owners: map<nat, Owner>, owners': map<nat, Owner>, next: nat,
                     next': nat,
                     id: u32, r: nat, p': Publications)
    requires Numbered(owners, pubs, next) && next <= next' && r < next' && id in pubs
    requires SameOff(pubs[id].flights, p'.flights, r) && OwnersOff(owners, owners', r)
    ensures Numbered(owners', pubs[id := p'], next')
  {
    forall q | q in owners'
      ensures q < next'
    {
      if q != r {
        OffAt(owners, owners', r, q);
      }
    }
    forall q | q in p'.flights
      ensures q < next'
    {
      if q != r {
        OffAt(pubs[id].flights, p'.flights, r, q);
      }
    }
  }

  /** A step of one flight keeps what is said of publications. */
  lemma FlightKeeps(pipelined: bool, pubs: map<u32, Publications>, jfcs: map<u32, Jfc>, owners: map<nat, Owner>,
                    next: nat,
                    id: u32, r: nat, p': Publications, jfcs': map<u32, Jfc>, owners': map<nat, Owner>, next': nat,
                    before: bool, after: bool)
    requires PubSafe(pipelined, pubs, jfcs, owners, next) && id in pubs
    requires SameOff(pubs[id].flights, p'.flights, r) && OwnersOff(owners, owners', r)
    requires AtMostOwner(owners, r, id) && AtMostOwner(owners', r, id)
    requires OwnedBy(owners', r, id) <==> r in p'.flights && p'.flights[r] != Finishing(false)
    requires Counted(pipelined, p') && r < next' && next <= next'
    requires ContextStep(pipelined, jfcs, jfcs', id, before, after)
    requires |WritingOf(p')| == |WritingOf(pubs[id])| - One(before) + One(after)
    requires r in p'.flights && !p'.flights[r].Finishing? ==> id in jfcs
    ensures PubSafe(pipelined, pubs[id := p'], jfcs', owners', next')
  {
    PubOwnFlight(pubs, owners, id, r, p', owners');
    ContextsStep(pipelined, pubs, jfcs, jfcs', id, p', before, after);
    AliveStep(pubs, jfcs, jfcs', id, r, p');
    NumberedStep(pubs, owners, owners', next, next', id, r, p');
    hide PubOwn, Contexts, Alive, Numbered, Counted, SameOff, OwnersOff;
  }

  lemma SameOffSet(m: map<nat, Flight>, r: nat, f: Flight)
    ensures SameOff(m, m[r := f], r) && SameOff(m, m - {r}, r)
  {
  }

  lemma OwnersOffSet(m: map<nat, Owner>, r: nat, o: Owner)
    ensures OwnersOff(m, m[r := o], r) && OwnersOff(m, m, r) && OwnersOff(m, m - {r}, r)
  {
  }

  // ------------------------------------------------------------------ steps: publications

  ghost predicate EventSafe(s: Engine) {
    && EventOwn(s.ev.queue, s.ev.active, s.pool.owners) && Slots(s.pool.owners, s.pool.inUse, s.config.slots)
    && EventsAlive(s.ev.queue, s.ev.active, s.q.jfcs) && Credits(s.ev.ceqs, s.ev.active)
        && ActiveKnown(s.ev.ceqs, s.ev.active)
  }

  lemma SafeParts(s: Engine)
    ensures Safe(s) <==> PubSafe(s.config.pipelined, s.q.pubs, s.q.jfcs, s.pool.owners, s.pool.nextSlot) && EventSafe(s)
                         && s.q.jfcs.Keys == s.q.ceqOf.Keys && OneCommand(s.cmd, s.q.jfcs)
  {
    hide PubOwn, EventOwn, Slots, Numbered, Counts, Contexts, Alive, EventsAlive, Credits, ActiveKnown, OneCommand;
  }

  lemma EmitEvents(s: Engine, id: u32, r: nat)
    requires EventSafe(s) && r in s.pool.owners && !s.pool.owners[r].Notification? && id in s.q.jfcs
    ensures EventSafe(Emit(s, id, r))
  {
    SlotsHand(s.pool.owners, s.pool.inUse, s.config.slots, r, Leaving);
    SlotsHand(s.pool.owners, s.pool.inUse, s.config.slots, r, Notification);
    if Silent(s, id) {
      EventOwnOther(s.ev.queue, s.ev.active, s.pool.owners, r, Leaving);
    } else {
      EventOwnAppend(s.ev.queue, s.ev.active, s.pool.owners, Event(id, s.q.ceqOf[id], r));
    }
    hide EventOwn, Slots, Credits;
  }

  ghost predicate Occupies(s: Engine, id: u32, r: nat) {
    id in s.q.pubs && r in s.q.pubs[id].flights && s.q.pubs[id].flights[r] != Finishing(false)
  }

  lemma HeldIsOwned(s: Engine, id: u32, r: nat)
    requires Safe(s) && Occupies(s, id, r)
    ensures OwnedBy(s.pool.owners, r, id)
  {
    assert HoldsSlot(s.q.pubs, id, r);
  }

  /** A flight goes on and keeps its slot. */
  lemma FlightStays(s: Engine, id: u32, r: nat, f: Flight, jfcs': map<u32, Jfc>)
    requires Safe(s) && Occupies(s, id, r) && f != Finishing(false) && (!f.Finishing? ==> id in s.q.jfcs)
    requires ContextStep(s.config.pipelined, s.q.jfcs, jfcs', id, s.q.pubs[id].flights[r] == Writing, f == Writing)
    ensures PubSafe(s.config.pipelined, WithFlight(s.q.pubs, id, r, f), jfcs', s.pool.owners, s.pool.nextSlot)
  {
    HeldIsOwned(s, id, r);
    var p := s.q.pubs[id];
    var p' := p.(flights := p.flights[r := f]);
    assert Counted(s.config.pipelined, p);
    WritingOfSet(p, p', r, f);
    SameOffSet(p.flights, r, f);
    OwnersOffSet(s.pool.owners, r, Leaving);
    assert PubSafe(s.config.pipelined, s.q.pubs, s.q.jfcs, s.pool.owners, s.pool.nextSlot);
    assert r < s.pool.nextSlot && Counted(s.config.pipelined, p');
    hide PubSafe, Safe, Counted, WritingOf, SameOff, OwnersOff, ContextStep;
    FlightKeeps(s.config.pipelined, s.q.pubs, s.q.jfcs, s.pool.owners, s.pool.nextSlot, id, r, p', jfcs', s.pool.owners,
                s.pool.nextSlot,
                p.flights[r] == Writing, f == Writing);
  }

  /** A flight gives its slot away, or ends. */
  lemma FlightGives(s: Engine, id: u32, r: nat, p': Publications, jfcs': map<u32, Jfc>, owner: Owner)
    requires Safe(s) && Occupies(s, id, r) && !owner.Publication?
    requires (p'.flights == s.q.pubs[id].flights[r := Finishing(false)]
              && p' == s.q.pubs[id].(flights := p'.flights)) ||
             (p'.flights == s.q.pubs[id].flights - {r} && Counted(s.config.pipelined, p')
              && s.q.pubs[id].flights[r].Finishing?)
    requires ContextStep(s.config.pipelined, s.q.jfcs, jfcs', id, s.q.pubs[id].flights[r] == Writing, false)
    ensures PubSafe(s.config.pipelined, s.q.pubs[id := p'], jfcs', s.pool.owners[r := owner], s.pool.nextSlot)
  {
    HeldIsOwned(s, id, r);
    var p := s.q.pubs[id];
    assert Counted(s.config.pipelined, p);
    if p'.flights == p.flights - {r} {
      WritingOfDrop(p, p', r);
    } else {
      WritingOfSet(p, p', r, Finishing(false));
    }
    SameOffSet(p.flights, r, Finishing(false));
    OwnersOffSet(s.pool.owners, r, owner);
    assert PubSafe(s.config.pipelined, s.q.pubs, s.q.jfcs, s.pool.owners, s.pool.nextSlot);
    assert r < s.pool.nextSlot && Counted(s.config.pipelined, p');
    hide PubSafe, Safe, Counted, WritingOf, SameOff, OwnersOff, ContextStep;
    FlightKeeps(s.config.pipelined, s.q.pubs, s.q.jfcs, s.pool.owners, s.pool.nextSlot, id, r, p', jfcs',
                s.pool.owners[r := owner], s.pool.nextSlot,
                p.flights[r] == Writing, false);
  }

  lemma EventsUnmoved(s: Engine, t: Engine)
    requires EventSafe(s) && t.config == s.config && t.ev.queue == s.ev.queue && t.ev.active == s.ev.active
        && t.ev.ceqs == s.ev.ceqs
    requires t.pool.owners == s.pool.owners && t.pool.inUse == s.pool.inUse && s.q.jfcs.Keys <= t.q.jfcs.Keys
    ensures EventSafe(t)
  {
    hide EventOwn, Slots, Credits;
  }

  /** A flight goes on; nothing else of the state that matters here changes. */
  lemma FlightStaysSafe(s: Engine, id: u32, r: nat, f: Flight, jfcs': map<u32, Jfc>)
    requires Safe(s) && Occupies(s, id, r) && f != Finishing(false) && (!f.Finishing? ==> id in s.q.jfcs)
    requires ContextStep(s.config.pipelined, s.q.jfcs, jfcs', id, s.q.pubs[id].flights[r] == Writing, f == Writing)
    ensures Safe(s.(q := s.q.(pubs := WithFlight(s.q.pubs, id, r, f), jfcs := jfcs')))
  {
    FlightStays(s, id, r, f, jfcs');
    var t := s.(q := s.q.(pubs := WithFlight(s.q.pubs, id, r, f), jfcs := jfcs'));
    SafeParts(s);
    SafeParts(t);
    hide Safe, PubSafe, EventSafe, OneCommand;
    EventsUnmoved(s, t);
  }

  lemma ContextOf(s: Engine, id: u32)
    requires Safe(s) && id in s.q.jfcs
    ensures JfcOk(s.q.jfcs[id]) && s.q.jfcs[id].writing == Writes(s.config.pipelined, s.q.pubs, id)
  {
    assert s.q.jfcs[id].writing == Writes(s.config.pipelined, s.q.pubs, id);
  }

  lemma SameContexts(pipelined: bool, jfcs: map<u32, Jfc>, id: u32)
    requires id in jfcs ==> JfcOk(jfcs[id])
    ensures ContextStep(pipelined, jfcs, jfcs, id, false, false)
  {
  }

  lemma PublishSafe(s: Engine, id: u32, r: nat, consumer: nat)
    requires Safe(s) && InFlight(s, id, r) && s.q.pubs[id].flights[r] == Reading && id in s.q.jfcs
    ensures Safe(Publish(s, id, r, consumer))
  {
    ContextOf(s, id);
    SameContexts(s.config.pipelined, s.q.jfcs, id);
    hide Safe, NoRoom;
    if NoRoom(s.q.jfcs[id], consumer) {
      FlightStaysSafe(s, id, r, Finishing(true), s.q.jfcs);
    } else {
      var jfcs' := s.q.jfcs[id := Taken(s.q.jfcs[id], consumer, s.config.pipelined)];
      assert ContextStep(s.config.pipelined, s.q.jfcs, jfcs', id, false, true);
      hide ContextStep, Taken;
      FlightStaysSafe(s, id, r, Writing, jfcs');
    }
  }

  lemma ReadDoneSafe(s: Engine, id: u32, r: nat, ok: bool, value: u32)
    requires Safe(s) && InFlight(s, id, r) && s.q.pubs[id].flights[r] == Reading
    ensures Safe(ReadDone(s, id, r, ok, value))
  {
    assert UsesContext(s.q.pubs, id, r);
    ContextOf(s, id);
    SameContexts(s.config.pipelined, s.q.jfcs, id);
    hide Safe, Publish;
    if !ok {
      FlightStaysSafe(s, id, r, Finishing(true), s.q.jfcs);
    } else {
      PublishSafe(s, id, r, Masked(value));
    }
  }

  /** A CQE write in flight finds its context and is counted by it. */
  lemma WritingCounted(s: Engine, id: u32, r: nat)
    requires Safe(s) && InFlight(s, id, r) && s.q.pubs[id].flights[r] == Writing
    ensures id in s.q.jfcs && JfcOk(s.q.jfcs[id])
    ensures s.config.pipelined ==> s.q.jfcs[id].writing > 0
  {
    assert UsesContext(s.q.pubs, id, r);
    ContextOf(s, id);
    assert r in WritingOf(s.q.pubs[id]);
  }

  lemma CommittedStep(j: Jfc, pipelined: bool, ok: bool, now: nat)
    requires JfcOk(j) && (pipelined ==> j.writing > 0)
    ensures var j' := Committed(j, pipelined, ok, now).0;
            JfcOk(j') && j'.writing == if pipelined then j.writing - 1 else j.writing
  {
  }

  lemma WriteDoneSafe(s: Engine, id: u32, r: nat, ok: bool)
    requires Safe(s) && InFlight(s, id, r) && s.q.pubs[id].flights[r] == Writing
    ensures Safe(WriteDone(s, id, r, ok))
  {
    WritingCounted(s, id, r);
    CommittedStep(s.q.jfcs[id], s.config.pipelined, ok, s.now);
    hide Safe, Committed, Emit;
    var (j, verdict) := Committed(s.q.jfcs[id], s.config.pipelined, ok, s.now);
    assert ContextStep(s.config.pipelined, s.q.jfcs, s.q.jfcs[id := j], id, true, false);
    hide ContextStep;
    if verdict.Due? {
      VisibleSafe(s, id, r, s.q.jfcs[id := j]);
    } else {
      FlightStaysSafe(s, id, r, Finishing(true), s.q.jfcs[id := j]);
    }
  }

  /** The CQE is visible and the notification takes over the slot before the caller hears of it. */
  lemma VisibleSafe(s: Engine, id: u32, r: nat, jfcs': map<u32, Jfc>)
    requires Safe(s) && Occupies(s, id, r) && id in s.q.jfcs
    requires ContextStep(s.config.pipelined, s.q.jfcs, jfcs', id, s.q.pubs[id].flights[r] == Writing, false)
    ensures Safe(Emit(s.(q := s.q.(jfcs := jfcs', pubs := WithFlight(s.q.pubs, id, r, Finishing(false)))), id, r))
  {
    HeldIsOwned(s, id, r);
    var u := s.(q := s.q.(jfcs := jfcs', pubs := WithFlight(s.q.pubs, id, r, Finishing(false))));
    SafeParts(s);
    EventsUnmoved(s, u);
    EmitEvents(u, id, r);
    EmitOwners(u, id, r);
    hide PubSafe, EventSafe, Safe, Emit;
    var t := Emit(u, id, r);
    var p := s.q.pubs[id];
    FlightGives(s, id, r, p.(flights := p.flights[r := Finishing(false)]), jfcs', t.pool.owners[r]);
    SafeParts(t);
  }

  lemma ReleasedCounts(s: Engine, id: u32, r: nat)
    requires Safe(s) && InFlight(s, id, r) && s.q.pubs[id].flights[r].Finishing?
    ensures s.config.pipelined ==> s.q.pubs[id].inFlight > 0
    ensures Counted(s.config.pipelined, Released(s.q.pubs[id], r, s.config.pipelined))
  {
    assert Counted(s.config.pipelined, s.q.pubs[id]);
    DropCounts(s.q.pubs[id], r);
  }

  lemma ReleasedPubs(s: Engine, id: u32, r: nat, owners': map<nat, Owner>)
    requires Safe(s) && InFlight(s, id, r) && s.q.pubs[id].flights[r].Finishing?
    requires s.config.pipelined ==> s.q.pubs[id].inFlight > 0
    requires Counted(s.config.pipelined, Released(s.q.pubs[id], r, s.config.pipelined))
    requires owners' == if s.q.pubs[id].flights[r].slot then s.pool.owners[r := Leaving] else s.pool.owners
    ensures PubSafe(s.config.pipelined, s.q.pubs[id := Released(s.q.pubs[id], r, s.config.pipelined)], s.q.jfcs,
                    owners', s.pool.nextSlot)
    ensures EventSafe(s.(pool := s.pool.(owners := owners')))
  {
    if id in s.q.jfcs {
      ContextOf(s, id);
    }
    SameContexts(s.config.pipelined, s.q.jfcs, id);
    SafeParts(s);
    if s.q.pubs[id].flights[r].slot {
      HeldIsOwned(s, id, r);
      hide Safe, PubSafe, EventSafe, Counted, ContextStep, HoldsSlot;
      HandEvents(s, r);
      FlightGives(s, id, r, Released(s.q.pubs[id], r, s.config.pipelined), s.q.jfcs, Leaving);
    } else {
      hide Safe, PubSafe, EventSafe, Counted, ContextStep, HoldsSlot;
      UnownedFlightEnds(s, id, r, Released(s.q.pubs[id], r, s.config.pipelined));
    }
  }

  lemma ReleaseSafe(s: Engine, id: u32, r: nat)
    requires Safe(s) && InFlight(s, id, r) && s.q.pubs[id].flights[r].Finishing?
    ensures s.config.pipelined ==> s.q.pubs[id].inFlight > 0
    ensures Safe(Release(s, id, r))
  {
    ReleasedCounts(s, id, r);
    SafeParts(s);
    hide Safe, PubSafe, EventSafe, Counted, Released;
    var t := Release(s, id, r);
    ReleasedPubs(s, id, r, t.pool.owners);
    EventsUnmoved(s.(pool := s.pool.(owners := t.pool.owners)), t);
    SafeParts(t);
  }

  /** The slot of a flight is given back; the notifications do not notice. */
  lemma HandEvents(s: Engine, r: nat)
    requires EventSafe(s) && r in s.pool.owners && !s.pool.owners[r].Notification?
    ensures EventSafe(s.(pool := s.pool.(owners := s.pool.owners[r := Leaving])))
  {
    SlotsHand(s.pool.owners, s.pool.inUse, s.config.slots, r, Leaving);
    EventOwnOther(s.ev.queue, s.ev.active, s.pool.owners, r, Leaving);
    hide EventOwn, Slots, Credits, EventsAlive;
  }

  lemma DropCounts(p: Publications, r: nat)
    requires r in p.flights
    ensures |p.flights - {r}| == |p.flights| - 1
  {
    assert (p.flights - {r}).Keys == p.flights.Keys - {r};
    assert |(p.flights - {r}).Keys| == |p.flights - {r}| && |p.flights.Keys| == |p.flights|;
  }

  /** A flight that had given its slot away ends. */
  lemma UnownedFlightEnds(s: Engine, id: u32, r: nat, p': Publications)
    requires Safe(s) && InFlight(s, id, r) && s.q.pubs[id].flights[r] == Finishing(false)
    requires p'.flights == s.q.pubs[id].flights - {r} && Counted(s.config.pipelined, p')
    ensures PubSafe(s.config.pipelined, s.q.pubs[id := p'], s.q.jfcs, s.pool.owners, s.pool.nextSlot)
  {
    var p := s.q.pubs[id];
    assert !HoldsSlot(s.q.pubs, id, r);
    WritingOfDrop(p, p', r);
    SameOffSet(p.flights, r, Reading);
    OwnersOffSet(s.pool.owners, r, Leaving);
    if id in s.q.jfcs {
      ContextOf(s, id);
    }
    SameContexts(s.config.pipelined, s.q.jfcs, id);
    assert PubSafe(s.config.pipelined, s.q.pubs, s.q.jfcs, s.pool.owners, s.pool.nextSlot);
    assert r < s.pool.nextSlot && !OwnedBy(s.pool.owners, r, id);
    CountsAt(s.config.pipelined, s.q.pubs, id, p');
    hide Safe, Counts, HoldsSlot, WritingOf, ContextStep, SameOff, OwnersOff;
    PubOwnDrop(s.q.pubs, s.pool.owners, id, r, p');
    ContextsStep(s.config.pipelined, s.q.pubs, s.q.jfcs, s.q.jfcs, id, p', false, false);
    AliveStep(s.q.pubs, s.q.jfcs, s.q.jfcs, id, r, p');
    NumberedStep(s.q.pubs, s.pool.owners, s.pool.owners, s.pool.nextSlot, s.pool.nextSlot, id, r, p');
    hide PubOwn, Contexts, Alive, Numbered;
  }

  lemma CountsAt(pipelined: bool, pubs: map<u32, Publications>, id: u32, p': Publications)
    requires Counts(pipelined, pubs) && Counted(pipelined, p')
    ensures Counts(pipelined, pubs[id := p']) && Counts(pipelined, pubs - {id})
  {
  }

  lemma PubOwnDrop(pubs: map<u32, Publications>, owners: map<nat, Owner>, id: u32, r: nat, p': Publications)
    requires PubOwn(pubs, owners) && id in pubs && p'.flights == pubs[id].flights - {r}
    requires r in pubs[id].flights && pubs[id].flights[r] == Finishing(false)
    ensures PubOwn(pubs[id := p'], owners)
  {
    forall x, q
      ensures HoldsSlot(pubs[id := p'], x, q) <==> HoldsSlot(pubs, x, q)
    {
    }
    hide HoldsSlot, OwnedBy;
  }

  // ------------------------------------------------------------------ steps: the queues and the pump

  /** Two tables of queues with the same flights. */
  ghost predicate SameFlights(pubs: map<u32, Publications>, pubs': map<u32, Publications>) {
    forall id {:trigger id in pubs'} {:trigger id in pubs} ::
      (if id in pubs' then pubs'[id].flights else map[]) == (if id in pubs then pubs[id].flights else map[])
  }

  lemma SameFlightsHold(pubs: map<u32, Publications>, pubs': map<u32, Publications>)
    requires SameFlights(pubs, pubs')
    ensures forall x, r {:trigger HoldsSlot(pubs', x, r)} :: HoldsSlot(pubs', x, r) <==> HoldsSlot(pubs, x, r)
    ensures forall x, r {:trigger UsesContext(pubs', x, r)} :: UsesContext(pubs', x, r) <==> UsesContext(pubs, x, r)
  {
  }

  lemma SameFlightsWrite(pipelined: bool, pubs: map<u32, Publications>, pubs': map<u32, Publications>)
    requires SameFlights(pubs, pubs')
    ensures forall x {:trigger Writes(pipelined, pubs', x)} :: Writes(pipelined, pubs', x) == Writes(pipelined, pubs, x)
  {
    forall x
      ensures Writes(pipelined, pubs', x) == Writes(pipelined, pubs, x)
    {
      assert x in pubs && x in pubs' ==> WritingOf(pubs'[x]) == WritingOf(pubs[x]);
      assert x in pubs && x !in pubs' ==> WritingOf(pubs[x]) == {};
      assert x !in pubs && x in pubs' ==> WritingOf(pubs'[x]) == {};
    }
  }

  /** Queues can grow, and come and go while they have no flight. */
  lemma SameFlightsKeep(pipelined: bool, pubs: map<u32, Publications>, jfcs: map<u32, Jfc>, owners: map<nat, Owner>,
                        next: nat,
                        pubs': map<u32, Publications>)
    requires PubSafe(pipelined, pubs, jfcs, owners, next) && SameFlights(pubs, pubs') && Counts(pipelined, pubs')
    ensures PubSafe(pipelined, pubs', jfcs, owners, next)
  {
    SameFlightsHold(pubs, pubs');
    SameFlightsWrite(pipelined, pubs, pubs');
    assert Numbered(owners, pubs', next) by {
      hide PubOwn, Counts, Contexts, Alive, Writes;
    }
    hide Numbered, SameFlights, HoldsSlot, OwnedBy, Writes, UsesContext, Counts;
    forall x | x in jfcs
      ensures jfcs[x].writing == Writes(pipelined, pubs', x) && JfcOk(jfcs[x])
    {
      assert jfcs[x].writing == Writes(pipelined, pubs, x) && JfcOk(jfcs[x]);
    }
    assert forall x, r {:trigger HoldsSlot(pubs', x, r)} {:trigger OwnedBy(owners, r, x)} ::
        HoldsSlot(pubs', x, r) <==> OwnedBy(owners, r, x) by {
      forall x, r
        ensures HoldsSlot(pubs', x, r) <==> OwnedBy(owners, r, x)
      {
        assert HoldsSlot(pubs, x, r) <==> OwnedBy(owners, r, x);
      }
    }
  }

  lemma PubsChanged(s: Engine, t: Engine)
    requires Safe(s) && SameFlights(s.q.pubs, t.q.pubs) && Counts(s.config.pipelined, t.q.pubs)
    requires t.config == s.config && t.q.jfcs == s.q.jfcs && t.q.ceqOf == s.q.ceqOf && t.pool.owners == s.pool.owners
    requires t.pool.inUse == s.pool.inUse && t.pool.nextSlot == s.pool.nextSlot && t.ev.queue == s.ev.queue
        && t.ev.active == s.ev.active && t.ev.ceqs == s.ev.ceqs
    requires t.cmd == s.cmd
    ensures Safe(t)
  {
    SafeParts(s);
    SafeParts(t);
    hide Safe, PubSafe, EventSafe, SameFlights, Counts, OneCommand;
    SameFlightsKeep(s.config.pipelined, s.q.pubs, s.q.jfcs, s.pool.owners, s.pool.nextSlot, t.q.pubs);
    EventsUnmoved(s, t);
  }

  lemma EnqueueSafe(s: Engine, id: u32)
    requires Safe(s)
    ensures Safe(Enqueue(s, id))
  {
    if id in s.q.pubs {
      assert Counted(s.config.pipelined, s.q.pubs[id]);
    }
    var p := Queue(if id in s.q.pubs then Some(s.q.pubs[id]) else None);
    assert Counted(s.config.pipelined, p);
    assert p.flights == if id in s.q.pubs then s.q.pubs[id].flights else map[];
    CountsAt(s.config.pipelined, s.q.pubs, id, p);
    hide Safe, Counts, Kick, Queue;
    var t := s.(q := s.q.(pubs := s.q.pubs[id := p]));
    assert SameFlights(s.q.pubs, t.q.pubs);
    hide SameFlights;
    PubsChanged(s, t);
    KickSafe(t);
  }

  lemma KickSafe(s: Engine)
    requires Safe(s)
    ensures Safe(Kick(s))
  {
    hide PubOwn, EventOwn, Slots, Numbered, Counts, Contexts, Alive, EventsAlive, Credits, ActiveKnown, OneCommand;
  }

  lemma NewNumber(s: Engine)
    requires Safe(s)
    ensures s.pool.nextSlot !in s.pool.owners && forall id :: id in s.q.pubs ==>
              s.pool.nextSlot !in s.q.pubs[id].flights
  {
    assert Numbered(s.pool.owners, s.q.pubs, s.pool.nextSlot);
  }

  lemma ReserveEvents(s: Engine, owner: Owner)
    requires Safe(s) && s.pool.inUse < s.config.slots && !owner.Notification?
    ensures EventSafe(s.(pool := s.pool.(owners := s.pool.owners[s.pool.nextSlot := owner], inUse := s.pool.inUse + 1)))
  {
    NewNumber(s);
    SlotsReserve(s.pool.owners, s.pool.inUse, s.config.slots, s.pool.nextSlot, owner);
    EventOwnOther(s.ev.queue, s.ev.active, s.pool.owners, s.pool.nextSlot, owner);
    hide EventOwn, Slots, Credits, PubOwn, Numbered, Counts, Contexts, Alive, OneCommand;
  }

  /** A publication is admitted: it takes a new reservation and its first DMA starts. */
  lemma NewFlight(s: Engine, id: u32, f: Flight, jfcs': map<u32, Jfc>)
    requires Safe(s) && id in s.q.pubs && s.q.pubs[id].pending > 0 && (!s.config.pipelined ==> !s.q.pubs[id].running)
    requires f != Finishing(false) && (!f.Finishing? ==> id in s.q.jfcs)
    requires ContextStep(s.config.pipelined, s.q.jfcs, jfcs', id, false, f == Writing)
    ensures PubSafe(s.config.pipelined,
                    WithFlight(s.q.pubs[id := Admitted(s.q.pubs[id], s.config.pipelined)], id, s.pool.nextSlot, f),
                    jfcs', s.pool.owners[s.pool.nextSlot := Publication(id)], s.pool.nextSlot + 1)
  {
    NewNumber(s);
    var r, p := s.pool.nextSlot, s.q.pubs[id];
    assert Counted(s.config.pipelined, p);
    var p' := Admitted(p, s.config.pipelined).(flights := p.flights[r := f]);
    assert Counted(s.config.pipelined, p');
    assert s.q.pubs[id := p'] == WithFlight(s.q.pubs[id := Admitted(p, s.config.pipelined)], id, r, f);
    WritingOfSet(p, p', r, f);
    SameOffSet(p.flights, r, f);
    OwnersOffSet(s.pool.owners, r, Publication(id));
    assert PubSafe(s.config.pipelined, s.q.pubs, s.q.jfcs, s.pool.owners, s.pool.nextSlot);
    hide Safe, PubSafe, Counted, WritingOf, SameOff, OwnersOff, ContextStep, WithFlight;
    FlightKeeps(s.config.pipelined, s.q.pubs, s.q.jfcs, s.pool.owners, r, id, r, p', jfcs',
                s.pool.owners[r := Publication(id)], r + 1,
                false, f == Writing);
  }

  lemma IssueAs(s: Engine, id: u32, ids: seq<u32>, f: Flight, jfcs': map<u32, Jfc>)
    requires Safe(s) && id in s.q.pubs && s.q.pubs[id].pending > 0 && (!s.config.pipelined ==> !s.q.pubs[id].running)
    requires s.pool.inUse < s.config.slots
    requires f != Finishing(false) && (!f.Finishing? ==> id in s.q.jfcs)
    requires ContextStep(s.config.pipelined, s.q.jfcs, jfcs', id, false, f == Writing)
    ensures var u := Reserving(s, id, ids);
            Safe(u.(q := u.q.(pubs := WithFlight(u.q.pubs, id, s.pool.nextSlot, f), jfcs := jfcs')))
  {
    NewFlight(s, id, f, jfcs');
    ReserveEvents(s, Publication(id));
    var u := Reserving(s, id, ids);
    var t := u.(q := u.q.(pubs := WithFlight(u.q.pubs, id, s.pool.nextSlot, f), jfcs := jfcs'));
    SafeParts(s);
    SafeParts(t);
    hide Safe, PubSafe, EventSafe, WithFlight, Admitted;
    EventsUnmoved(s.(pool := s.pool.(owners := s.pool.owners[s.pool.nextSlot := Publication(id)],
                                     inUse := s.pool.inUse + 1)), t);
  }

  lemma IssueSafe(s: Engine, id: u32, ids: seq<u32>)
    requires Safe(s) && id in s.q.pubs && s.q.pubs[id].pending > 0 && (!s.config.pipelined ==> !s.q.pubs[id].running)
    requires s.pool.inUse < s.config.slots
    ensures Safe(Issue(Reserving(s, id, ids), id, s.pool.nextSlot))
  {
    if id in s.q.jfcs {
      ContextOf(s, id);
    }
    SameContexts(s.config.pipelined, s.q.jfcs, id);
    var u := Reserving(s, id, ids);
    hide Safe, NoRoom, WithFlight, Admitted;
    if id !in s.q.jfcs {
      IssueAs(s, id, ids, Finishing(true), s.q.jfcs);
    } else if s.config.pipelined && Held(s.q.jfcs[id]) < s.q.jfcs[id].depth {
      if NoRoom(s.q.jfcs[id], Masked(s.q.jfcs[id].consumer)) {
        IssueAs(s, id, ids, Finishing(true), s.q.jfcs);
      } else {
        var jfcs' := s.q.jfcs[id := Taken(s.q.jfcs[id], Masked(s.q.jfcs[id].consumer), s.config.pipelined)];
        assert ContextStep(s.config.pipelined, s.q.jfcs, jfcs', id, false, true);
        IssueAs(s, id, ids, Writing, jfcs');
      }
    } else {
      IssueAs(s, id, ids, Reading, s.q.jfcs);
    }
  }

  lemma RetireSafe(s: Engine, id: u32, ids: seq<u32>)
    requires Safe(s) && id in s.q.pubs && !Publishing(s.q.pubs[id])
    ensures Safe(Retire(s, id, ids))
  {
    assert Counted(s.config.pipelined, s.q.pubs[id]);
    assert |s.q.pubs[id].flights| == 0;
    CountsAt(s.config.pipelined, s.q.pubs, id, s.q.pubs[id]);
    hide Safe, Counts;
    PubsChanged(s, Retire(s, id, ids));
  }

  lemma AdmitSafe(s: Engine)
    requires Safe(s) && s.work.pump.Admitting?
    ensures Safe(Admit(s))
  {
    hide Safe, Issue, Reserving, Retire;
    var id, ids := s.work.pump.id, s.work.pump.ids;
    if s.work.pump.more && Admits(s, id) {
      IssueSafe(s, id, ids);
    } else if id in s.q.pubs && !Publishing(s.q.pubs[id]) {
      RetireSafe(s, id, ids);
    } else {
      LeaveSafe(s, Visiting(ids));
    }
  }

  lemma LeaveSafe(s: Engine, pump: Pump)
    requires Safe(s)
    ensures Safe(s.(work := s.work.(pump := pump))) && forall k :: Safe(s.(work := s.work.(pump := pump, kick := k)))
  {
    hide PubOwn, EventOwn, Slots, Numbered, Counts, Contexts, Alive, EventsAlive, Credits, ActiveKnown, OneCommand;
  }

  /** Steps that touch none of the components `Safe` is about. */
  lemma UntouchedSafe(s: Engine, t: Engine)
    requires Safe(s)
    requires t.config == s.config && t.q.pubs == s.q.pubs && t.q.jfcs == s.q.jfcs && t.q.ceqOf == s.q.ceqOf
        && t.pool.owners == s.pool.owners
    requires t.pool.inUse == s.pool.inUse && t.pool.nextSlot == s.pool.nextSlot && t.ev.queue == s.ev.queue
        && t.ev.active == s.ev.active && t.ev.ceqs == s.ev.ceqs
    requires OneCommand(t.cmd, t.q.jfcs)
    ensures Safe(t)
  {
    hide PubOwn, EventOwn, Slots, Numbered, Counts, Contexts, Alive, EventsAlive, Credits, ActiveKnown, OneCommand;
  }

  lemma ExpireSafe(s: Engine)
    requires Safe(s) && s.work.pump.Expiring?
    ensures Safe(Expire(s))
  {
    hide Safe, Emit, Silent, Refused, TimerTaken;
    if s.work.pump.timers == [] || s.pool.inUse >= s.config.slots {
      LeaveSafe(s, Gather);
    } else if s.work.pump.timers[0] !in s.q.jfcs {
      LeaveSafe(s, Expiring(s.work.pump.timers[1..]));
    } else {
      TimerSafe(s, s.work.pump.timers[0]);
    }
  }

  lemma EmitOwners(s: Engine, id: u32, r: nat)
    ensures var t := Emit(s, id, r);
            && t.config == s.config && t.q.jfcs == s.q.jfcs && t.q.ceqOf == s.q.ceqOf && t.q.pubs == s.q.pubs
                && t.pool.nextSlot == s.pool.nextSlot
            && t.cmd == s.cmd
            && r in t.pool.owners && t.pool.owners == s.pool.owners[r := t.pool.owners[r]]
                && !t.pool.owners[r].Publication?
  {
    if Silent(s, id) {
    } else {
    }
  }

  lemma TimerSafe(s: Engine, id: u32)
    requires Safe(s) && s.work.pump.Expiring? && s.work.pump.timers != [] && id in s.q.jfcs
        && s.pool.inUse < s.config.slots
    ensures Safe(Emit(TimerTaken(s, id), id, s.pool.nextSlot))
  {
    NewNumber(s);
    ReserveEvents(s, Leaving);
    ExpiredContexts(s, id);
    SafeParts(s);
    var r := s.pool.nextSlot;
    hide Safe, PubSafe, EventSafe, Silent, Refused, Emit;
    var u := TimerTaken(s, id);
    EventsUnmoved(s.(pool := s.pool.(owners := s.pool.owners[r := Leaving], inUse := s.pool.inUse + 1)), u);
    EmitEvents(u, id, r);
    EmitOwners(u, id, r);
    var t := Emit(u, id, r);
    assert t.pool.owners == s.pool.owners[r := t.pool.owners[r]];
    NewSlotKeeps(s.config.pipelined, s.q.pubs, u.q.jfcs, s.pool.owners, r, t.pool.owners);
    SafeParts(t);
  }

  lemma ExpiredContexts(s: Engine, id: u32)
    requires Safe(s) && id in s.q.jfcs
    ensures PubSafe(s.config.pipelined, s.q.pubs, s.q.jfcs[id := s.q.jfcs[id].(completions := 0, deadline := 0)],
                    s.pool.owners, s.pool.nextSlot)
  {
    ContextOf(s, id);
    var jfcs' := s.q.jfcs[id := s.q.jfcs[id].(completions := 0, deadline := 0)];
    assert Contexts(s.config.pipelined, s.q.pubs, jfcs') by {
      hide PubOwn, Numbered, Counts, Alive, Writes;
      forall x | x in jfcs'
        ensures jfcs'[x].writing == Writes(s.config.pipelined, s.q.pubs, x) && JfcOk(jfcs'[x])
      {
        assert s.q.jfcs[x].writing == Writes(s.config.pipelined, s.q.pubs, x) && JfcOk(s.q.jfcs[x]);
      }
    }
    hide PubOwn, Numbered, Counts, Contexts;
  }

  lemma NewSlotKeeps(pipelined: bool, pubs: map<u32, Publications>, jfcs: map<u32, Jfc>, owners: map<nat, Owner>,
                     next: nat,
                     owners': map<nat, Owner>)
    requires PubSafe(pipelined, pubs, jfcs, owners, next) && next !in owners
    requires next in owners' && !owners'[next].Publication? && owners' == owners[next := owners'[next]]
    ensures PubSafe(pipelined, pubs, jfcs, owners', next + 1)
  {
    PubOwnOther(pubs, owners, next, owners'[next]);
    hide PubOwn, Counts, Contexts, Alive;
  }

  lemma FreeSafe(s: Engine, r: nat)
    requires Safe(s) && r in s.pool.owners && s.pool.owners[r] == Leaving
    ensures s.pool.inUse > 0 && Safe(Free(s, r))
  {
    SlotsHand(s.pool.owners, s.pool.inUse, s.config.slots, r, Leaving);
    EventOwnOther(s.ev.queue, s.ev.active, s.pool.owners, r, Leaving);
    PubOwnOther(s.q.pubs, s.pool.owners, r, Leaving);
    assert Numbered(s.pool.owners - {r}, s.q.pubs, s.pool.nextSlot);
    hide PubOwn, EventOwn, Slots, Numbered, Counts, Contexts, Alive, EventsAlive, Credits, ActiveKnown, OneCommand;
  }

  // ------------------------------------------------------------------ steps: events and credits

  lemma OutstandingAfter(producer: u32, consumer: u32, d: nat)
    requires d <= (producer - consumer) % WORD
    ensures (producer - (consumer + d) % WORD) % WORD == (producer - consumer) % WORD - d
  {
    var x := (producer - consumer) % WORD;
    var e := (consumer + d) % WORD;
    assert e == consumer + d || e == consumer + d - WORD;
  }

  lemma OutstandingGrows(producer: u32, consumer: u32)
    requires (producer - consumer) % WORD < WORD - 1
    ensures ((producer + 1) % WORD - consumer) % WORD == (producer - consumer) % WORD + 1
  {
    var e := (producer + 1) % WORD;
    assert e == producer + 1 || e == producer + 1 - WORD;
  }

  lemma AcknowledgedCredit(c: Ceq, ok: bool)
    requires Credit(c, true)
    ensures Credit(Acknowledged(c, ok), false)
  {
    OutstandingGrows(c.producer, c.consumer);
  }

  /** The report of the guest is one of the counter values it can have seen, and only of one. */
  lemma ReportedCredit(c: Ceq, report: nat, reserved: bool)
    requires Credit(c, reserved) && report < REPORT
    ensures Credit(Reported(c, report, reserved), reserved)
  {
    var d := Moves(c, report);
    if d <= Outstanding(c) {
      OutstandingAfter(c.producer, c.consumer, d);
    } else if d == Outstanding(c) + 1 {
      assert (c.consumer + d) % WORD == (c.producer + 1) % WORD;
    }
  }

  lemma CreditsAt(ceqs: map<u32, Ceq>, active: Option<Active>, active': Option<Active>, id: u32, c: Ceq)
    requires Credits(ceqs, active) && Credit(c, BeingWritten(active', id))
    requires forall x :: x != id ==> BeingWritten(active', x) == BeingWritten(active, x)
    ensures Credits(ceqs[id := c], active')
  {
    hide Credit;
    forall x | x in ceqs[id := c]
      ensures Credit(ceqs[id := c][x], BeingWritten(active', x))
    {
      assert x != id ==> Credit(ceqs[x], BeingWritten(active, x));
    }
  }

  lemma CreditsTake(ceqs: map<u32, Ceq>, e: Event)
    requires Credits(ceqs, None) && e.ceq in ceqs && Eligible(ceqs, e)
    ensures Credits(ceqs, Some(Active(e, true)))
  {
    forall x | x in ceqs
      ensures Credit(ceqs[x], BeingWritten(Some(Active(e, true)), x))
    {
      assert Credit(ceqs[x], BeingWritten(None, x));
    }
  }

  /** Only the events part of the state and the owners change. */
  lemma EventsChanged(s: Engine, t: Engine)
    requires Safe(s) && t.config == s.config && t.q == s.q && t.cmd == s.cmd
    requires t.pool.inUse == s.pool.inUse && t.pool.nextSlot == s.pool.nextSlot
    requires EventSafe(t)
    requires PubOwn(s.q.pubs, t.pool.owners) && Numbered(t.pool.owners, s.q.pubs, s.pool.nextSlot)
    ensures Safe(t)
  {
    hide PubOwn, EventOwn, Slots, Numbered, Counts, Contexts, Alive, EventsAlive, Credits, ActiveKnown, OneCommand;
  }

  lemma NotificationLeaves(s: Engine, r: nat)
    requires Safe(s) && Notifies(s.pool.owners, r)
    ensures PubOwn(s.q.pubs, s.pool.owners[r := Leaving])
        && Numbered(s.pool.owners[r := Leaving], s.q.pubs, s.pool.nextSlot)
    ensures Slots(s.pool.owners[r := Leaving], s.pool.inUse, s.config.slots)
  {
    PubOwnOther(s.q.pubs, s.pool.owners, r, Leaving);
    SlotsHand(s.pool.owners, s.pool.inUse, s.config.slots, r, Leaving);
    hide PubOwn, EventOwn, Slots;
  }

  lemma DropEventSafe(s: Engine, i: nat)
    requires Safe(s) && s.ev.active.None? && i < |s.ev.queue|
    ensures Safe(s.(ev := s.ev.(queue := s.ev.queue[..i] + s.ev.queue[i + 1..]),
                    pool := s.pool.(owners := s.pool.owners[s.ev.queue[i].slot := Leaving])))
  {
    EventOwnTake(s.ev.queue, s.pool.owners, i, true);
    NotificationLeaves(s, s.ev.queue[i].slot);
    var t := s.(ev := s.ev.(queue := s.ev.queue[..i] + s.ev.queue[i + 1..]),
                pool := s.pool.(owners := s.pool.owners[s.ev.queue[i].slot := Leaving]));
    assert EventSafe(t) by {
      hide EventOwn, Slots, Credits, PubOwn, Numbered, Counts, Contexts, Alive, OneCommand;
    }
    hide Safe, EventSafe;
    EventsChanged(s, t);
  }

  lemma TakeEventSafe(s: Engine, i: nat)
    requires Safe(s) && s.ev.active.None? && i < |s.ev.queue|
    requires Eligible(s.ev.ceqs, s.ev.queue[i]) && s.ev.queue[i].ceq in s.ev.ceqs
    ensures Safe(s.(ev := s.ev.(queue := s.ev.queue[..i] + s.ev.queue[i + 1..],
                                active := Some(Active(s.ev.queue[i], true)))))
  {
    EventOwnTake(s.ev.queue, s.pool.owners, i, true);
    CreditsTake(s.ev.ceqs, s.ev.queue[i]);
    var t := s.(ev := s.ev.(queue := s.ev.queue[..i] + s.ev.queue[i + 1..],
                            active := Some(Active(s.ev.queue[i], true))));
    assert EventSafe(t) by {
      hide EventOwn, Slots, Credits, PubOwn, Numbered, Counts, Contexts, Alive, OneCommand;
    }
    assert Numbered(s.pool.owners, s.q.pubs, s.pool.nextSlot) && PubOwn(s.q.pubs, s.pool.owners);
    hide Safe, EventSafe;
    EventsChanged(s, t);
  }

  /** History, debts and the dispatching flag are not what `Safe` is about. */
  lemma Unrelated(s: Engine, t: Engine)
    requires Safe(s) && t.config == s.config && t.q == s.q && t.pool == s.pool && t.cmd == s.cmd
    requires t.ev.(dispatching := s.ev.dispatching) == s.ev
    ensures Safe(t)
  {
    hide PubOwn, EventOwn, Slots, Numbered, Counts, Contexts, Alive, EventsAlive, Credits, ActiveKnown, OneCommand;
  }

  lemma DeliverSafe(s: Engine)
    requires Safe(s) && s.ev.dispatching
    ensures Safe(Deliver(s))
  {
    var i := FirstEligible(s.ev.ceqs, s.ev.queue, 0);
    hide Safe, FirstEligible, Eligible;
    if s.ev.active.Some? || i == |s.ev.queue| {
      Unrelated(s, Deliver(s));
    } else if s.ev.queue[i].ceq !in s.ev.ceqs {
      DropEventSafe(s, i);
      Unrelated(s.(ev := s.ev.(queue := s.ev.queue[..i] + s.ev.queue[i + 1..]),
                   pool := s.pool.(owners := s.pool.owners[s.ev.queue[i].slot := Leaving])), Deliver(s));
    } else {
      TakeEventSafe(s, i);
      Unrelated(s.(ev := s.ev.(queue := s.ev.queue[..i] + s.ev.queue[i + 1..],
                               active := Some(Active(s.ev.queue[i], true)))),
                Deliver(s));
    }
  }

  /** An event whose entry is not being written ends. */
  lemma EndedSafe(s: Engine, ceqs': map<u32, Ceq>)
    requires Safe(s) && s.ev.active.Some? && Credits(ceqs', None) && ceqs'.Keys == s.ev.ceqs.Keys
    ensures Safe(Ended(s.(ev := s.ev.(ceqs := ceqs'))))
  {
    EventOwnEnd(s.ev.queue, s.ev.active.value, s.pool.owners);
    NotificationLeaves(s, s.ev.active.value.event.slot);
    var t := Ended(s.(ev := s.ev.(ceqs := ceqs')));
    assert EventSafe(t) by {
      hide EventOwn, Slots, Credits, PubOwn, Numbered, Counts, Contexts, Alive, OneCommand;
    }
    hide Safe, EventSafe;
    EventsChanged(s, t);
  }

  lemma InterruptedSafe(s: Engine)
    requires Safe(s) && s.ev.active.Some? && !s.ev.active.value.writing
    ensures Safe(Ended(s))
  {
    assert Credits(s.ev.ceqs, None) by {
      forall x | x in s.ev.ceqs
        ensures Credit(s.ev.ceqs[x], BeingWritten(None, x))
      {
        assert Credit(s.ev.ceqs[x], BeingWritten(s.ev.active, x));
      }
    }
    EndedSafe(s, s.ev.ceqs);
    hide Safe;
    assert s.(ev := s.ev.(ceqs := s.ev.ceqs)) == s;
  }

  lemma EventWrittenSafe(s: Engine, ok: bool)
    requires Safe(s) && s.ev.active.Some? && s.ev.active.value.writing
    ensures s.ev.active.value.event.ceq in s.ev.ceqs && Safe(EventWritten(s, ok))
  {
    var a := s.ev.active.value;
    var id := a.event.ceq;
    assert Credit(s.ev.ceqs[id], BeingWritten(s.ev.active, id));
    AcknowledgedCredit(s.ev.ceqs[id], ok);
    var c := Acknowledged(s.ev.ceqs[id], ok);
    CreditsAt(s.ev.ceqs, s.ev.active, if ok then Some(a.(writing := false)) else None, id, c);
    if ok {
      EventOwnEnd(s.ev.queue, a, s.pool.owners);
      var t := EventWritten(s, ok);
      assert EventSafe(t) by {
        hide EventOwn, Slots, Credits, PubOwn, Numbered, Counts, Contexts, Alive, OneCommand;
      }
      assert Numbered(s.pool.owners, s.q.pubs, s.pool.nextSlot) && PubOwn(s.q.pubs, s.pool.owners);
      hide Safe, EventSafe;
      EventsChanged(s, t);
    } else {
      hide Safe;
      EndedSafe(s, s.ev.ceqs[id := c]);
    }
  }

  lemma ReportSafe(s: Engine, id: u32, report: nat)
    requires Safe(s) && report < REPORT
    ensures Safe(Report(s, id, report))
  {
    if id in s.ev.ceqs {
      var c := s.ev.ceqs[id];
      assert Credit(c, BeingWritten(s.ev.active, id));
      ReportedCredit(c, report, BeingWritten(s.ev.active, id));
      CreditsAt(s.ev.ceqs, s.ev.active, s.ev.active, id, Reported(c, report, BeingWritten(s.ev.active, id)));
      hide Credits, PubOwn, EventOwn, Slots, Numbered, Counts, Contexts, Alive, EventsAlive, OneCommand, Reported,
          Moves, Outstanding;
      if c.fault || Moves(c, report) > Outstanding(c) + (if BeingWritten(s.ev.active, id) then 1 else 0) {
      } else {
        var t := s.(ev := s.ev.(ceqs := s.ev.ceqs[id := Reported(c, report, BeingWritten(s.ev.active, id))]));
        assert Safe(t);
        hide Safe;
        Unrelated(t, Report(s, id, report));
      }
    }
  }

  // ------------------------------------------------------------------ steps: commands

  /** Nothing refers to an event queue that is not busy: neither a queued event nor the active one. */
  lemma CeqRemoved(s: Engine, id: u32)
    requires Safe(s) && !CeqBusy(s, id)
    ensures Safe(s.(ev := s.ev.(ceqs := s.ev.ceqs - {id})))
  {
    var t := s.(ev := s.ev.(ceqs := s.ev.ceqs - {id}));
    assert Credits(t.ev.ceqs, s.ev.active) by {
      forall x | x in t.ev.ceqs
        ensures Credit(t.ev.ceqs[x], BeingWritten(s.ev.active, x))
      {
        assert Credit(s.ev.ceqs[x], BeingWritten(s.ev.active, x));
      }
    }
    assert ActiveKnown(t.ev.ceqs, s.ev.active);
    hide PubOwn, EventOwn, Slots, Numbered, Counts, Contexts, Alive, EventsAlive, Credits, ActiveKnown, OneCommand,
        CeqBusy;
  }

  /** Nothing refers to a JFC that is not busy: no publication pending or in flight, no event, no timer. */
  lemma JfcUnused(s: Engine, id: u32)
    requires Safe(s) && !JfcBusy(s, id)
    ensures forall r :: !UsesContext(s.q.pubs, id, r)
    ensures forall i :: 0 <= i < |s.ev.queue| ==> s.ev.queue[i].jfc != id
    ensures s.ev.active.Some? ==> s.ev.active.value.event.jfc != id
    ensures !TimerBusy(s, id)
  {
    if id in s.q.pubs {
      assert Counted(s.config.pipelined, s.q.pubs[id]);
      assert |s.q.pubs[id].flights| == 0;
    }
  }

  lemma JfcRemoved(s: Engine, id: u32)
    requires Safe(s) && !JfcBusy(s, id)
    ensures Safe(RemoveJfc(s, id))
  {
    JfcUnused(s, id);
    var jfcs' := s.q.jfcs - {id};
    assert Contexts(s.config.pipelined, s.q.pubs, jfcs') by {
      hide Writes;
      forall x | x in jfcs'
        ensures jfcs'[x].writing == Writes(s.config.pipelined, s.q.pubs, x) && JfcOk(jfcs'[x])
      {
        assert s.q.jfcs[x].writing == Writes(s.config.pipelined, s.q.pubs, x) && JfcOk(s.q.jfcs[x]);
      }
    }
    assert Alive(s.q.pubs, jfcs') by {
      hide PubOwn, EventOwn, Numbered, Counts, Contexts, UsesContext, JfcBusy;
    }
    assert EventsAlive(s.ev.queue, s.ev.active, jfcs');
    hide PubOwn, EventOwn, Slots, Numbered, Counts, Contexts, Alive, EventsAlive, Credits, ActiveKnown, JfcBusy;
  }

  lemma DestroyCeqSafe(s: Engine, id: u32)
    requires Safe(s) && s.cmd.ring.fetching > 0
    ensures Safe(DestroyCeq(s, id))
  {
    hide CeqBusy;
    if CeqBusy(s, id) {
      UntouchedSafe(s, DestroyCeq(s, id));
    } else {
      CeqRemoved(s, id);
      UntouchedSafe(s.(ev := s.ev.(ceqs := s.ev.ceqs - {id})), DestroyCeq(s, id));
    }
  }

  lemma DestroyJfcSafe(s: Engine, id: u32)
    requires Safe(s) && s.cmd.ring.fetching > 0
    ensures Safe(DestroyJfc(s, id))
  {
    hide JfcBusy;
    if JfcBusy(s, id) {
      UntouchedSafe(s, DestroyJfc(s, id));
    } else {
      JfcRemoved(s, id);
      UntouchedSafe(RemoveJfc(s, id), DestroyJfc(s, id));
    }
  }

  lemma CheckCeqSafe(s: Engine)
    requires Safe(s) && s.debt.checksCeq > 0
    ensures Safe(CheckCeq(s))
  {
    hide CeqBusy;
    if s.cmd.parkedCeq.None? || CeqBusy(s, s.cmd.parkedCeq.value) {
      UntouchedSafe(s, CheckCeq(s));
    } else {
      CeqRemoved(s, s.cmd.parkedCeq.value);
      UntouchedSafe(s.(ev := s.ev.(ceqs := s.ev.ceqs - {s.cmd.parkedCeq.value})), CheckCeq(s));
    }
  }

  lemma CheckJfcSafe(s: Engine)
    requires Safe(s) && s.debt.checksJfc > 0
    ensures Safe(CheckJfc(s))
  {
    hide JfcBusy;
    if s.cmd.parkedJfc.None? || JfcBusy(s, s.cmd.parkedJfc.value) {
      UntouchedSafe(s, CheckJfc(s));
    } else {
      JfcRemoved(s, s.cmd.parkedJfc.value);
      UntouchedSafe(RemoveJfc(s, s.cmd.parkedJfc.value), CheckJfc(s));
    }
  }

  lemma BeginSafe(s: Engine, l: Load)
    requires Safe(s) && s.cmd.ring.fetching > 0
    ensures Safe(Begin(s, l))
  {
    hide CeqBusy;
    UntouchedSafe(s, Begin(s, l));
  }

  lemma LoadCeqSafe(s: Engine, ok: bool, shift: nat)
    requires Safe(s) && s.cmd.load.Some? && s.cmd.load.value.NewCeq?
    ensures Safe(LoadCeq(s, ok, shift))
  {
    var id := s.cmd.load.value.id;
    if !ok || id > 255 || shift >= 18 {
      UntouchedSafe(s, LoadCeq(s, ok, shift));
    } else {
      var c := Ceq(CeqDepth(shift), 0, 0, None, false);
      CreditsAt(s.ev.ceqs, s.ev.active, s.ev.active, id, c);
      hide PubOwn, EventOwn, Slots, Numbered, Counts, Contexts, Alive, EventsAlive, Credits;
    }
  }

  /** Every step of the command queue ends one callback and starts at most one, and the flag follows. */
  lemma RingSafe(s: Engine, x: Step)
    requires Safe(s) && Ready(s.cmd.ring, x)
    ensures Safe(WithRing(s, RingStep(s.cmd.ring, x)))
  {
    assert OneCommand(s.cmd, s.q.jfcs);
    hide Safe;
    assert OneCommand(s.cmd.(ring := RingStep(s.cmd.ring, x)), s.q.jfcs);
    hide OneCommand, RingStep;
    UntouchedSafe(s, WithRing(s, RingStep(s.cmd.ring, x)));
  }

  /** A context changes in a way that is not about its writes in flight. */
  lemma ContextChanged(s: Engine, t: Engine, id: u32, j: Jfc)
    requires Safe(s) && t.config == s.config && t.pool == s.pool && t.ev == s.ev && t.q.pubs == s.q.pubs
    requires t.q.jfcs == s.q.jfcs[id := j] && t.q.jfcs.Keys == t.q.ceqOf.Keys && OneCommand(t.cmd, t.q.jfcs)
    requires JfcOk(j) && j.writing == Writes(s.config.pipelined, s.q.pubs, id)
    ensures Safe(t)
  {
    assert Contexts(s.config.pipelined, s.q.pubs, t.q.jfcs) by {
      hide Writes, JfcOk, PubOwn, EventOwn, Numbered, Counts, Alive;
      forall x | x in t.q.jfcs
        ensures t.q.jfcs[x].writing == Writes(s.config.pipelined, s.q.pubs, x) && JfcOk(t.q.jfcs[x])
      {
        assert x != id ==> s.q.jfcs[x].writing == Writes(s.config.pipelined, s.q.pubs, x) && JfcOk(s.q.jfcs[x]);
      }
    }
    assert Alive(s.q.pubs, t.q.jfcs);
    assert EventsAlive(s.ev.queue, s.ev.active, t.q.jfcs);
    hide PubOwn, EventOwn, Slots, Numbered, Counts, Contexts, Alive, EventsAlive, Credits, ActiveKnown, OneCommand;
  }

  lemma NoWritesWithoutContext(s: Engine, id: u32)
    requires Safe(s) && id !in s.q.jfcs
    ensures Writes(s.config.pipelined, s.q.pubs, id) == 0
  {
    if id in s.q.pubs {
      forall r
        ensures r !in WritingOf(s.q.pubs[id])
      {
        assert !UsesContext(s.q.pubs, id, r);
      }
      assert WritingOf(s.q.pubs[id]) == {};
    }
  }

  lemma LoadJfcSafe(s: Engine, ok: bool, shift: nat, ceq: u32, moderation: nat, period: nat)
    requires Safe(s) && s.cmd.load.Some? && s.cmd.load.value.NewJfc? && shift < 16
    ensures Safe(LoadJfc(s, ok, shift, ceq, moderation, period))
  {
    var id, t := s.cmd.load.value.id, LoadJfc(s, ok, shift, ceq, moderation, period);
    if !ok {
      UntouchedSafe(s, t);
    } else {
      NoWritesWithoutContext(s, id);
      assert t.q.jfcs.Keys == t.q.ceqOf.Keys;
      assert OneCommand(t.cmd, t.q.jfcs);
      hide Safe, Writes;
      ContextChanged(s, t, id, t.q.jfcs[id]);
    }
  }

  lemma QueriedSafe(s: Engine, ok: bool, value: u32)
    requires Safe(s) && s.cmd.load.Some? && s.cmd.load.value.Query?
    ensures Safe(Queried(s, ok, value))
  {
    var id, t := s.cmd.load.value.id, Queried(s, ok, value);
    if !ok || id !in s.q.jfcs {
      UntouchedSafe(s, t);
    } else {
      ContextOf(s, id);
      assert t.q.jfcs.Keys == t.q.ceqOf.Keys;
      hide Safe, Writes;
      ContextChanged(s, t, id, t.q.jfcs[id]);
    }
  }

  lemma LoadModifySafe(s: Engine, ok: bool, moderation: Option<nat>, period: Option<nat>)
    requires Safe(s) && s.cmd.load.Some? && s.cmd.load.value.Modify?
    ensures Safe(LoadModify(s, ok, moderation, period))
  {
    var id, t := s.cmd.load.value.id, LoadModify(s, ok, moderation, period);
    if !ok || id !in s.q.jfcs {
      UntouchedSafe(s, t);
    } else {
      ContextOf(s, id);
      assert t.q.jfcs.Keys == t.q.ceqOf.Keys;
      hide Safe, Writes;
      ContextChanged(s, t, id, t.q.jfcs[id]);
    }
  }

  // ------------------------------------------------------------------ every step, every run

  lemma FlightStepSafe(s: Engine, a: Action)
    requires Safe(s) && Enabled(s, a) && (a.AReadDone? || a.AWriteDone? || a.ARelease?)
    ensures Next(s, a).Some? && Safe(Next(s, a).value)
  {
    hide Safe, ReadDone, WriteDone, Release;
    if a.AReadDone? {
      ReadDoneSafe(s, a.id, a.r, a.ok, a.value);
    } else if a.AWriteDone? {
      WriteDoneSafe(s, a.id, a.r, a.ok);
    } else {
      ReleaseSafe(s, a.id, a.r);
    }
  }

  lemma PumpStepSafe(s: Engine, a: Action)
    requires Safe(s) && Enabled(s, a)
    requires a.APost? || a.AAdvance? || a.AScan? || a.AExpire? || a.AGather? || a.AEnter? || a.AAdmit? || a.AFree?
    ensures Next(s, a).Some? && Safe(Next(s, a).value)
  {
    hide Safe, Enqueue, Expire, Admit, Free, Kick, TimersOf;
    if a.APost? {
      if !Refused(s, a.id) {
        EnqueueSafe(s, a.id);
      }
    } else if a.AAdvance? {
      UntouchedSafe(s, s.(now := a.now)) by {
        SafeParts(s);
      }
      KickSafe(s.(now := a.now));
    } else if a.AExpire? {
      ExpireSafe(s);
    } else if a.AAdmit? {
      AdmitSafe(s);
    } else if a.AFree? {
      FreeSafe(s, a.r);
    } else {
      SafeParts(s);
      UntouchedSafe(s, Next(s, a).value);
    }
  }

  lemma EventStepSafe(s: Engine, a: Action)
    requires Safe(s) && Enabled(s, a)
    requires a.ADeliver? || a.AEventWritten? || a.AInterrupted? || a.AReturn? || a.AReport? || a.AArm?
    ensures Next(s, a).Some? && Safe(Next(s, a).value)
  {
    hide Safe, Deliver, EventWritten, Ended, Report;
    if a.ADeliver? {
      DeliverSafe(s);
    } else if a.AEventWritten? {
      EventWrittenSafe(s, a.ok);
    } else if a.AInterrupted? {
      InterruptedSafe(s);
    } else if a.AReport? {
      ReportSafe(s, a.id, a.report);
    } else {
      SafeParts(s);
      UntouchedSafe(s, Next(s, a).value);
    }
  }

  lemma CommandStepSafe(s: Engine, a: Action)
    requires Safe(s) && Enabled(s, a)
    requires a.ADestroyCeq? || a.ADestroyJfc? || a.ACheckCeq? || a.ACheckJfc? || a.ABegin?
             || a.ALoadCeq? || a.ALoadJfc? || a.AQueried? || a.AModify? || a.ARing? || a.AMailboxEvent?
    ensures Next(s, a).Some? && Safe(Next(s, a).value)
  {
    hide Safe, RingStep, DestroyCeq, DestroyJfc, CheckCeq, CheckJfc, Begin, LoadCeq, LoadJfc, Queried, LoadModify,
        CeqBusy,
        JfcBusy;
    match a
    case ADestroyCeq(id) => DestroyCeqSafe(s, id);
    case ADestroyJfc(id) => DestroyJfcSafe(s, id);
    case ACheckCeq => CheckCeqSafe(s);
    case ACheckJfc => CheckJfcSafe(s);
    case ABegin(l) => BeginSafe(s, l);
    case ALoadCeq(ok, shift) => LoadCeqSafe(s, ok, shift);
    case ALoadJfc(ok, shift, ceq, m, p) => LoadJfcSafe(s, ok, shift, ceq, m, p);
    case AQueried(ok, value) => QueriedSafe(s, ok, value);
    case AModify(ok, m, p) => LoadModifySafe(s, ok, m, p);
    case ARing(x) => RingSafe(s, x);
    case AMailboxEvent => UntouchedSafe(s, Next(s, a).value) by { SafeParts(s); }
  }

  /** No step of a safe state reads a missing entry or takes a counter below zero, and it leads to a safe state. */
  lemma StepSafe(s: Engine, a: Action)
    requires Safe(s) && Enabled(s, a)
    ensures Next(s, a).Some? && Safe(Next(s, a).value)
  {
    if a.AReadDone? || a.AWriteDone? || a.ARelease? {
      FlightStepSafe(s, a);
    } else if a.APost? || a.AAdvance? || a.AScan? || a.AExpire? || a.AGather? || a.AEnter? || a.AAdmit? || a.AFree? {
      PumpStepSafe(s, a);
    } else if a.ADeliver? || a.AEventWritten? || a.AInterrupted? || a.AReturn? || a.AReport? || a.AArm? {
      EventStepSafe(s, a);
    } else {
      CommandStepSafe(s, a);
    }
    hide Next, Enabled, Safe;
  }

  lemma ConfigKept(s: Engine, a: Action)
    requires Enabled(s, a) && Next(s, a).Some?
    ensures Next(s, a).value.config == s.config
  {
  }

  lemma BootSafe(config: Config)
    ensures Safe(Boot(config)) && Boot(config).config == config
  {
  }

  lemma {:induction false} RunSafe(config: Config, acts: seq<Action>)
    ensures !Run(config, acts).Thrown?
    ensures Run(config, acts).At? ==> Safe(Run(config, acts).s) && Run(config, acts).s.config == config
  {
    hide Next, Enabled, Safe, Boot;
    if acts == [] {
      BootSafe(config);
    } else {
      RunSafe(config, acts[..|acts| - 1]);
      var f := Run(config, acts[..|acts| - 1]);
      if f.At? && Enabled(f.s, acts[|acts| - 1]) {
        StepSafe(f.s, acts[|acts| - 1]);
        ConfigKept(f.s, acts[|acts| - 1]);
      }
    }
  }
}
