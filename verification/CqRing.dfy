/** One completion ring between the device and the guest.

    The device reserves ring positions and writes completions into them; the guest polls the entry at its
    own index, takes it when the owner bit is the one of its lap, and reports its index through a record
    in memory that the device reads now and then.  The guest only ever uses 22-bit indices.  Writes reach
    memory in any order, and a failed write does not reach it.  The record holds any index the guest has
    passed, never decreasing, and a read returns what it held at some time between issue and return. */
module CqRing {
  import opened Cq
  import opened Optional
  import opened Words

  /** `Blank` is memory as the guest prepared it: its owner bit is clear. */
  datatype Cell = Blank | Entry(index: nat, owner: bool, ticket: nat)

  /** A read of the guest's record: what the record and the producer were when it was issued. */
  datatype Read = Read(posted: nat, producer: nat)

  datatype Write = Write(ticket: nat, landed: bool)

  /** `known` is the index whose residue the device caches; `taken` lists the publications in the order of
      the positions they hold; `received` what the guest took. */
  datatype Ring = Ring(
    pipelined: bool, j: Jfc, known: nat,
    admitted: nat, inFlight: nat, reading: map<nat, Read>, writes: map<nat, Write>, query: Option<Read>,
    taken: seq<nat>, memory: seq<Cell>, next: nat, posted: nat, received: seq<Cell>)

  datatype Action =
    | Admit
    | ReadDone(ticket: nat, ok: bool, sample: nat)
    | Land(index: nat)
    | WriteDone(index: nat, ok: bool)
    | Release
    | Query
    | QueryDone(ok: bool, sample: nat)
    | Poll
    | Post(index: nat)

  function Slot(n: nat, depth: Depth): (k: nat)
    ensures k < depth
  {
    n % depth
  }

  /** The owner bit of position `n`: set in even laps. */
  function Owner(n: nat, depth: Depth): bool { (n / depth) % 2 == 0 }

  function OwnerOf(c: Cell): bool { c.Entry? && c.owner }

  /** What the guest looks at: it keeps its index in 22 bits. */
  function Polled(s: Ring): Cell
    requires |s.memory| == s.j.depth
  {
    s.memory[Slot(Masked(s.next), s.j.depth)]
  }

  predicate Accepts(s: Ring)
    requires |s.memory| == s.j.depth
  {
    OwnerOf(Polled(s)) == Owner(Masked(s.next), s.j.depth)
  }

  /** The publication takes the next position of the ring and its write starts. */
  function Publish(s: Ring, ticket: nat, index: nat): Ring {
    s.(j := Taken(s.j, Masked(index), s.pipelined), known := index,
       writes := s.writes[s.j.producer := Write(ticket, false)], taken := s.taken + [ticket])
  }

  /** One round of the admission loop: the oldest pending publication is issued. */
  function AdmitOne(s: Ring): Ring {
    var t := s.(admitted := s.admitted + 1, inFlight := s.inFlight + 1);
    if s.pipelined && Held(s.j) < s.j.depth then Publish(t, s.admitted, s.known)
    else t.(reading := s.reading[s.admitted := Read(s.posted, s.j.producer)])
  }

  function Refreshed(s: Ring, ticket: nat, ok: bool, sample: nat): Ring {
    var t := s.(reading := s.reading - {ticket});
    if !ok || NoRoom(s.j, Masked(sample)) then t else Publish(t, ticket, sample)
  }

  function Written(s: Ring, index: nat, ok: bool): Ring
    requires s.pipelined || |s.taken| > 0
  {
    var t := s.(writes := s.writes - {index});
    if s.pipelined then t
    else if ok then t.(j := s.j.(producer := s.j.producer + 1))
    else t.(taken := s.taken[..|s.taken| - 1])
  }

  /** A read returns before the producer has gone once around the index space. */
  predicate Timely(s: Ring, r: Read) { s.j.producer - r.producer < INDEX - s.j.depth }

  predicate Returns(s: Ring, r: Read, sample: nat) { r.posted <= sample <= s.posted }

  predicate Enabled(s: Ring, a: Action)
    requires |s.memory| == s.j.depth
  {
    match a
    case Admit =>
      if s.pipelined then Held(s.j) < s.j.depth || s.inFlight == 0 else s.inFlight == 0
    case ReadDone(ticket, _, sample) => ticket in s.reading && Returns(s, s.reading[ticket], sample)
    case Land(index) => index in s.writes && !s.writes[index].landed
    case WriteDone(index, ok) => index in s.writes && s.writes[index].landed == ok && (s.pipelined || |s.taken| > 0)
    case Release => s.inFlight > |s.reading| + |s.writes|
    case Query => s.query.None?
    case QueryDone(_, sample) => s.query.Some? && Returns(s, s.query.value, sample)
    case Poll => Accepts(s)
    case Post(index) => s.posted <= index <= s.next
  }

  function Next(s: Ring, a: Action): (t: Ring)
    requires |s.memory| == s.j.depth && Enabled(s, a)
    ensures |t.memory| == t.j.depth
  {
    match a
    case Admit => AdmitOne(s)
    case ReadDone(ticket, ok, sample) => Refreshed(s, ticket, ok, sample)
    case Land(index) =>
      var w := s.writes[index];
      s.(writes := s.writes[index := w.(landed := true)],
         memory := s.memory[Slot(index, s.j.depth) := Entry(index, Owner(index, s.j.depth), w.ticket)])
    case WriteDone(index, ok) => Written(s, index, ok)
    case Release => s.(inFlight := s.inFlight - 1)
    case Query => s.(query := Some(Read(s.posted, s.j.producer)))
    case QueryDone(ok, sample) =>
      if ok then s.(query := None, j := s.j.(consumer := Masked(sample)), known := sample) else s.(query := None)
    case Poll => s.(next := s.next + 1, received := s.received + [Polled(s)])
    case Post(index) => s.(posted := index)
  }

  /** Not a rule but a hypothesis about the run, see `Timely`. */
  predicate Prompt(s: Ring, a: Action)
    requires |s.memory| == s.j.depth && Enabled(s, a)
  {
    match a
    case ReadDone(ticket, _, _) => Timely(s, s.reading[ticket])
    case QueryDone(_, _) => Timely(s, s.query.value)
    case _ => true
  }

  function Created(pipelined: bool, shift: nat): Ring
    requires shift < 16
  {
    var j := Jfc(JfcDepth(shift), 0, 0, 1, 0, 0, 0, 0);
    Ring(pipelined, j, 0, 0, 0, map[], map[], None, [], seq(j.depth, i => Blank), 0, 0, [])
  }

  /** The state after a run that keeps to the rules and to `Prompt`. */
  function Run(pipelined: bool, shift: nat, acts: seq<Action>): (s: Option<Ring>)
    requires shift < 16
    ensures s.Some? ==> |s.value.memory| == s.value.j.depth
  {
    if acts == [] then Some(Created(pipelined, shift))
    else
      var s := Run(pipelined, shift, acts[..|acts| - 1]);
      var a := acts[|acts| - 1];
      if s.None? || !Enabled(s.value, a) || !Prompt(s.value, a) then None else Some(Next(s.value, a))
  }
}
