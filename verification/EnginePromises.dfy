/** What the engine promises to whatever waits in it, and the only steps that break a promise. */
module EnginePromises {
  import opened Engine
  import opened EngineDestroy
  import opened EngineEvents
  import opened EngineInv
  import opened EngineProof
  import opened EngineWake
  import opened Optional
  import opened Words

  /** `Admission`: the pump will come to the queue if it can be admitted.  `Progress`: at least if nothing of it is
      in flight.  `Delivery`: an event of the queue waits only for credit, or somebody will look.  `Destruction`: a
      parked destroy is for a busy resource, or somebody will look. */
  datatype Promise = Admission(jfc: u32) | Progress(jfc: u32) | Delivery(ceq: u32) | Destruction

  ghost predicate Stands(p: Promise, s: Engine) {
    match p
    case Admission(id) => Prompt(s, id)
    case Progress(id) => Driven(s, id)
    case Delivery(id) => Attended(s, id)
    case Destruction => Watched(s)
  }

  ghost predicate Breaks(p: Promise, s: Engine, a: Action) {
    match p
    case Admission(id) => Opens(s, a, id)
    case Progress(id) => OpensNew(s, a, id)
    case Delivery(id) => Unblocks(s, a, id)
    case Destruction => Strands(s, a)
  }

  /** A promise that stands is broken by a step if and only if it is one of those named. */
  lemma StepStands(s: Engine, a: Action, p: Promise)
    requires Safe(s) && Awake(s) && InOrder(s) && Enabled(s, a) && Stands(p, s)
    ensures Next(s, a).Some? && (Stands(p, Next(s, a).value) <==> !Breaks(p, s, a))
  {
    hide Safe, Awake, InOrder, Enabled, Next, Prompt, Driven, Attended, Watched, Opens, OpensNew, Unblocks, Strands;
    StepAwake(s, a);
    if p.Delivery? {
      StepAttends(s, a);
    } else if p.Destruction? {
      StepWatched(s, a);
    }
  }

  // ------------------------------------------------------------------ over runs

  ghost predicate BrokenAt(config: Config, acts: seq<Action>, n: nat, p: Promise) {
    n < |acts| && Run(config, acts[..n]).At?
    && var s := Run(config, acts[..n]).s;
       Stands(p, s) && Enabled(s, acts[n]) && Breaks(p, s, acts[n])
  }

  ghost predicate BrokenSince(config: Config, acts: seq<Action>, n: nat, p: Promise) {
    forall m {:trigger acts[..m]} :: n < m <= |acts| ==>
      Run(config, acts[..m]).At? && !Stands(p, Run(config, acts[..m]).s)
  }

  /** Some step broke the promise, and it has not been made good since. */
  ghost predicate Broken(config: Config, acts: seq<Action>, p: Promise) {
    exists n :: BrokenAt(config, acts, n, p) && BrokenSince(config, acts, n, p)
  }

  /** A promise does not stand exactly if one of the steps named broke it and it has not been made good since. */
  lemma StandsUnlessBroken(config: Config, acts: seq<Action>, p: Promise)
    requires Run(config, acts).At?
    ensures Stands(p, Run(config, acts).s) <==> !Broken(config, acts, p)
  {
    hide Run, Stands, Breaks;
    assert acts[..|acts|] == acts;
    if !Stands(p, Run(config, acts).s) {
      var n := LastBreak(config, acts, p);
    }
  }

  lemma {:induction false} LastBreak(config: Config, acts: seq<Action>, p: Promise) returns (n: nat)
    requires Run(config, acts).At? && !Stands(p, Run(config, acts).s)
    ensures BrokenAt(config, acts, n, p) && BrokenSince(config, acts, n, p)
  {
    hide Next, Enabled, Safe, Awake, InOrder, Stands, Breaks;
    assert acts != [] by {
      BootStands(config, p);
    }
    var before := acts[..|acts| - 1];
    var s := Run(config, before).s;
    RunAwake(config, before);
    RunInOrder(config, before);
    assert acts[..|acts|] == acts;
    if Stands(p, s) {
      n := |acts| - 1;
      StepStands(s, acts[n], p);
    } else {
      n := LastBreak(config, before, p);
      assert before[..n] == acts[..n];
      forall m | n < m <= |acts|
        ensures Run(config, acts[..m]).At? && !Stands(p, Run(config, acts[..m]).s)
      {
        if m < |acts| {
          assert before[..m] == acts[..m];
        }
      }
    }
  }

  lemma BootStands(config: Config, p: Promise)
    ensures Run(config, []) == At(Boot(config)) && Stands(p, Boot(config))
  {
  }
}
