/** The protocol of the runner, over every interleaving. */
module RunnerProofs {
  import opened IndexerData
  import opened Runner
  import opened RunnerSteps

  lemma {:induction false} RunKeepsInv(cap: nat, steps: seq<Step>)
    requires AllowedRun(cap, steps)
    ensures Inv(Run(cap, steps))
    decreases |steps|
  {
    hide Inv, Enabled, Next;
    if steps == [] {
      assert Inv(Run(cap, steps)) by { InitialInv(); }
    } else {
      RunKeepsInv(cap, steps[..|steps| - 1]);
      StepKeepsInv(cap, Run(cap, steps[..|steps| - 1]), steps[|steps| - 1]);
    }
  }

  lemma InitialInv()
    ensures Inv(Initial())
  {}

  /** Every call, the first one for an item or a repeated one, carries the item at its place in the queue. */
  predicate CallsCarryItems(s: State)
  {
    forall e :: e in s.log && e.Call? ==>
      e.gen < |s.gens| && e.k < |s.gens[e.gen].put| && e.item == s.gens[e.gen].put[e.k]
  }

  lemma StepCarriesItems(cap: nat, s: State, step: Step)
    requires Structure(s) && CallsCarryItems(s) && Enabled(cap, s, step)
    ensures CallsCarryItems(Next(cap, s, step))
  {
    var t := Next(cap, s, step);
    assert forall g :: 0 <= g < |s.gens| ==> s.gens[g].put <= t.gens[g].put;
    forall e | e in t.log && e.Call?
      ensures e.gen < |t.gens| && e.k < |t.gens[e.gen].put| && e.item == t.gens[e.gen].put[e.k]
    {
      if e in s.log {
        assert s.gens[e.gen].put <= t.gens[e.gen].put;
      }
    }
  }

  lemma {:induction false} RunCarriesItems(cap: nat, steps: seq<Step>)
    requires AllowedRun(cap, steps)
    ensures CallsCarryItems(Run(cap, steps))
    decreases |steps|
  {
    hide Inv, Enabled, Next, CallsCarryItems;
    if steps == [] {
      assert CallsCarryItems(Initial()) by { NoCalls(); }
    } else {
      var s := Run(cap, steps[..|steps| - 1]);
      RunCarriesItems(cap, steps[..|steps| - 1]);
      RunKeepsInv(cap, steps[..|steps| - 1]);
      assert Structure(s) by { InvStructure(s); }
      StepCarriesItems(cap, s, steps[|steps| - 1]);
    }
  }

  lemma NoCalls()
    ensures CallsCarryItems(Initial())
  {}

  lemma InvStructure(s: State)
    requires Inv(s)
    ensures Structure(s)
  {
    hide Structure, Trace;
  }

  /** In every interleaving: at most one main loop is live; no loop is inside the handler while the handler's Reset
      runs; handler calls never overlap, items are handled one by one with only the current one retried, and nothing of
      a generation is handled after the next Reset entered the handler; what a generation handled is a prefix of what
      was put into its queue, and every call, also a repeated one, carries the item at its place in that queue. */
  lemma RunnerProtocol(cap: nat, steps: seq<Step>)
    requires AllowedRun(cap, steps)
    ensures var s := Run(cap, steps);
            && (forall g, h :: 0 <= g < |s.loops| && 0 <= h < |s.loops| ==>
                  !s.loops[g].Exited? && !s.loops[h].Exited? ==> g == h)
            && (s.resetter.InHandler? ==> forall g :: 0 <= g < |s.loops| ==> s.loops[g].Exited?)
            && LegalLog(s.log)
            && (forall g :: 0 <= g < |s.gens| ==> Handled(s.log, g) <= s.gens[g].put)
            && (forall e :: e in s.log && e.Call? ==>
                  e.gen < |s.gens| && e.k < |s.gens[e.gen].put| && e.item == s.gens[e.gen].put[e.k])
  {
    hide Run, AllowedRun, LegalLog, Handled;
    RunKeepsInv(cap, steps);
    RunCarriesItems(cap, steps);
    var s := Run(cap, steps);
    forall g | 0 <= g < |s.loops| && !s.loops[g].Exited? ensures g == Current(s) && !s.resetter.InHandler? {
      LiveIsCurrent(s, g);
    }
  }

  /** Legal logs, read once more: an item handled after a Reset entered the handler belongs to a later generation. */
  lemma {:induction false} NothingOldAfterReset(log: seq<Entry>, i: nat, j: nat)
    requires LegalLog(log) && i < j < |log| && log[i].ResetCall? && log[j].Call?
    ensures log[j].gen > log[i].gen
    decreases |log|
  {
    var front := log[..|log| - 1];
    if j < |log| - 1 {
      NothingOldAfterReset(front, i, j);
    } else {
      assert front[i] in front;
    }
  }

  /** Between entering and leaving the handler nothing else enters or leaves it. */
  lemma {:induction false} CallsDoNotOverlap(log: seq<Entry>, i: nat)
    requires LegalLog(log) && i + 1 < |log|
    ensures log[i].Call? ==> log[i + 1].Returned? && log[i + 1].gen == log[i].gen && log[i + 1].k == log[i].k
    ensures log[i].ResetCall? ==> log[i + 1].ResetReturned? && log[i + 1].gen == log[i].gen
    decreases |log|
  {
    var front := log[..|log| - 1];
    if i + 1 < |log| - 1 {
      CallsDoNotOverlap(front, i);
    } else {
      assert front[|front| - 1] == log[i];
    }
  }

  /** No channel is closed twice: a Reset that may start finds `stopLoopCh` open, and a loop that leaves finds its
      `loopFinishedCh` open. */
  lemma NoChannelClosedTwice(cap: nat, steps: seq<Step>, step: Step)
    requires AllowedRun(cap, steps) && Enabled(cap, Run(cap, steps), step)
    ensures var s := Run(cap, steps);
            && (step.ResetStart? ==> !s.gens[Current(s)].stopped)
            && (step.LoopStop? || step.Report? || step.RetryStop? ==> !s.gens[s.loops[step.loop].gen].finished)
  {
    hide Run, AllowedRun, Trace;
    RunKeepsInv(cap, steps);
    var s := Run(cap, steps);
    if step.LoopStop? || step.Report? || step.RetryStop? {
      LiveIsCurrent(s, step.loop);
      assert LoopOk(s, step.loop);
    }
  }

  /** While a Reset waits, the loop it waits for can leave at once, unless it is inside the handler, still has to start,
      or is blocked on a full error channel. */
  lemma StopIsHeeded(cap: nat, steps: seq<Step>, g: nat)
    requires AllowedRun(cap, steps) && Run(cap, steps).resetter.Stopping?
    requires g < |Run(cap, steps).loops|
    ensures var s := Run(cap, steps);
            match s.loops[g]
            case Exited => g == Current(s) ==> Enabled(cap, s, ResetProceed)
            case NotStarted => Enabled(cap, s, LoopStart(g))
            case Selecting(_) => Enabled(cap, s, LoopStop(g))
            case Delaying(_, _) => Enabled(cap, s, RetryStop(g))
            case Reporting(_, _) => Enabled(cap, s, Report(g)) <==> s.errors < 1
            case Handling(_, _) => true
  {
    hide Run, AllowedRun, Trace;
    RunKeepsInv(cap, steps);
    var s := Run(cap, steps);
    assert LoopOk(s, g);
    if !s.loops[g].Exited? {
      LiveIsCurrent(s, g);
    }
  }
}
