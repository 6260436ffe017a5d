/** What becomes of the items and errors of the runner, over every interleaving: everything that is put arrives, every
    fatal error is reported once, and Close and the results of handler calls have the effect they should. All of it is
    said of the steps taken, not of the fields they leave behind. */
module RunnerItems {
  import opened Wrappers
  import opened IndexerData
  import opened Runner
  import opened RunnerSteps
  import opened RunnerProofs

  // ---------- what was put ----------

  /** How many Resets have put new channels in place. */
  function Recreated(steps: seq<Step>): nat
  {
    if steps == [] then 0
    else Recreated(steps[..|steps| - 1]) + if steps[|steps| - 1].ResetRecreate? then 1 else 0
  }

  /** The latest call of a producer: the generation whose channels it read on entry, and its item. */
  function LatestCall(steps: seq<Step>, id: nat): Option<(nat, Item)>
  {
    if steps == [] then None
    else
      var front, last := steps[..|steps| - 1], steps[|steps| - 1];
      if last.Produce? && last.id == id then Some((Recreated(front), last.item)) else LatestCall(front, id)
  }

  /** A producer's call has begun and neither got through nor given up. */
  predicate Waits(steps: seq<Step>, id: nat)
  {
    steps != [] &&
    match steps[|steps| - 1]
    case Produce(p, _) => p == id || Waits(steps[..|steps| - 1], id)
    case Put(p) => p != id && Waits(steps[..|steps| - 1], id)
    case HandOver(p) => p != id && Waits(steps[..|steps| - 1], id)
    case GiveUp(p) => p != id && Waits(steps[..|steps| - 1], id)
    case _ => Waits(steps[..|steps| - 1], id)
  }

  /** The items of the calls that got through to a generation, in the order they did. */
  function Arrived(steps: seq<Step>, g: nat): seq<Item>
  {
    if steps == [] then []
    else
      var front, last := steps[..|steps| - 1], steps[|steps| - 1];
      if last.Put? || last.HandOver? then
        match LatestCall(front, last.id)
        case Some((gen, item)) => if gen == g then Arrived(front, g) + [item] else Arrived(front, g)
        case None => Arrived(front, g)
      else Arrived(front, g)
  }

  ghost predicate Accounted(s: State, steps: seq<Step>)
  {
    && |s.gens| == 1 + Recreated(steps)
    && (forall id :: id in s.producers <==> Waits(steps, id))
    && (forall id :: id in s.producers ==> LatestCall(steps, id) == Some(s.producers[id]))
    && (forall g :: 0 <= g < |s.gens| ==> s.gens[g].put == Arrived(steps, g))
  }

  lemma {:induction false} NothingArrivedYet(steps: seq<Step>, g: nat)
    requires g > Recreated(steps)
    ensures Arrived(steps, g) == [] && forall id :: LatestCall(steps, id).Some? ==> LatestCall(steps, id).value.0 < g
    decreases |steps|
  {
    if steps != [] {
      NothingArrivedYet(steps[..|steps| - 1], g);
    }
  }

  /** A step puts at most the item of one producer into its queue, and starts or ends at most one call. */
  lemma StepMovesItems(cap: nat, s: State, step: Step)
    requires Enabled(cap, s, step)
    ensures var t := Next(cap, s, step);
            && |t.gens| == |s.gens| + (if step.ResetRecreate? then 1 else 0)
            && (step.ResetRecreate? ==> t.gens[|s.gens|].put == [])
            && (forall g :: 0 <= g < |s.gens| ==>
                  t.gens[g].put == s.gens[g].put + if (step.Put? || step.HandOver?) && s.producers[step.id].0 == g
                                                   then [s.producers[step.id].1] else [])
            && (step.Produce? ==> t.producers == s.producers[step.id := (Current(s), step.item)])
            && (!step.Produce? ==> forall id :: id in t.producers ==>
                                     id in s.producers && t.producers[id] == s.producers[id])
            && (!step.Produce? ==> forall id :: id in s.producers && id !in t.producers <==>
                                     (step.Put? || step.HandOver? || step.GiveUp?) && step.id == id)
  {}

  lemma StepAccounts(cap: nat, s: State, steps: seq<Step>, step: Step)
    requires Structure(s) && Accounted(s, steps) && Enabled(cap, s, step)
    ensures Accounted(Next(cap, s, step), steps + [step])
  {
    StepMovesItems(cap, s, step);
    var t, all := Next(cap, s, step), steps + [step];
    assert step.Put? || step.HandOver? ==> step.id in s.producers;
    hide Structure, Enabled, Next;
    assert all[..|all| - 1] == steps;
    if step.ResetRecreate? {
      NothingArrivedYet(steps, |s.gens|);
    }
    forall id
      ensures id in t.producers <==> Waits(all, id)
      ensures id in t.producers ==> LatestCall(all, id) == Some(t.producers[id])
    {
      hide Arrived;
      OneStepMore(steps, step, id);
    }
    hide Waits, LatestCall;
    forall g | 0 <= g < |t.gens| ensures t.gens[g].put == Arrived(all, g) {
      if g < |s.gens| {
        assert s.gens[g].put == Arrived(steps, g);
      }
    }
  }

  lemma OneStepMore(steps: seq<Step>, step: Step, id: nat)
    ensures Waits(steps + [step], id) <==>
            (step.Produce? && step.id == id)
            || (Waits(steps, id) && !((step.Put? || step.HandOver? || step.GiveUp?) && step.id == id))
    ensures LatestCall(steps + [step], id) ==
            if step.Produce? && step.id == id then Some((Recreated(steps), step.item)) else LatestCall(steps, id)
  {
    assert (steps + [step])[..|steps|] == steps;
  }

  /** Every item that gets through is in the queue of the generation its producer read, in order, and nothing else
      is; producers wait with the item and the generation of their call. */
  lemma {:induction false} ItemsArrive(cap: nat, steps: seq<Step>)
    requires AllowedRun(cap, steps)
    ensures Accounted(Run(cap, steps), steps)
    decreases |steps|
  {
    hide Inv, Enabled, Next, Accounted;
    if steps == [] {
      assert Accounted(Initial(), steps) by { NothingAccounted(); }
    } else {
      var front := steps[..|steps| - 1];
      ItemsArrive(cap, front);
      RunKeepsInv(cap, front);
      InvStructure(Run(cap, front));
      StepAccounts(cap, Run(cap, front), front, steps[|steps| - 1]);
      assert front + [steps[|steps| - 1]] == steps;
    }
  }

  lemma NothingAccounted()
    ensures Accounted(Initial(), [])
  {}

  /** A waiting producer can always go on, unless the queue is full, no loop waits at an empty one, and neither Close
      nor Reset was called. */
  lemma ProducerGoesOn(cap: nat, steps: seq<Step>, id: nat)
    requires AllowedRun(cap, steps) && id in Run(cap, steps).producers
    ensures var s := Run(cap, steps);
            var g := s.producers[id].0;
            g < |s.gens| &&
            var waiting := |s.gens[g].put| - s.gens[g].taken;
            && (Enabled(cap, s, Put(id)) <==> waiting < cap)
            && (Enabled(cap, s, HandOver(id)) <==> waiting == 0 && g < |s.loops| && s.loops[g].Selecting?)
            && (Enabled(cap, s, GiveUp(id)) <== Close in steps || g < |s.gens| - 1)
  {
    hide Run, AllowedRun, Trace;
    RunKeepsInv(cap, steps);
    ClosedByClose(cap, steps);
    var s := Run(cap, steps);
    var g := s.producers[id].0;
    assert g < |s.loops| ==> LoopOk(s, g);
  }

  // ---------- Close and Reset ----------

  /** The runner is closed exactly when Close was called. */
  lemma {:induction false} ClosedByClose(cap: nat, steps: seq<Step>)
    requires AllowedRun(cap, steps)
    ensures Run(cap, steps).closed <==> Close in steps
    decreases |steps|
  {
    hide Enabled;
    if steps != [] {
      ClosedByClose(cap, steps[..|steps| - 1]);
      assert steps == steps[..|steps| - 1] + [steps[|steps| - 1]];
    }
  }

  /** How many times Reset was called. */
  function ResetCalls(steps: seq<Step>): nat
  {
    if steps == [] then 0
    else ResetCalls(steps[..|steps| - 1]) + if steps[|steps| - 1].ResetStart? then 1 else 0
  }

  /** Every call of Reset stops the generation that is current then. */
  predicate StoppedByReset(s: State, resets: nat)
  {
    forall g :: 0 <= g < |s.gens| ==> (s.gens[g].stopped <==> g < resets)
  }

  lemma {:induction false} ResetStops(cap: nat, steps: seq<Step>)
    requires AllowedRun(cap, steps)
    ensures StoppedByReset(Run(cap, steps), ResetCalls(steps))
    ensures ResetCalls(steps) <= |Run(cap, steps).gens|
    decreases |steps|
  {
    hide Inv, StoppedByReset, Enabled, Next;
    if steps == [] {
      InitiallyOpen();
    } else {
      var front := steps[..|steps| - 1];
      ResetStops(cap, front);
      RunKeepsInv(cap, front);
      InvStructure(Run(cap, front));
      StepStops(cap, Run(cap, front), steps[|steps| - 1], ResetCalls(front));
    }
  }

  lemma InitiallyOpen()
    ensures StoppedByReset(Initial(), 0)
  {}

  lemma StepStops(cap: nat, s: State, step: Step, resets: nat)
    requires Structure(s) && Enabled(cap, s, step) && StoppedByReset(s, resets) && resets <= |s.gens|
    ensures var more := resets + if step.ResetStart? then 1 else 0;
            StoppedByReset(Next(cap, s, step), more) && more <= |Next(cap, s, step).gens|
  {
    CurrentStopped(s, resets);
    hide Structure;
    var t := Next(cap, s, step);
    if step.ResetStart? {
      assert t.gens == s.gens[|s.gens| - 1 := s.gens[|s.gens| - 1].(stopped := true)];
    } else if step.ResetRecreate? {
      assert t.gens == s.gens + [Generation([], 0, false, false)];
    } else {
      assert |t.gens| == |s.gens| && forall g :: 0 <= g < |s.gens| ==> t.gens[g].stopped == s.gens[g].stopped;
    }
  }

  lemma CurrentStopped(s: State, resets: nat)
    requires Structure(s) && StoppedByReset(s, resets) && resets <= |s.gens|
    ensures s.gens != [] && |s.gens| - 1 <= resets
    ensures s.resetter.NoReset? ==> resets == |s.gens| - 1
    ensures s.resetter.Recreating? ==> resets == |s.gens|
  {
    hide LoopOk;
    assert |s.gens| > 1 ==> s.gens[|s.gens| - 2].stopped;
  }

  /** A waiting producer gives up, and a waiting loop leaves, exactly when Close was called or its generation was
      reset; a Reset that waits returns without finishing exactly after Close. */
  lemma LeavesWhenTold(cap: nat, steps: seq<Step>)
    requires AllowedRun(cap, steps)
    ensures var s := Run(cap, steps);
            && (forall id :: id in s.producers ==>
                  (Enabled(cap, s, GiveUp(id)) <==> Close in steps || s.producers[id].0 < ResetCalls(steps)))
            && (forall i :: 0 <= i < |s.loops| && s.loops[i].Selecting? ==>
                  (Enabled(cap, s, LoopStop(i)) <==> Close in steps || i < ResetCalls(steps)))
            && (forall i :: 0 <= i < |s.loops| && s.loops[i].Delaying? ==>
                  (Enabled(cap, s, RetryStop(i)) <==> Close in steps || i < ResetCalls(steps)))
            && (s.resetter.Stopping? ==> (Enabled(cap, s, ResetAbort) <==> Close in steps))
  {
    hide Run, AllowedRun, Trace;
    RunKeepsInv(cap, steps);
    ClosedByClose(cap, steps);
    ResetStops(cap, steps);
    var s := Run(cap, steps);
    forall i | 0 <= i < |s.loops|
      ensures s.loops[i].Selecting? ==> (Enabled(cap, s, LoopStop(i)) <==> Close in steps || i < ResetCalls(steps))
      ensures s.loops[i].Delaying? ==> (Enabled(cap, s, RetryStop(i)) <==> Close in steps || i < ResetCalls(steps))
    {
      assert LoopOk(s, i);
    }
  }

  /** New channels are made only after the handler's Reset has succeeded for the generation before. */
  ghost predicate ResetsSucceeded(s: State)
  {
    && (forall g :: 0 <= g < |s.gens| - 1 ==> ResetReturned(g, true) in s.log)
    && (s.resetter.Recreating? && s.gens != [] ==> ResetReturned(|s.gens| - 1, true) in s.log)
  }

  lemma {:induction false} ResetBeforeRecreation(cap: nat, steps: seq<Step>)
    requires AllowedRun(cap, steps)
    ensures ResetsSucceeded(Run(cap, steps))
    decreases |steps|
  {
    hide Inv;
    if steps != [] {
      var front := steps[..|steps| - 1];
      ResetBeforeRecreation(cap, front);
      RunKeepsInv(cap, front);
      InvStructure(Run(cap, front));
      ResetsStillSucceeded(cap, Run(cap, front), steps[|steps| - 1]);
    }
  }

  lemma ResetsStillSucceeded(cap: nat, s: State, step: Step)
    requires Structure(s) && ResetsSucceeded(s) && Enabled(cap, s, step)
    ensures ResetsSucceeded(Next(cap, s, step))
  {
    var t := Next(cap, s, step);
    forall g | 0 <= g < |t.gens| - 1 ensures ResetReturned(g, true) in t.log {
      assert g < |s.gens| - 1 ==> ResetReturned(g, true) in s.log;
    }
  }

  function Spawns(steps: seq<Step>): nat
  {
    if steps == [] then 0 else Spawns(steps[..|steps| - 1]) + if steps[|steps| - 1].ResetSpawn? then 1 else 0
  }

  /** Reset can be called exactly when every call before has run to its end. */
  lemma {:induction false} ResetAgain(cap: nat, steps: seq<Step>)
    requires AllowedRun(cap, steps)
    ensures var s := Run(cap, steps);
            && (Enabled(cap, s, ResetStart) <==> ResetCalls(steps) == Spawns(steps))
            && ResetCalls(steps) == Spawns(steps) + if s.resetter.NoReset? then 0 else 1
    decreases |steps|
  {
    hide Inv, Trace, LoopOk;
    RunKeepsInv(cap, steps);
    InvStructure(Run(cap, steps));
    if steps != [] {
      ResetAgain(cap, steps[..|steps| - 1]);
      hide Structure;
      StepOfReset(cap, Run(cap, steps[..|steps| - 1]), steps[|steps| - 1]);
    }
  }

  lemma StepOfReset(cap: nat, s: State, step: Step)
    requires Enabled(cap, s, step)
    ensures step.ResetStart? ==> s.resetter.NoReset?
    ensures Next(cap, s, step).resetter.NoReset? <==> step.ResetSpawn? || (s.resetter.NoReset? && !step.ResetStart?)
    ensures step.ResetSpawn? ==> !s.resetter.NoReset?
  {}

  /** What follows the handler's Reset: after a success new channels are made, then a loop is launched, and it starts on
      these channels; after an error nothing of this. */
  lemma ResetFinishes(cap: nat, steps: seq<Step>, ok: bool)
    requires AllowedRun(cap, steps) && Enabled(cap, Run(cap, steps), ResetHandlerReturn(ok))
    ensures var t := Next(cap, Run(cap, steps), ResetHandlerReturn(ok));
            && (Enabled(cap, t, ResetRecreate) <==> ok)
            && (ok ==>
                  var u := Next(cap, t, ResetRecreate);
                  && Enabled(cap, u, ResetSpawn)
                  && var v := Next(cap, u, ResetSpawn);
                     var last := |v.loops| - 1;
                     && last >= 0 && Enabled(cap, v, LoopStart(last))
                     && Next(cap, v, LoopStart(last)).loops[last] == Selecting(|t.gens|)
                     && v.gens == t.gens + [Generation([], 0, false, false)])
  {
    hide Run, AllowedRun;
  }

  // ---------- results ----------

  /** What the main loop can do after the handler returned: after a success or an error that is not retried it takes
      the next item; after a fatal error it only reports; after a retry error it only calls the handler again, with the
      same item. */
  lemma ResultDecides(cap: nat, steps: seq<Step>, i: nat, result: Runner.Result)
    requires AllowedRun(cap, steps) && Enabled(cap, Run(cap, steps), HandlerReturn(i, result))
    ensures var s := Run(cap, steps); var t := Next(cap, s, HandlerReturn(i, result));
            && i < |t.gens|
            && (Enabled(cap, t, LoopTake(i)) <==>
                  (result.Succeeded? || result.OtherError?) && |t.gens[i].put| > t.gens[i].taken)
            && (Enabled(cap, t, Report(i)) <==> result.FatalError? && t.errors < 1)
            && (Enabled(cap, t, Retry(i)) <==> result.RetryError?)
            && (result.RetryError? ==>
                  s.log != [] && s.log[|s.log| - 1].Call? && Next(cap, t, Retry(i)).log == t.log + [s.log[|s.log| - 1]])
  {
    hide Run, AllowedRun;
    RunKeepsInv(cap, steps);
    RunCarriesItems(cap, steps);
    var s := Run(cap, steps);
    LiveIsCurrent(s, i);
    assert LoopOk(s, i) && LoopTrace(s, i);
    assert s.log[|s.log| - 1] in s.log;
  }

  function FatalReturns(log: seq<Entry>): nat
  {
    if log == [] then 0
    else
      var last := log[|log| - 1];
      FatalReturns(log[..|log| - 1]) + if last.Returned? && last.result.FatalError? then 1 else 0
  }

  function Reads(steps: seq<Step>): nat
  {
    if steps == [] then 0 else Reads(steps[..|steps| - 1]) + if steps[|steps| - 1].ReadError? then 1 else 0
  }

  /** One loop, the current one if any, is blocked on the error channel. */
  function Pending(s: State): nat
  {
    if s.loops != [] && s.loops[|s.loops| - 1].Reporting? then 1 else 0
  }

  lemma {:induction false} FatalConcat(a: seq<Entry>, e: Entry)
    ensures FatalReturns(a + [e]) == FatalReturns(a) + if e.Returned? && e.result.FatalError? then 1 else 0
  {
    assert (a + [e])[..|a|] == a;
  }

  /** A fatal result makes its loop wait with an error, and a report puts it into the channel. */
  ghost predicate Reports(cap: nat, s: State, step: Step)
    requires Enabled(cap, s, step)
  {
    var t := Next(cap, s, step);
    FatalReturns(t.log) - FatalReturns(s.log) ==
    t.errors - s.errors + (if step.ReadError? then 1 else 0) + Pending(t) - Pending(s)
  }

  predicate IsLoopStep(step: Step)
  {
    step.LoopStart? || step.LoopTake? || step.LoopStop? || step.HandlerReturn? || step.Report? || step.Retry?
    || step.RetryStop?
  }

  lemma StepReports(cap: nat, s: State, step: Step)
    requires Structure(s) && Enabled(cap, s, step)
    ensures Reports(cap, s, step)
  {
    if IsLoopStep(step) {
      LiveIsCurrent(s, step.loop);
      hide Structure;
      LoopStepReports(cap, s, step);
    } else {
      hide Reports, Enabled;
      OtherStepReports(cap, s, step);
    }
  }

  lemma LoopStepReports(cap: nat, s: State, step: Step)
    requires Enabled(cap, s, step) && IsLoopStep(step) && step.loop == |s.loops| - 1
    ensures Reports(cap, s, step)
  {
    LoopStepMeaning(cap, s, step);
    var t := Next(cap, s, step);
    hide Next, Enabled, FatalReturns;
    OneEntryMore(s.log, t.log, step.HandlerReturn? && step.result.FatalError?);
  }

  lemma OneEntryMore(a: seq<Entry>, b: seq<Entry>, fatal: bool)
    requires (b == a && !fatal)
             || (b != [] && b == a + [b[|b| - 1]]
                 && (b[|b| - 1].Returned? && b[|b| - 1].result.FatalError? <==> fatal))
    ensures FatalReturns(b) == FatalReturns(a) + if fatal then 1 else 0
  {
    if b != a {
      FatalConcat(a, b[|b| - 1]);
    }
  }

  /** A loop step logs one entry at most, and only a fatal result makes the loop wait with an error. */
  lemma LoopStepMeaning(cap: nat, s: State, step: Step)
    requires Enabled(cap, s, step) && IsLoopStep(step)
    ensures var t, i := Next(cap, s, step), step.loop;
            var fatal := step.HandlerReturn? && step.result.FatalError?;
            && i < |s.loops| == |t.loops| && t.errors == s.errors + (if step.Report? then 1 else 0)
            && (t.loops[i].Reporting? <==> fatal) && (s.loops[i].Reporting? <==> step.Report?)
            && ((t.log == s.log && !fatal)
                || (t.log != [] && t.log == s.log + [t.log[|t.log| - 1]]
                    && (t.log[|t.log| - 1].Returned? && t.log[|t.log| - 1].result.FatalError? <==> fatal)))
  {}

  lemma OtherStepReports(cap: nat, s: State, step: Step)
    requires Structure(s) && Enabled(cap, s, step) && !IsLoopStep(step)
    ensures Reports(cap, s, step)
  {
    OtherStepMeaning(cap, s, step);
    OtherStepPending(cap, s, step);
    hide Structure, Enabled, Next, FatalReturns, Pending;
    OneEntryMore(s.log, Next(cap, s, step).log, false);
  }

  lemma OtherStepMeaning(cap: nat, s: State, step: Step)
    requires Enabled(cap, s, step) && !IsLoopStep(step)
    ensures var t := Next(cap, s, step);
            && t.errors == s.errors - (if step.ReadError? then 1 else 0)
            && (t.log == s.log
                || (t.log != [] && t.log == s.log + [t.log[|t.log| - 1]] && !t.log[|t.log| - 1].Returned?))
  {}

  lemma OtherStepPending(cap: nat, s: State, step: Step)
    requires Structure(s) && Enabled(cap, s, step) && !IsLoopStep(step)
    ensures Pending(Next(cap, s, step)) == Pending(s)
  {
    if step.HandOver? {
      LiveIsCurrent(s, s.producers[step.id].0);
    } else if step.ResetSpawn? {
      if s.loops != [] {
        assert LoopOk(s, |s.loops| - 1);
      }
    } else {
      hide Structure;
      assert Next(cap, s, step).loops == s.loops;
    }
  }

  /** Every fatal error the handler returned is in the error channel, was read from it, or is about to be put into
      it. */
  lemma {:induction false} FatalErrorsReported(cap: nat, steps: seq<Step>)
    requires AllowedRun(cap, steps)
    ensures var s := Run(cap, steps); FatalReturns(s.log) == s.errors + Reads(steps) + Pending(s) && s.errors <= 1
    decreases |steps|
  {
    hide Inv, Next, Enabled, FatalReturns, Pending;
    if steps == [] {
      NothingReported();
    } else {
      var front := steps[..|steps| - 1];
      FatalErrorsReported(cap, front);
      RunKeepsInv(cap, front);
      InvStructure(Run(cap, front));
      StepReports(cap, Run(cap, front), steps[|steps| - 1]);
      assert Reports(cap, Run(cap, front), steps[|steps| - 1]);
      OneErrorAtMost(cap, Run(cap, front), steps[|steps| - 1]);
    }
  }

  lemma NothingReported()
    ensures FatalReturns(Initial().log) == 0 && Pending(Initial()) == 0 && Initial().errors == 0
  {}

  lemma OneErrorAtMost(cap: nat, s: State, step: Step)
    requires Enabled(cap, s, step) && s.errors <= 1
    ensures Next(cap, s, step).errors <= 1
  {}
}
