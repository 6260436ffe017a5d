/** Every step of the runner keeps the structure of its state and the trace of handler calls. */
module RunnerSteps {
  import opened IndexerData
  import opened Runner

  // ---------- at most one loop ----------

  /** A loop that has not exited belongs to the current generation. */
  lemma LiveIsCurrent(s: State, g: nat)
    requires Structure(s) && g < |s.loops| && !s.loops[g].Exited?
    ensures g == Current(s) && |s.loops| == |s.gens| && !s.gens[g].finished
    ensures !s.resetter.InHandler? && !s.resetter.Recreating? && !s.resetter.Spawning?
  {
    assert LoopOk(s, g);
  }

  // ---------- the structure is kept ----------

  lemma ProducersKeepStructure(cap: nat, s: State, step: Step)
    requires Structure(s) && Enabled(cap, s, step)
    requires step.Produce? || step.Put? || step.HandOver? || step.GiveUp? || step.ReadError? || step.Close?
    ensures Structure(Next(cap, s, step))
  {
    var t := Next(cap, s, step);
    if step.HandOver? {
      LiveIsCurrent(s, s.producers[step.id].0);
    }
    forall g | 0 <= g < |t.loops| ensures LoopOk(t, g) { assert LoopOk(s, g); }
  }

  lemma LoopsKeepStructure(cap: nat, s: State, step: Step)
    requires Structure(s) && Enabled(cap, s, step)
    requires step.LoopStart? || step.LoopTake? || step.HandlerReturn? || step.Retry?
    ensures Structure(Next(cap, s, step))
  {
    var t := Next(cap, s, step);
    LiveIsCurrent(s, step.loop);
    forall g | 0 <= g < |t.loops| ensures LoopOk(t, g) { assert LoopOk(s, g); }
  }

  lemma ExitsKeepStructure(cap: nat, s: State, step: Step)
    requires Structure(s) && Enabled(cap, s, step)
    requires step.LoopStop? || step.Report? || step.RetryStop?
    ensures Structure(Next(cap, s, step))
  {
    var t := Next(cap, s, step);
    LiveIsCurrent(s, step.loop);
    assert LoopOk(s, step.loop);
    forall g | 0 <= g < |t.loops| ensures LoopOk(t, g) { assert LoopOk(s, g); }
  }

  lemma ResetsKeepStructure(cap: nat, s: State, step: Step)
    requires Structure(s) && Enabled(cap, s, step)
    requires step.ResetStart? || step.ResetProceed? || step.ResetAbort? || step.ResetHandlerReturn?
             || step.ResetRecreate? || step.ResetSpawn?
    ensures Structure(Next(cap, s, step))
  {
    var t := Next(cap, s, step);
    forall g | 0 <= g < |t.loops| ensures LoopOk(t, g) { assert g < |s.loops| ==> LoopOk(s, g); }
  }

  lemma StructureKept(cap: nat, s: State, step: Step)
    requires Structure(s) && Enabled(cap, s, step)
    ensures Structure(Next(cap, s, step))
  {
    hide Structure, Enabled, Next;
    match step {
      case Produce(_, _) => ProducersKeepStructure(cap, s, step);
      case Put(_) => ProducersKeepStructure(cap, s, step);
      case HandOver(_) => ProducersKeepStructure(cap, s, step);
      case GiveUp(_) => ProducersKeepStructure(cap, s, step);
      case ReadError => ProducersKeepStructure(cap, s, step);
      case Close => ProducersKeepStructure(cap, s, step);
      case LoopStart(_) => LoopsKeepStructure(cap, s, step);
      case LoopTake(_) => LoopsKeepStructure(cap, s, step);
      case HandlerReturn(_, _) => LoopsKeepStructure(cap, s, step);
      case Retry(_) => LoopsKeepStructure(cap, s, step);
      case LoopStop(_) => ExitsKeepStructure(cap, s, step);
      case Report(_) => ExitsKeepStructure(cap, s, step);
      case RetryStop(_) => ExitsKeepStructure(cap, s, step);
      case _ => ResetsKeepStructure(cap, s, step);
    }
  }

  // ---------- the trace is kept ----------

  lemma Appended(log: seq<Entry>, e: Entry, g: nat)
    ensures LegalLog(log + [e]) <==> LegalLog(log) && Legal(log, e)
    ensures LastReturn(log + [e], g) == if e.Returned? && e.gen == g then [e] else LastReturn(log, g)
    ensures Handled(log + [e], g) ==
            if e.Call? && e.gen == g && e.k == |Handled(log, g)| then Handled(log, g) + [e.item] else Handled(log, g)
  {
    hide Legal;
    assert (log + [e])[..|log|] == log;
  }

  lemma {:induction false} NoEntries(log: seq<Entry>, g: nat)
    requires forall e :: e in log ==> e.gen != g
    ensures LastReturn(log, g) == [] && Handled(log, g) == []
    decreases |log|
  {
    if log != [] {
      NoEntries(log[..|log| - 1], g);
    }
  }

  predicate Silent(step: Step)
  {
    step.Produce? || step.Put? || step.GiveUp? || step.ReadError? || step.Close? || step.LoopStart? || step.LoopStop?
    || step.Report? || step.RetryStop? || step.ResetStart? || step.ResetAbort?
  }

  /** The generations of `t` are those of `s`, up to items put and flags set. */
  predicate SameQueues(s: State, t: State)
  {
    |t.gens| == |s.gens| &&
    forall g :: 0 <= g < |t.gens| ==>
      s.gens[g].put <= t.gens[g].put && t.gens[g].taken == s.gens[g].taken
        && (s.gens[g].finished ==> t.gens[g].finished)
  }

  /** A loop stands still, starts, or leaves from outside the handler. */
  predicate QuietMove(s: State, t: State, g: nat)
    requires g < |s.loops| && g < |t.loops|
  {
    t.loops[g] == s.loops[g] || (t.loops[g].Exited? && !s.loops[g].Handling?)
    || (s.loops[g].NotStarted? && t.loops[g].Selecting?)
  }

  /** Steps without a handler call change nothing the log depends on. */
  lemma QuietKeepsTrace(s: State, t: State)
    requires Inv(s) && SameQueues(s, t) && t.log == s.log
    requires |t.loops| == |s.loops| && forall g :: 0 <= g < |t.loops| ==> QuietMove(s, t, g)
    requires (t.resetter.InHandler? <==> s.resetter.InHandler?) && !t.resetter.Spawning?
    ensures Trace(t)
  {
    hide LegalLog, Handled, LastReturn;
    forall g | 0 <= g < |t.gens| ensures t.gens[g].put[..t.gens[g].taken] == s.gens[g].put[..s.gens[g].taken] {}
    forall g | 0 <= g < |t.loops| && g < |t.gens| ensures LoopTrace(t, g) {
      assert QuietMove(s, t, g) && LoopTrace(s, g) && LoopOk(s, g);
    }
    if s.log != [] && s.log[|s.log| - 1].Call? {
      assert QuietMove(s, t, s.log[|s.log| - 1].gen);
    }
  }

  lemma SilentKeepsTrace(cap: nat, s: State, step: Step)
    requires Inv(s) && Enabled(cap, s, step) && Silent(step)
    ensures Trace(Next(cap, s, step))
  {
    var t := Next(cap, s, step);
    if s.resetter.Spawning? {
      SpawningKeepsTrace(cap, s, step);
    } else {
      hide Trace, LoopTrace;
      assert SameQueues(s, t);
      forall g | 0 <= g < |t.loops| ensures QuietMove(s, t, g) {}
      QuietKeepsTrace(s, t);
    }
  }

  /** While the new loop is not launched yet, all loops have exited, and steps without a handler call only touch
      queues. */
  lemma SpawningStep(cap: nat, s: State, step: Step)
    requires Inv(s) && Enabled(cap, s, step) && Silent(step) && s.resetter.Spawning?
    ensures var t := Next(cap, s, step);
            t.loops == s.loops && t.log == s.log && t.resetter == s.resetter && SameQueues(s, t)
  {
    hide Trace;
    if step.LoopStart? || step.LoopStop? || step.Report? || step.RetryStop? {
      LiveIsCurrent(s, step.loop);
    }
  }

  lemma SpawningKeepsTrace(cap: nat, s: State, step: Step)
    requires Inv(s) && Enabled(cap, s, step) && Silent(step) && s.resetter.Spawning?
    ensures Trace(Next(cap, s, step))
  {
    hide Inv, Enabled, Next, Trace;
    SpawningStep(cap, s, step);
    SameLoopsKeepTrace(s, Next(cap, s, step));
  }

  lemma SameLoopsKeepTrace(s: State, t: State)
    requires Inv(s) && s.resetter.Spawning?
    requires t.loops == s.loops && t.log == s.log && t.resetter == s.resetter && SameQueues(s, t)
    ensures Trace(t)
  {
    hide LegalLog, Handled, LastReturn, ComesNext;
    forall g | 0 <= g < |t.gens| ensures t.gens[g].put[..t.gens[g].taken] == s.gens[g].put[..s.gens[g].taken] {}
    forall g | 0 <= g < |t.loops| && g < |t.gens| ensures LoopTrace(t, g) {
      assert LoopTrace(s, g);
    }
  }

  lemma NewGenerationKeepsTrace(cap: nat, s: State, step: Step)
    requires Inv(s) && Enabled(cap, s, step) && (step.ResetRecreate? || step.ResetSpawn?)
    ensures Trace(Next(cap, s, step))
  {
    hide LegalLog, Handled, LastReturn;
    var t := Next(cap, s, step);
    NoEntries(s.log, |s.gens|);
    if step.ResetSpawn? {
      NoEntries(s.log, |s.gens| - 1);
    }
    forall g | 0 <= g < |t.loops| && g < |t.gens| ensures LoopTrace(t, g) {
      assert g < |s.loops| ==> LoopTrace(s, g);
    }
  }

  /** Entering the handler for an item. */
  lemma CallKeepsTrace(s: State, t: State, g: nat, k: nat, item: Item)
    requires Inv(s) && g < |s.loops| && (s.loops[g].Selecting? || s.loops[g].Delaying?)
    requires ComesNext(s.log, g, k)
    requires t.log == s.log + [Call(g, k, item)] && t.loops == s.loops[g := Handling(g, k)] && t.resetter == s.resetter
    requires |t.gens| == |s.gens| && forall h :: 0 <= h < |t.gens| && h != g ==> t.gens[h] == s.gens[h]
    requires t.gens[g].finished == s.gens[g].finished && s.gens[g].put <= t.gens[g].put
    requires k < t.gens[g].taken == k + 1 <= |t.gens[g].put| && t.gens[g].put[k] == item
    requires s.gens[g].taken == k || s.gens[g].taken == k + 1
    ensures Trace(t)
  {
    hide LegalLog, Handled, LastReturn, ComesNext;
    LiveIsCurrent(s, g);
    var e := Call(g, k, item);
    assert Quiet(s.log) by {
      if s.log != [] && s.log[|s.log| - 1].Call? {
        var h := s.log[|s.log| - 1].gen;
        LiveIsCurrent(s, h);
      }
    }
    assert Legal(s.log, e);
    forall h | 0 <= h < |t.gens| ensures Handled(t.log, h) == t.gens[h].put[..t.gens[h].taken] {
      Appended(s.log, e, h);
    }
    Appended(s.log, e, g);
    forall h | 0 <= h < |t.loops| ensures LoopTrace(t, h) {
      if h != g && !s.loops[h].Exited? {
        LiveIsCurrent(s, h);
      }
    }
  }

  lemma CallsKeepTrace(cap: nat, s: State, step: Step)
    requires Inv(s) && Enabled(cap, s, step) && (step.HandOver? || step.LoopTake? || step.Retry?)
    ensures Trace(Next(cap, s, step))
  {
    hide LegalLog, Handled, LastReturn, ComesNext, Trace;
    var t := Next(cap, s, step);
    var g := if step.HandOver? then s.producers[step.id].0 else s.loops[step.loop].gen;
    var i := if step.HandOver? then g else step.loop;
    LiveIsCurrent(s, i);
    assert LoopOk(s, i) && i == g;
    LoopTraceOf(s, g);
    var e := t.log[|s.log|];
    CallKeepsTrace(s, t, g, e.k, e.item);
  }

  lemma LoopTraceOf(s: State, g: nat)
    requires Trace(s) && g < |s.loops| && g < |s.gens|
    ensures LoopTrace(s, g)
  {}

  /** Leaving the handler after an item. */
  lemma ReturnKeepsTrace(cap: nat, s: State, i: nat, result: Result)
    requires Inv(s) && Enabled(cap, s, HandlerReturn(i, result))
    ensures Trace(Next(cap, s, HandlerReturn(i, result)))
  {
    hide LegalLog, Handled, LastReturn;
    var t := Next(cap, s, HandlerReturn(i, result));
    LiveIsCurrent(s, i);
    assert LoopOk(s, i) && LoopTrace(s, i);
    var e := t.log[|s.log|];
    forall h | 0 <= h < |t.gens| ensures Handled(t.log, h) == t.gens[h].put[..t.gens[h].taken] {
      Appended(s.log, e, h);
    }
    Appended(s.log, e, i);
    forall h | 0 <= h < |t.loops| ensures LoopTrace(t, h) {
      if h != i && !s.loops[h].Exited? {
        LiveIsCurrent(s, h);
      }
    }
  }

  /** Entering and leaving the handler's Reset. */
  lemma ResetCallKeepsTrace(cap: nat, s: State, step: Step)
    requires Inv(s) && Enabled(cap, s, step) && (step.ResetProceed? || step.ResetHandlerReturn?)
    ensures Trace(Next(cap, s, step))
  {
    hide LegalLog, Handled, LastReturn;
    var t := Next(cap, s, step);
    var e := t.log[|s.log|];
    if step.ResetProceed? && s.log != [] && s.log[|s.log| - 1].Call? {
      LiveIsCurrent(s, s.log[|s.log| - 1].gen);
    }
    forall h | 0 <= h < |t.gens| ensures Handled(t.log, h) == t.gens[h].put[..t.gens[h].taken] {
      Appended(s.log, e, h);
    }
    Appended(s.log, e, 0);
    forall h | 0 <= h < |t.loops| ensures LoopTrace(t, h) {
      Appended(s.log, e, h);
      assert LoopTrace(s, h) && LoopOk(s, h);
    }
  }

  lemma StepKeepsInv(cap: nat, s: State, step: Step)
    requires Inv(s) && Enabled(cap, s, step)
    ensures Inv(Next(cap, s, step))
  {
    hide Structure, Trace, Enabled, Next;
    StructureKept(cap, s, step);
    if Silent(step) {
      SilentKeepsTrace(cap, s, step);
    } else {
      match step {
        case HandOver(_) => CallsKeepTrace(cap, s, step);
        case LoopTake(_) => CallsKeepTrace(cap, s, step);
        case Retry(_) => CallsKeepTrace(cap, s, step);
        case HandlerReturn(i, result) => ReturnKeepsTrace(cap, s, i, result);
        case ResetProceed => ResetCallKeepsTrace(cap, s, step);
        case ResetHandlerReturn(_) => ResetCallKeepsTrace(cap, s, step);
        case ResetRecreate => NewGenerationKeepsTrace(cap, s, step);
        case ResetSpawn => NewGenerationKeepsTrace(cap, s, step);
      }
    }
  }
}
