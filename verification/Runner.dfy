/** The block indexer runner as interleaved steps: producers, the main loop of each generation, Reset, Close and the
    reader of the error channel (`indexer/block_indexer_runner.go`). Resets are serialised. */
module Runner {
  import opened IndexerData

  datatype Item = ForwardItem(header: BlockHeader) | BackwardItem(point: BlockPoint)

  /** The channels made by one Reset: what was ever put into the queue, how much of it was received, and whether
      `stopLoopCh` and `loopFinishedCh` are closed. */
  datatype Generation = Generation(put: seq<Item>, taken: nat, stopped: bool, finished: bool)

  /** What a handler call returned: nil, ErrBlockIndexerFatal, a processConfirmedBlockError, or another error. */
  datatype Result = Succeeded | FatalError | RetryError | OtherError

  /** Where a main loop is. `gen` is the generation whose channels it read when it started, `k` the place of the
      current item in that queue. */
  datatype Loop =
    | NotStarted
    | Selecting(gen: nat)
    | Handling(gen: nat, k: nat)
    | Reporting(gen: nat, k: nat)     // blocked on the error channel
    | Delaying(gen: nat, k: nat)      // waiting for the retry delay
    | Exited

  datatype Resetter =
    | NoReset
    | Stopping          // stopLoopCh closed, waiting for the loop
    | InHandler         // inside blockSyncerHandler.Reset
    | Recreating        // the handler's Reset succeeded
    | Spawning          // new channels in place, the loop not yet launched
    | Aborted           // returned early; another Reset would close stopLoopCh again and panic

  /** Entries and returns of handler calls, in the order they happen. */
  datatype Entry =
    | Call(gen: nat, k: nat, item: Item)
    | Returned(gen: nat, k: nat, result: Result)
    | ResetCall(gen: nat)
    | ResetReturned(gen: nat, ok: bool)

  datatype State = State(
    gens: seq<Generation>,
    loops: seq<Loop>,                  // one for each launched generation; the first never had one
    producers: map<nat, (nat, Item)>,  // calls in progress, with the generation read on entry
    resetter: Resetter,
    closed: bool,
    errors: nat,                       // filled slots of errorCh
    log: seq<Entry>)

  datatype Step =
    | Produce(id: nat, item: Item)
    | Put(id: nat)
    | HandOver(id: nat)                // a waiting loop receives directly from the producer
    | GiveUp(id: nat)
    | LoopStart(loop: nat)
    | LoopTake(loop: nat)
    | LoopStop(loop: nat)
    | HandlerReturn(loop: nat, result: Result)
    | Report(loop: nat)
    | ReadError
    | Retry(loop: nat)
    | RetryStop(loop: nat)
    | Close
    | ResetStart
    | ResetProceed
    | ResetAbort
    | ResetHandlerReturn(ok: bool)
    | ResetRecreate
    | ResetSpawn

  function Initial(): State
  {
    State([Generation([], 0, false, true)], [Exited], map[], NoReset, false, 0, [])
  }

  /** The generation the runner's fields point to. */
  function Current(s: State): nat { if |s.gens| == 0 then 0 else |s.gens| - 1 }

  function QueueLength(g: Generation): int { |g.put| - g.taken }

  predicate Enabled(cap: nat, s: State, step: Step)
  {
    match step
    case Produce(id, _) => id !in s.producers
    case Put(id) => id in s.producers && s.producers[id].0 < |s.gens| && QueueLength(s.gens[s.producers[id].0]) < cap
    case HandOver(id) => id in s.producers && s.producers[id].0 < |s.loops| && s.producers[id].0 < |s.gens|
                         && s.loops[s.producers[id].0] == Selecting(s.producers[id].0)
                         && QueueLength(s.gens[s.producers[id].0]) == 0
    case GiveUp(id) => id in s.producers && s.producers[id].0 < |s.gens|
      && (s.closed || s.gens[s.producers[id].0].stopped)
    case LoopStart(i) => i < |s.loops| && s.loops[i].NotStarted?
    case LoopTake(i) => i < |s.loops| && s.loops[i].Selecting? && s.loops[i].gen < |s.gens|
                        && QueueLength(s.gens[s.loops[i].gen]) > 0
    case LoopStop(i) => i < |s.loops| && s.loops[i].Selecting? && s.loops[i].gen < |s.gens|
                        && (s.closed || s.gens[s.loops[i].gen].stopped)
    case HandlerReturn(i, _) => i < |s.loops| && s.loops[i].Handling?
    case Report(i) => i < |s.loops| && s.loops[i].Reporting? && s.loops[i].gen < |s.gens| && s.errors < 1
    case ReadError => s.errors > 0
    case Retry(i) => i < |s.loops| && s.loops[i].Delaying? && s.loops[i].gen < |s.gens|
                     && s.loops[i].k < |s.gens[s.loops[i].gen].put|
    case RetryStop(i) => i < |s.loops| && s.loops[i].Delaying? && s.loops[i].gen < |s.gens|
                         && (s.closed || s.gens[s.loops[i].gen].stopped)
    case Close => true
    case ResetStart => s.resetter.NoReset? && s.gens != []
    case ResetProceed => s.resetter.Stopping? && s.gens != [] && s.gens[Current(s)].finished
    case ResetAbort => s.resetter.Stopping? && s.closed
    case ResetHandlerReturn(_) => s.resetter.InHandler?
    case ResetRecreate => s.resetter.Recreating?
    case ResetSpawn => s.resetter.Spawning?
  }

  /** Leaving the main loop closes the `loopFinishedCh` it read when it started. */
  function Leave(s: State, i: nat, gen: nat): State
    requires i < |s.loops| && gen < |s.gens|
  {
    s.(loops := s.loops[i := Exited], gens := s.gens[gen := s.gens[gen].(finished := true)])
  }

  function Next(cap: nat, s: State, step: Step): State
    requires Enabled(cap, s, step)
  {
    match step
    case Produce(id, item) => s.(producers := s.producers[id := (Current(s), item)])
    case Put(id) =>
      var (g, item) := s.producers[id];
      s.(producers := s.producers - {id}, gens := s.gens[g := s.gens[g].(put := s.gens[g].put + [item])])
    case HandOver(id) =>
      var (g, item) := s.producers[id];
      var gen := s.gens[g];
      s.(producers := s.producers - {id},
         gens := s.gens[g := gen.(put := gen.put + [item], taken := gen.taken + 1)],
         loops := s.loops[g := Handling(g, gen.taken)],
         log := s.log + [Call(g, gen.taken, item)])
    case GiveUp(id) => s.(producers := s.producers - {id})
    case LoopStart(i) => s.(loops := s.loops[i := Selecting(Current(s))])
    case LoopTake(i) =>
      var g := s.loops[i].gen;
      var gen := s.gens[g];
      s.(gens := s.gens[g := gen.(taken := gen.taken + 1)],
         loops := s.loops[i := Handling(g, gen.taken)],
         log := s.log + [Call(g, gen.taken, gen.put[gen.taken])])
    case LoopStop(i) => Leave(s, i, s.loops[i].gen)
    case HandlerReturn(i, result) =>
      var (g, k) := (s.loops[i].gen, s.loops[i].k);
      s.(loops := s.loops[i := match result
                               case Succeeded => Selecting(g)
                               case FatalError => Reporting(g, k)
                               case RetryError => Delaying(g, k)
                               case OtherError => Selecting(g)],
         log := s.log + [Returned(g, k, result)])
    case Report(i) => Leave(s, i, s.loops[i].gen).(errors := s.errors + 1)
    case ReadError => s.(errors := s.errors - 1)
    case Retry(i) =>
      var (g, k) := (s.loops[i].gen, s.loops[i].k);
      s.(loops := s.loops[i := Handling(g, k)], log := s.log + [Call(g, k, s.gens[g].put[k])])
    case RetryStop(i) => Leave(s, i, s.loops[i].gen)
    case Close => s.(closed := true)
    case ResetStart =>
      s.(gens := s.gens[Current(s) := s.gens[Current(s)].(stopped := true)], resetter := Stopping)
    case ResetProceed => s.(resetter := InHandler, log := s.log + [ResetCall(Current(s))])
    case ResetAbort => s.(resetter := Aborted)
    case ResetHandlerReturn(ok) =>
      s.(resetter := if ok then Recreating else Aborted, log := s.log + [ResetReturned(Current(s), ok)])
    case ResetRecreate => s.(gens := s.gens + [Generation([], 0, false, false)], resetter := Spawning)
    case ResetSpawn => s.(loops := s.loops + [NotStarted], resetter := NoReset)
  }

  predicate AllowedRun(cap: nat, steps: seq<Step>)
    decreases |steps|, 0
  {
    steps == [] || (AllowedRun(cap, steps[..|steps| - 1])
                    && Enabled(cap, Run(cap, steps[..|steps| - 1]), steps[|steps| - 1]))
  }

  function Run(cap: nat, steps: seq<Step>): State
    requires AllowedRun(cap, steps)
    decreases |steps|, 1
  {
    if steps == [] then Initial() else Next(cap, Run(cap, steps[..|steps| - 1]), steps[|steps| - 1])
  }

  // ---------- what a legal sequence of handler calls is ----------

  /** No handler call is in progress. */
  predicate Quiet(log: seq<Entry>)
  {
    log == [] || log[|log| - 1].Returned? || log[|log| - 1].ResetReturned?
  }

  /** The last return of a handler call made by a generation's loop. */
  function LastReturn(log: seq<Entry>, g: nat): seq<Entry>
    ensures |LastReturn(log, g)| <= 1
  {
    if log == [] then []
    else if log[|log| - 1].Returned? && log[|log| - 1].gen == g then [log[|log| - 1]]
    else LastReturn(log[..|log| - 1], g)
  }

  /** The next call of a generation: the first item, the same item after a retry error, or the next item after a
      success or an error that is not retried; none after a fatal error. */
  predicate ComesNext(log: seq<Entry>, g: nat, k: nat)
  {
    var r := LastReturn(log, g);
    if r == [] then k == 0
    else r[0].Returned? &&
         match r[0].result
         case RetryError => k == r[0].k
         case FatalError => false
         case _ => k == r[0].k + 1
  }

  predicate Legal(log: seq<Entry>, e: Entry)
  {
    match e
    case Call(g, k, _) => Quiet(log) && ComesNext(log, g, k) && forall r :: r in log && r.ResetCall? ==> r.gen < g
    case Returned(g, k, _) => log != [] && log[|log| - 1].Call? && log[|log| - 1].gen == g && log[|log| - 1].k == k
    case ResetCall(_) => Quiet(log)
    case ResetReturned(g, _) => log != [] && log[|log| - 1] == ResetCall(g)
  }

  /** Handler calls never overlap, each generation handles its items one after the other and repeats only the current
      one, and after a Reset has entered the handler no item of that or an earlier generation is handled. */
  predicate LegalLog(log: seq<Entry>)
  {
    log == [] || (LegalLog(log[..|log| - 1]) && Legal(log[..|log| - 1], log[|log| - 1]))
  }

  /** The items a generation has handled, each once. */
  function Handled(log: seq<Entry>, g: nat): seq<Item>
  {
    if log == [] then []
    else
      var front, e := Handled(log[..|log| - 1], g), log[|log| - 1];
      if e.Call? && e.gen == g && e.k == |front| then front + [e.item] else front
  }

  // ---------- the invariant ----------

  predicate Structure(s: State)
  {
    && |s.gens| >= 1 && |s.loops| == |s.gens| - (if s.resetter.Spawning? then 1 else 0)
    && (forall g :: 0 <= g < |s.gens| ==> s.gens[g].taken <= |s.gens[g].put|)
    && (forall g :: 0 <= g < |s.gens| - 1 ==> s.gens[g].stopped && s.gens[g].finished)
    && (forall g :: 0 <= g < |s.loops| ==> LoopOk(s, g))
    && (forall id :: id in s.producers ==> s.producers[id].0 < |s.gens|)
    && ResetterOk(s, s.gens[|s.gens| - 1])
  }

  /** A loop uses the channels of its own generation, and has exited exactly when it closed `loopFinishedCh`. */
  predicate LoopOk(s: State, g: nat)
    requires g < |s.loops| && g < |s.gens|
  {
    (s.gens[g].finished <==> s.loops[g].Exited?) &&
    match s.loops[g]
    case NotStarted => s.gens[g].taken == 0
    case Selecting(gen) => gen == g
    case Handling(gen, k) => gen == g && k + 1 == s.gens[g].taken
    case Reporting(gen, k) => gen == g && k + 1 == s.gens[g].taken
    case Delaying(gen, k) => gen == g && k + 1 == s.gens[g].taken
    case Exited => true
  }

  predicate ResetterOk(s: State, current: Generation)
  {
    match s.resetter
    case NoReset => !current.stopped
    case Spawning => !current.stopped && !current.finished && current.taken == 0
    case InHandler => current.stopped && current.finished
    case Recreating => current.stopped && current.finished
    case _ => current.stopped
  }

  predicate Trace(s: State)
  {
    && LegalLog(s.log)
    && (forall e :: e in s.log ==> e.gen < |s.gens|)
    && (forall e :: e in s.log && e.ResetCall? ==> e.gen < |s.gens| && s.gens[e.gen].finished)
    && (forall g :: 0 <= g < |s.gens| ==>
        s.gens[g].taken <= |s.gens[g].put| && Handled(s.log, g) == s.gens[g].put[..s.gens[g].taken])
    && (forall g :: 0 <= g < |s.loops| && g < |s.gens| ==> LoopTrace(s, g))
    && (s.resetter.InHandler? <==> s.log != [] && s.log[|s.log| - 1].ResetCall?)
    && (s.resetter.InHandler? ==> s.log[|s.log| - 1] == ResetCall(Current(s)))
    && (s.resetter.Spawning? ==> forall e :: e in s.log ==> e.gen < |s.gens| - 1)
    && (s.log != [] && s.log[|s.log| - 1].Call? ==>
          s.log[|s.log| - 1].gen < |s.loops| && s.loops[s.log[|s.log| - 1].gen].Handling?)
  }

  predicate LoopTrace(s: State, g: nat)
    requires g < |s.loops| && g < |s.gens|
  {
    match s.loops[g]
    case NotStarted => LastReturn(s.log, g) == []
    case Selecting(_) => ComesNext(s.log, g, s.gens[g].taken)
    case Handling(_, k) => s.log != [] && s.log[|s.log| - 1].Call? && s.log[|s.log| - 1].gen == g
      && s.log[|s.log| - 1].k == k
    case Delaying(_, k) => ComesNext(s.log, g, k)
    case _ => true
  }

  predicate Inv(s: State) { Structure(s) && Trace(s) }
}
