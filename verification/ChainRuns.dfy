/** Whole runs of the block indexer against a node: roll forwards (which may fail and be retried), roll backs, crashes
    (also between the commit and the update of the memory) and restarts. */
module ChainRuns {
  import opened Wrappers
  import opened Numbers
  import opened Sequences
  import opened Keys
  import opened IndexerData
  import opened Stores
  import opened Indexing
  import Q = Queries

  /** `links(p, h)`: the block with header `h` is the child of the block at point `p`. */
  type Links = (BlockPoint, BlockHeader) -> bool

  /** The database and the memory (absent while the process is down), with the history a proof talks about: the point
      of the last Reset, the chain the node has presented since, its greatest height, and all blocks ever committed. */
  datatype State = State(store: Store, memory: Option<Memory>, base: BlockPoint, chain: seq<BlockHeader>, highest: nat,
                         blocks: seq<CardanoBlock>)

  datatype Event =
    | Forward(header: BlockHeader, env: Env)
    | Backward(position: nat)     // to the point above this many blocks of the presented chain
    | Crash
    | CrashAfterCommit(header: BlockHeader, env: Env)
    | Restart

  /** The point an empty database starts from: the configured one, or slot zero with a hash of zeros. */
  function Origin(cfg: Config): BlockPoint
  {
    if cfg.startingBlockPoint.Some? then cfg.startingBlockPoint.value else BlockPoint(0, seq(32, i => 0))
  }

  function Start(cfg: Config): State { State(EmptyStore, None, Origin(cfg), [], 0, []) }

  // ---------- chains ----------

  /** The point below position `i` of a chain that grows from `base`. */
  function PointAt(base: BlockPoint, chain: seq<BlockHeader>, i: nat): BlockPoint
    requires i <= |chain|
  {
    if i == 0 then base else PointOf(chain[i - 1])
  }

  /** Gap-free: every block is the child of the one before it, and slots strictly increase. */
  predicate Linked(links: Links, base: BlockPoint, chain: seq<BlockHeader>)
  {
    forall i :: 0 <= i < |chain| ==> LinkedAt(links, base, chain, i)
  }

  predicate LinkedAt(links: Links, base: BlockPoint, chain: seq<BlockHeader>, i: nat)
    requires i < |chain|
  {
    links(PointAt(base, chain, i), chain[i]) && PointAt(base, chain, i).slot < chain[i].slot
  }

  function HeaderOf(b: CardanoBlock): BlockHeader { BlockHeader(b.slot, b.hash, b.number, b.eraId) }

  function Headers(blocks: seq<CardanoBlock>): (r: seq<BlockHeader>)
    ensures |r| == |blocks| && forall i :: 0 <= i < |blocks| ==> r[i] == HeaderOf(blocks[i])
  {
    seq(|blocks|, i requires 0 <= i < |blocks| => HeaderOf(blocks[i]))
  }

  // ---------- one event ----------

  /** What the node may do: extend the tip, roll back to a point of the chain it presented, and after a Reset resume
      from the returned point. */
  predicate Allowed(links: Links, s: State, e: Event)
  {
    match e
    case Forward(h, _) => s.memory.Some? && links(PointAt(s.base, s.chain, |s.chain|), h)
                          && PointAt(s.base, s.chain, |s.chain|).slot < h.slot
    case CrashAfterCommit(h, _) => s.memory.Some? && links(PointAt(s.base, s.chain, |s.chain|), h)
                                   && PointAt(s.base, s.chain, |s.chain|).slot < h.slot
    case Backward(position) => s.memory.Some? && s.memory.value.latest.Some? && position <= |s.chain|
    case Crash => true
    case Restart => true
  }

  /** The block committed by a roll forward, if any. */
  function Committed(cfg: Config, interest: set<string>, s: State, h: BlockHeader, env: Env): Option<CardanoBlock>
    requires s.memory.Some?
  {
    var mem := s.memory.value;
    var step := Indexing.Forward(cfg, interest, mem, s.store, h, env);
    if |mem.queue| == cfg.confirmationBlockCount && !step.outcome.ProcessFailed?
    then
      CommitHasTxs(cfg, interest, mem, s.store, h, env);
      Some(ConfirmedBlock(cfg, interest, if mem.queue == [] then ZeroHeader() else mem.queue[0],
                          Populate(s.store.txOuts, env.retrieved.value)))
    else None
  }

  lemma CommitHasTxs(cfg: Config, interest: set<string>, mem: Memory, store: Store, h: BlockHeader, env: Env)
    requires |mem.queue| == cfg.confirmationBlockCount
    requires !Indexing.Forward(cfg, interest, mem, store, h, env).outcome.ProcessFailed?
    ensures env.retrieved.Some?
  {}

  function Next(cfg: Config, interest: set<string>, links: Links, s: State, e: Event): State
    requires Allowed(links, s, e)
  {
    match e
    case Forward(h, env) =>
      var step := Indexing.Forward(cfg, interest, s.memory.value, s.store, h, env);
      if step.outcome.ProcessFailed? then s.(store := step.store, memory := Some(step.memory))
      else
        var chain := s.chain + [h];
        var committed := Committed(cfg, interest, s, h, env);
        State(step.store, Some(step.memory), s.base, chain, if |chain| > s.highest then |chain| else s.highest,
              s.blocks + if committed.Some? then [committed.value] else [])
    case Backward(position) =>
      var (memory, outcome) := Indexing.Backward(s.memory.value, PointAt(s.base, s.chain, position));
      s.(memory := Some(memory), chain := if outcome.Fatal? then s.chain else s.chain[..position])
    case Crash => s.(memory := None)
    case CrashAfterCommit(h, env) =>
      var step := Indexing.Forward(cfg, interest, s.memory.value, s.store, h, env);
      var committed := Committed(cfg, interest, s, h, env);
      s.(store := step.store, memory := None, blocks := s.blocks + if committed.Some? then [committed.value] else [])
    case Restart =>
      s.(memory := Some(ResetMemory(cfg, s.store)), base := ResumePoint(cfg, s.store), chain := [], highest := 0)
  }

  /** A run the node's promises allow, and where it ends. */
  predicate AllowedRun(cfg: Config, interest: set<string>, links: Links, s: State, events: seq<Event>)
    decreases |events|, 0
  {
    events == [] || (AllowedRun(cfg, interest, links, s, events[..|events| - 1]) &&
                     Allowed(links, Run(cfg, interest, links, s, events[..|events| - 1]), events[|events| - 1]))
  }

  function Run(cfg: Config, interest: set<string>, links: Links, s: State, events: seq<Event>): State
    requires AllowedRun(cfg, interest, links, s, events)
    decreases |events|, 1
  {
    if events == [] then s
    else Next(cfg, interest, links, Run(cfg, interest, links, s, events[..|events| - 1]), events[|events| - 1])
  }

  // ---------- the invariant ----------

  /** How many blocks of the presented chain are confirmed. */
  function ConfirmedCount(cfg: Config, s: State): nat
  {
    if s.highest > cfg.confirmationBlockCount then s.highest - cfg.confirmationBlockCount else 0
  }

  /** The database holds one gap-free chain from the starting point, and its latest point is the end of it. */
  predicate StoredChain(cfg: Config, links: Links, s: State)
  {
    Linked(links, Origin(cfg), Headers(s.blocks))
    && Q.Holds(s.store.confirmed, s.blocks)
    && s.store.latest == (if s.blocks == [] then None else Some(PointOf(HeaderOf(s.blocks[|s.blocks| - 1]))))
  }

  /** The memory mirrors the presented chain: its confirmed part is the end of what is stored, the rest is the queue. */
  predicate MemoryMirrors(cfg: Config, links: Links, s: State)
  {
    s.memory.Some? ==>
      var n := ConfirmedCount(cfg, s);
      && s.memory.value.latest == Some(ResumePoint(cfg, s.store))
      && Linked(links, s.base, s.chain)
      && n <= |s.chain| <= s.highest && |s.chain| - n <= cfg.confirmationBlockCount
      && s.memory.value.queue == s.chain[n..]
      && n <= |s.blocks| && Headers(s.blocks)[|s.blocks| - n..] == s.chain[..n]
      && s.base == PointAt(Origin(cfg), Headers(s.blocks), |s.blocks| - n)
  }

  predicate Inv(cfg: Config, links: Links, s: State)
  {
    StoredChain(cfg, links, s) && MemoryMirrors(cfg, links, s)
  }

  // ---------- chains again ----------

  lemma {:induction false} SlotsIncrease(links: Links, base: BlockPoint, chain: seq<BlockHeader>, i: nat, j: nat)
    requires Linked(links, base, chain) && i < j <= |chain|
    ensures PointAt(base, chain, i).slot < PointAt(base, chain, j).slot
    decreases j
  {
    assert LinkedAt(links, base, chain, j - 1);
    if i < j - 1 {
      SlotsIncrease(links, base, chain, i, j - 1);
    }
  }

  lemma LinkedExtend(links: Links, base: BlockPoint, chain: seq<BlockHeader>, h: BlockHeader)
    requires Linked(links, base, chain)
    requires links(PointAt(base, chain, |chain|), h) && PointAt(base, chain, |chain|).slot < h.slot
    ensures Linked(links, base, chain + [h])
  {
    var longer := chain + [h];
    forall i | 0 <= i < |longer| ensures LinkedAt(links, base, longer, i) {
      assert PointAt(base, longer, i) == PointAt(base, chain, i);
      assert i < |chain| ==> LinkedAt(links, base, chain, i);
    }
  }

  lemma LinkedPrefix(links: Links, base: BlockPoint, chain: seq<BlockHeader>, n: nat)
    requires Linked(links, base, chain) && n <= |chain|
    ensures Linked(links, base, chain[..n])
  {
    forall i | 0 <= i < n ensures LinkedAt(links, base, chain[..n], i) {
      assert PointAt(base, chain[..n], i) == PointAt(base, chain, i);
      assert LinkedAt(links, base, chain, i);
    }
  }

  /** Storing the next block of the chain keeps the bucket in step. */
  lemma HoldsExtend(confirmed: map<Key, CardanoBlock>, blocks: seq<CardanoBlock>, b: CardanoBlock)
    requires Q.Holds(confirmed, blocks) && forall i :: 0 <= i < |blocks| ==> blocks[i].slot < b.slot
    ensures Q.Holds(confirmed[SlotKey(b.slot) := b], blocks + [b])
  {
    hide SlotKey;
    var m, all := confirmed[SlotKey(b.slot) := b], blocks + [b];
    forall i | 0 <= i < |blocks| ensures SlotKey(blocks[i].slot) != SlotKey(b.slot) {
      SlotKeyOrder(blocks[i].slot, b.slot);
    }
    forall k | k in m ensures exists i :: 0 <= i < |all| && SlotKey(all[i].slot) == k {
      if k == SlotKey(b.slot) {
        assert SlotKey(all[|blocks|].slot) == k;
      } else {
        var i :| 0 <= i < |blocks| && SlotKey(blocks[i].slot) == k;
        assert SlotKey(all[i].slot) == k;
      }
    }
  }

  /** In the queue a point of the presented chain is found at its own place. */
  lemma {:induction false} FindInQueue(queue: seq<BlockHeader>, i: nat)
    requires i < |queue| && forall j :: 0 <= j < i ==> queue[j].slot < queue[i].slot
    ensures FindPoint(queue, PointOf(queue[i])) == i
  {
    if i > 0 {
      FindInQueue(queue[1..], i - 1);
    }
  }

  lemma NotInQueue(queue: seq<BlockHeader>, p: BlockPoint)
    requires forall j :: 0 <= j < |queue| ==> queue[j].slot > p.slot
    ensures FindPoint(queue, p) == -1
  {}

  // ---------- every event keeps the invariant ----------

  lemma StartInv(cfg: Config, links: Links)
    ensures Inv(cfg, links, Start(cfg))
  {}

  lemma RestartKeeps(cfg: Config, interest: set<string>, links: Links, s: State)
    requires Inv(cfg, links, s)
    ensures Inv(cfg, links, Next(cfg, interest, links, s, Restart))
  {
    hide StoredChain, Linked;
    var t := Next(cfg, interest, links, s, Restart);
    assert t.chain[0..] == [] && t.chain[..0] == [] && Headers(t.blocks)[|t.blocks|..] == [];
    EmptyLinked(links, t.base);
    ResumeIsTip(cfg, links, s);
    assert StoredChain(cfg, links, t) by { SameStored(cfg, links, s, t); }
  }

  lemma SameStored(cfg: Config, links: Links, s: State, t: State)
    requires StoredChain(cfg, links, s) && t.store == s.store && t.blocks == s.blocks
    ensures StoredChain(cfg, links, t)
  {}

  lemma EmptyLinked(links: Links, base: BlockPoint)
    ensures Linked(links, base, [])
  {}

  /** `Reset` resumes from the end of the stored chain. */
  lemma ResumeIsTip(cfg: Config, links: Links, s: State)
    requires StoredChain(cfg, links, s)
    ensures ResumePoint(cfg, s.store) == PointAt(Origin(cfg), Headers(s.blocks), |s.blocks|)
  {
    hide Q.Holds, Linked;
  }

  /** The end of the stored chain is the last confirmed point of the presented one. */
  lemma StoredTip(cfg: Config, links: Links, s: State)
    requires Inv(cfg, links, s) && s.memory.Some?
    ensures var n := ConfirmedCount(cfg, s);
            && PointAt(Origin(cfg), Headers(s.blocks), |s.blocks|) == PointAt(s.base, s.chain, n)
            && PointAt(s.base, s.chain, n) == s.memory.value.latest.value
  {
    hide StoredChain, Linked, Origin, ResumePoint;
    ResumeIsTip(cfg, links, s);
    var n := ConfirmedCount(cfg, s);
    if n > 0 {
      assert s.chain[n - 1] == s.chain[..n][n - 1] == Headers(s.blocks)[|s.blocks| - n..][n - 1];
    }
  }

  /** What a committing roll forward does. */
  lemma CommitStep(cfg: Config, interest: set<string>, s: State, h: BlockHeader, env: Env)
    requires s.memory.Some? && Committed(cfg, interest, s, h, env).Some? && s.memory.value.queue != []
    ensures var b := Committed(cfg, interest, s, h, env).value;
            var mem := s.memory.value;
            var step := Indexing.Forward(cfg, interest, mem, s.store, h, env);
            && HeaderOf(b) == mem.queue[0]
            && step.store.confirmed == s.store.confirmed[SlotKey(b.slot) := b]
            && step.store.latest == Some(PointOf(mem.queue[0]))
            && step.memory == Memory(Some(PointOf(mem.queue[0])), mem.queue[1..] + [h])
  {
    hide SlotKey, Filter, Populate, NextBucket, PutTxs, BlockOps;
  }

  /** Committing the oldest unconfirmed block extends the stored chain by it. */
  lemma CommitKeepsStore(cfg: Config, interest: set<string>, links: Links, s: State, h: BlockHeader, env: Env)
    requires cfg.confirmationBlockCount >= 1 && Inv(cfg, links, s) && s.memory.Some?
    requires Committed(cfg, interest, s, h, env).Some?
    ensures s.memory.value.queue != [] && ConfirmedCount(cfg, s) < |s.chain|
    ensures var b := Committed(cfg, interest, s, h, env).value;
            var store := Indexing.Forward(cfg, interest, s.memory.value, s.store, h, env).store;
            && HeaderOf(b) == s.chain[ConfirmedCount(cfg, s)]
            && StoredChain(cfg, links, s.(store := store, blocks := s.blocks + [b]))
  {
    hide Linked, Q.Holds, Indexing.Forward, SlotKey, Origin, ConfirmedBlock;
    var n := ConfirmedCount(cfg, s);
    var b := Committed(cfg, interest, s, h, env).value;
    assert |s.memory.value.queue| == cfg.confirmationBlockCount && s.memory.value.queue[0] == s.chain[n];
    CommitStep(cfg, interest, s, h, env);
    var stored := Headers(s.blocks);
    StoredTip(cfg, links, s);
    LinkAt(links, s.base, s.chain, n);
    LinkedExtend(links, Origin(cfg), stored, HeaderOf(b));
    assert Headers(s.blocks + [b]) == stored + [HeaderOf(b)];
    forall i | 0 <= i < |s.blocks| ensures s.blocks[i].slot < b.slot {
      SlotsIncrease(links, Origin(cfg), stored + [HeaderOf(b)], i + 1, |stored| + 1);
      assert PointAt(Origin(cfg), stored + [HeaderOf(b)], i + 1) == PointOf(stored[i]);
    }
    HoldsExtend(s.store.confirmed, s.blocks, b);
  }

  lemma LinkAt(links: Links, base: BlockPoint, chain: seq<BlockHeader>, i: nat)
    requires Linked(links, base, chain) && i < |chain|
    ensures links(PointAt(base, chain, i), chain[i]) && PointAt(base, chain, i).slot < chain[i].slot
  {
    assert LinkedAt(links, base, chain, i);
  }

  lemma ForwardKeeps(cfg: Config, interest: set<string>, links: Links, s: State, h: BlockHeader, env: Env)
    requires cfg.confirmationBlockCount >= 1 && Inv(cfg, links, s) && Allowed(links, s, Forward(h, env))
    ensures Inv(cfg, links, Next(cfg, interest, links, s, Forward(h, env)))
  {
    hide Linked, StoredChain, MemoryMirrors, Indexing.Forward, Origin;
    if Committed(cfg, interest, s, h, env).Some? {
      CommitKeepsStore(cfg, interest, links, s, h, env);
      CommitKeepsMemory(cfg, interest, links, s, h, env);
      SameStored(cfg, links, s.(store := Indexing.Forward(cfg, interest, s.memory.value, s.store, h, env).store,
                                blocks := s.blocks + [Committed(cfg, interest, s, h, env).value]),
                 Next(cfg, interest, links, s, Forward(h, env)));
    } else {
      QueueKeeps(cfg, interest, links, s, h, env);
    }
  }

  /** The state after a commit. */
  lemma CommitState(cfg: Config, interest: set<string>, links: Links, s: State, h: BlockHeader, env: Env)
    requires cfg.confirmationBlockCount >= 1 && Inv(cfg, links, s) && Allowed(links, s, Forward(h, env))
    requires Committed(cfg, interest, s, h, env).Some?
    ensures var t := Next(cfg, interest, links, s, Forward(h, env));
            var n := ConfirmedCount(cfg, s);
            && n < |s.chain| && s.memory.value.queue == s.chain[n..]
            && |s.chain| - n == cfg.confirmationBlockCount && |s.chain| <= s.highest
            && t.memory == Some(Memory(Some(PointOf(s.chain[n])), s.memory.value.queue[1..] + [h]))
            && t.store.latest == Some(PointOf(s.chain[n]))
            && t.base == s.base && t.chain == s.chain + [h] && t.highest == Max(|s.chain| + 1, s.highest)
            && t.blocks == s.blocks + [Committed(cfg, interest, s, h, env).value]
            && HeaderOf(Committed(cfg, interest, s, h, env).value) == s.chain[n]
  {
    hide Linked, StoredChain, Indexing.Forward, Origin, ConfirmedBlock, SlotKey;
    CommitKeepsStore(cfg, interest, links, s, h, env);
    CommitStep(cfg, interest, s, h, env);
  }

  /** The memory after a commit. */
  lemma CommitKeepsMemory(cfg: Config, interest: set<string>, links: Links, s: State, h: BlockHeader, env: Env)
    requires cfg.confirmationBlockCount >= 1 && Inv(cfg, links, s) && Allowed(links, s, Forward(h, env))
    requires Committed(cfg, interest, s, h, env).Some?
    ensures MemoryMirrors(cfg, links, Next(cfg, interest, links, s, Forward(h, env)))
  {
    CommitState(cfg, interest, links, s, h, env);
    LinkedExtend(links, s.base, s.chain, h);
    hide *;
    MirrorAfterCommit(cfg, links, s, Next(cfg, interest, links, s, Forward(h, env)), h,
                      Committed(cfg, interest, s, h, env).value);
  }

  lemma MirrorAfterCommit(cfg: Config, links: Links, s: State, t: State, h: BlockHeader, b: CardanoBlock)
    requires cfg.confirmationBlockCount >= 1 && s.memory.Some? && MemoryMirrors(cfg, links, s)
    requires var n := ConfirmedCount(cfg, s);
             && n < |s.chain| && |s.chain| - n == cfg.confirmationBlockCount && |s.chain| <= s.highest
             && t.memory == Some(Memory(Some(PointOf(s.chain[n])), s.memory.value.queue[1..] + [h]))
             && t.store.latest == Some(PointOf(s.chain[n]))
             && t.base == s.base && t.chain == s.chain + [h] && t.highest == Max(|s.chain| + 1, s.highest)
             && t.blocks == s.blocks + [b] && HeaderOf(b) == s.chain[n]
    requires Linked(links, t.base, t.chain)
    ensures MemoryMirrors(cfg, links, t)
  {
    hide Linked, Origin, HeaderOf;
    var n := ConfirmedCount(cfg, s);
    var k := |s.blocks| - n;
    assert ConfirmedCount(cfg, t) == n + 1;
    assert s.chain[n..][1..] + [h] == t.chain[n + 1..];
    assert Headers(t.blocks)[k..] == Headers(s.blocks)[k..] + [HeaderOf(b)];
    assert t.chain[..n + 1] == s.chain[..n] + [s.chain[n]];
    assert PointAt(Origin(cfg), Headers(t.blocks), k) == PointAt(Origin(cfg), Headers(s.blocks), k);
  }

  /** A roll forward that commits nothing queues the header or, when processing failed, changes nothing. */
  lemma QueueKeeps(cfg: Config, interest: set<string>, links: Links, s: State, h: BlockHeader, env: Env)
    requires cfg.confirmationBlockCount >= 1 && Inv(cfg, links, s) && Allowed(links, s, Forward(h, env))
    requires Committed(cfg, interest, s, h, env).None?
    ensures Inv(cfg, links, Next(cfg, interest, links, s, Forward(h, env)))
  {
    hide Linked, StoredChain, Origin, ConfirmedBlock, NextStore, Populate, BlockOps, ReadFails, Headers, ResumePoint;
    LinkedExtend(links, s.base, s.chain, h);
    var t := Next(cfg, interest, links, s, Forward(h, env));
    assert t.store == s.store && t.blocks == s.blocks;
    SameStored(cfg, links, s, t);
    if |s.memory.value.queue| != cfg.confirmationBlockCount {
      hide Next, MemoryMirrors, ConfirmedCount;
      MirrorAfterQueue(cfg, links, s, t, h);
    } else {
      assert t == s;
    }
  }

  lemma MirrorAfterQueue(cfg: Config, links: Links, s: State, t: State, h: BlockHeader)
    requires s.memory.Some? && MemoryMirrors(cfg, links, s)
    requires |s.memory.value.queue| < cfg.confirmationBlockCount
    requires t == s.(memory := Some(s.memory.value.(queue := s.memory.value.queue + [h])), chain := s.chain + [h],
                     highest := Max(|s.chain| + 1, s.highest))
    requires Linked(links, t.base, t.chain)
    ensures MemoryMirrors(cfg, links, t)
  {
    hide Linked, Origin, Headers, PointAt, ResumePoint;
    var n := ConfirmedCount(cfg, s);
    assert ConfirmedCount(cfg, t) == n;
    assert s.chain[n..] + [h] == t.chain[n..] && t.chain[..n] == s.chain[..n];
  }

  lemma CrashKeeps(cfg: Config, interest: set<string>, links: Links, s: State, e: Event)
    requires cfg.confirmationBlockCount >= 1 && Inv(cfg, links, s) && Allowed(links, s, e)
    requires e.Crash? || e.CrashAfterCommit?
    ensures Inv(cfg, links, Next(cfg, interest, links, s, e))
  {
    hide Linked, StoredChain, Origin, ConfirmedBlock, NextStore, Populate, BlockOps, ReadFails;
    var t := Next(cfg, interest, links, s, e);
    if e.CrashAfterCommit? && Committed(cfg, interest, s, e.header, e.env).Some? {
      CommitKeepsStore(cfg, interest, links, s, e.header, e.env);
      SameStored(cfg, links, s.(store := t.store, blocks := t.blocks), t);
    } else {
      assert t.store == s.store && t.blocks == s.blocks;
      SameStored(cfg, links, s, t);
    }
  }

  /** The same for a chain whose first `n` blocks are confirmed and whose rest is the queue. */
  lemma BackwardOnChain(links: Links, base: BlockPoint, chain: seq<BlockHeader>, n: nat, mem: Memory, position: nat)
    requires Linked(links, base, chain) && n <= |chain| && position <= |chain|
    requires mem == Memory(Some(PointAt(base, chain, n)), chain[n..])
    ensures Indexing.Backward(mem, PointAt(base, chain, position)) ==
            if position < n then (mem, Fatal) else (mem.(queue := chain[n..position]), Done)
  {
    hide Linked, FindPoint;
    var p, queue := PointAt(base, chain, position), chain[n..];
    if position > n {
      var i := position - n - 1;
      assert PointOf(queue[i]) == p;
      forall j | 0 <= j < i ensures queue[j].slot < queue[i].slot {
        SlotsIncrease(links, base, chain, n + j + 1, n + i + 1);
      }
      FindInQueue(queue, i);
      assert FindPoint(queue, p) == i;
      assert queue[..i + 1] == chain[n..position];
    } else {
      forall j | 0 <= j < |queue| ensures queue[j].slot > p.slot {
        SlotsIncrease(links, base, chain, position, n + j + 1);
      }
      NotInQueue(queue, p);
      assert chain[n..n] == [];
      if position < n {
        SlotsIncrease(links, base, chain, position, n);
      }
    }
  }

  /** A roll back to a point of the presented chain: fatal exactly when the point lies strictly before the last
      confirmed block, and then nothing changes. */
  lemma BackwardMeaning(cfg: Config, links: Links, s: State, position: nat)
    requires Inv(cfg, links, s) && Allowed(links, s, Backward(position))
    ensures var (memory, outcome) := Indexing.Backward(s.memory.value, PointAt(s.base, s.chain, position));
            var n := ConfirmedCount(cfg, s);
            && (outcome.Fatal? <==> position < n)
            && (outcome.Fatal? ==> memory == s.memory.value)
            && (!outcome.Fatal? ==> memory == s.memory.value.(queue := s.chain[n..position]))
  {
    hide Linked, StoredChain, Origin;
    StoredTip(cfg, links, s);
    hide *;
    BackwardOnChain(links, s.base, s.chain, ConfirmedCount(cfg, s), s.memory.value, position);
  }

  lemma BackwardKeeps(cfg: Config, interest: set<string>, links: Links, s: State, position: nat)
    requires Inv(cfg, links, s) && Allowed(links, s, Backward(position))
    ensures Inv(cfg, links, Next(cfg, interest, links, s, Backward(position)))
  {
    hide Linked, StoredChain, Origin, Indexing.Backward, Headers, ResumePoint;
    BackwardMeaning(cfg, links, s, position);
    var t := Next(cfg, interest, links, s, Backward(position));
    SameStored(cfg, links, s, t);
    LinkedPrefix(links, s.base, s.chain, position);
    if position >= ConfirmedCount(cfg, s) {
      hide MemoryMirrors, ConfirmedCount;
      MirrorAfterBackward(cfg, links, s, t, position);
    } else {
      assert t == s;
    }
  }

  lemma MirrorAfterBackward(cfg: Config, links: Links, s: State, t: State, position: nat)
    requires s.memory.Some? && MemoryMirrors(cfg, links, s) && ConfirmedCount(cfg, s) <= position <= |s.chain|
    requires t == s.(memory := Some(s.memory.value.(queue := s.chain[ConfirmedCount(cfg, s)..position])),
                     chain := s.chain[..position])
    requires Linked(links, t.base, t.chain)
    ensures MemoryMirrors(cfg, links, t)
  {
    hide Linked, Origin, Headers, PointAt, ResumePoint;
    var n := ConfirmedCount(cfg, s);
    assert ConfirmedCount(cfg, t) == n && t.blocks == s.blocks;
    assert s.chain[..position][n..] == s.chain[n..position] && s.chain[..position][..n] == s.chain[..n];
  }

  // ---------- whole runs ----------

  /** In every run the invariant holds at the end, hence at every moment. */
  lemma {:induction false} RunKeepsInv(cfg: Config, interest: set<string>, links: Links, events: seq<Event>)
    requires cfg.confirmationBlockCount >= 1 && AllowedRun(cfg, interest, links, Start(cfg), events)
    ensures Inv(cfg, links, Run(cfg, interest, links, Start(cfg), events))
    decreases |events|
  {
    hide Inv, Next, Allowed;
    if events == [] {
      StartInv(cfg, links);
    } else {
      RunKeepsInv(cfg, interest, links, events[..|events| - 1]);
      StepKeepsInv(cfg, interest, links, Run(cfg, interest, links, Start(cfg), events[..|events| - 1]),
                   events[|events| - 1]);
    }
  }

  lemma StepKeepsInv(cfg: Config, interest: set<string>, links: Links, s: State, e: Event)
    requires cfg.confirmationBlockCount >= 1 && Inv(cfg, links, s) && Allowed(links, s, e)
    ensures Inv(cfg, links, Next(cfg, interest, links, s, e))
  {
    hide Inv, Next, Allowed;
    match e {
      case Forward(h, env) => ForwardKeeps(cfg, interest, links, s, h, env);
      case Backward(position) => BackwardKeeps(cfg, interest, links, s, position);
      case Crash => CrashKeeps(cfg, interest, links, s, e);
      case CrashAfterCommit(_, _) => CrashKeeps(cfg, interest, links, s, e);
      case Restart => RestartKeeps(cfg, interest, links, s);
    }
  }

  /** The blocks confirmed since the last Reset, which are those above its point, followed by the queue are the chain
      the node has presented, and their number is the greatest height followed minus ConfirmationBlockCount. */
  lemma ConfirmedThenQueue(cfg: Config, interest: set<string>, links: Links, events: seq<Event>)
    requires cfg.confirmationBlockCount >= 1 && AllowedRun(cfg, interest, links, Start(cfg), events)
    requires Run(cfg, interest, links, Start(cfg), events).memory.Some?
    ensures var s := Run(cfg, interest, links, Start(cfg), events);
            var n := ConfirmedCount(cfg, s);
            && n <= |s.blocks| && Headers(s.blocks)[|s.blocks| - n..] + s.memory.value.queue == s.chain
            && |s.memory.value.queue| <= cfg.confirmationBlockCount
            && s.base == PointAt(Origin(cfg), Headers(s.blocks), |s.blocks| - n)
            && s.memory.value.latest == Some(PointAt(s.base, s.chain, n))
  {
    hide AllowedRun, StoredChain, Run;
    RunKeepsInv(cfg, interest, links, events);
    var s := Run(cfg, interest, links, Start(cfg), events);
    var n := ConfirmedCount(cfg, s);
    assert s.chain == s.chain[..n] + s.chain[n..];
    StoredTip(cfg, links, s);
  }

  /** Whatever failed, was retried, crashed or was restarted on the way: the stored blocks form one gap-free chain from
      the starting point without duplicates, it ends at the stored latest point, and the ordered queries return its
      slices. */
  lemma CrashSafety(cfg: Config, interest: set<string>, links: Links, events: seq<Event>, slot: U64)
    requires cfg.confirmationBlockCount >= 1 && AllowedRun(cfg, interest, links, Start(cfg), events)
    ensures var s := Run(cfg, interest, links, Start(cfg), events);
            var cursor := Cursor(s.store.confirmed.Keys);
            && Linked(links, Origin(cfg), Headers(s.blocks))
            && Q.Holds(s.store.confirmed, s.blocks)
            && ResumePoint(cfg, s.store) == PointAt(Origin(cfg), Headers(s.blocks), |s.blocks|)
            && Q.Values(s.store.confirmed, cursor[Q.SeekIndex(cursor, SlotKey(slot))..]) == Q.FromSlot(s.blocks, slot)
            && Reverse(Q.Values(s.store.confirmed, cursor)) == Reverse(s.blocks)
  {
    hide AllowedRun, Run, Less, SlotKey, Cursor;
    RunKeepsInv(cfg, interest, links, events);
    var s := Run(cfg, interest, links, Start(cfg), events);
    Q.BlockQueries(s.store.confirmed, s.blocks, Cursor(s.store.confirmed.Keys), slot);
  }

  /** The stored chain spelled out, in every run: the first block is the child of the configured starting point (or of
      slot zero and a hash of zeros), every other one is the child of the block before it, slots increase, and the
      latest point is slot and hash of the last block. */
  lemma ChainFromStart(cfg: Config, interest: set<string>, links: Links, events: seq<Event>, i: nat)
    requires cfg.confirmationBlockCount >= 1 && AllowedRun(cfg, interest, links, Start(cfg), events)
    requires i < |Run(cfg, interest, links, Start(cfg), events).blocks|
    ensures var s := Run(cfg, interest, links, Start(cfg), events);
            var b := s.blocks[i];
            var before :=
              if i > 0 then BlockPoint(s.blocks[i - 1].slot, s.blocks[i - 1].hash)
              else if cfg.startingBlockPoint.Some? then cfg.startingBlockPoint.value
              else BlockPoint(0, seq(32, i => 0));
            && links(before, BlockHeader(b.slot, b.hash, b.number, b.eraId)) && before.slot < b.slot
            && s.store.latest == Some(BlockPoint(s.blocks[|s.blocks| - 1].slot, s.blocks[|s.blocks| - 1].hash))
  {
    hide Run, AllowedRun, Q.Holds;
    RunKeepsInv(cfg, interest, links, events);
    var s := Run(cfg, interest, links, Start(cfg), events);
    assert LinkedAt(links, Origin(cfg), Headers(s.blocks), i);
  }

  // ---------- no confirmations ----------

  const LAST_SLOT: U64 := 0xffff_ffff_ffff_ffff

  /** With ConfirmationBlockCount zero the first header presented after a start makes the indexer commit Go's zero
      header, whatever the configuration and the block are. */
  lemma ZeroConfirmationsBreaks(cfg: Config, interest: set<string>, links: Links, h: BlockHeader, env: Env)
    requires cfg.confirmationBlockCount == 0 && env.retrieved.Some? && env.readLimit.None? && env.failure.None?
    requires Allowed(links, Next(cfg, interest, links, Start(cfg), Restart), Forward(h, env))
    ensures var t := Next(cfg, interest, links, Next(cfg, interest, links, Start(cfg), Restart), Forward(h, env));
            Headers(t.blocks) == [ZeroHeader()] && t.chain == [h] && !StoredChain(cfg, links, t)
  {
    hide SlotKey, Filter, Populate, NextBucket, PutTxs, BlockOps, Q.Holds;
    var s := Next(cfg, interest, links, Start(cfg), Restart);
    var t := Next(cfg, interest, links, s, Forward(h, env));
    assert Headers(t.blocks) == [ZeroHeader()];
    assert !LinkedAt(links, Origin(cfg), Headers(t.blocks), 0);
  }

  /** Hence the stored blocks form a chain in all runs exactly when ConfirmationBlockCount is at least one, or no
      block can follow the starting point at all. */
  lemma ConfirmationsNeeded(cfg: Config, interest: set<string>)
    ensures (forall links: Links, events ::
               AllowedRun(cfg, interest, links, Start(cfg), events) ==>
                 StoredChain(cfg, links, Run(cfg, interest, links, Start(cfg), events)))
            <==> cfg.confirmationBlockCount >= 1 || Origin(cfg).slot == LAST_SLOT
  {
    hide StoredChain, Allowed, Next, Run, AllowedRun, Origin;
    if cfg.confirmationBlockCount >= 1 {
      forall links: Links, events | AllowedRun(cfg, interest, links, Start(cfg), events)
        ensures StoredChain(cfg, links, Run(cfg, interest, links, Start(cfg), events))
      {
        RunKeepsInv(cfg, interest, links, events);
      }
    } else if Origin(cfg).slot == LAST_SLOT {
      forall links: Links, events | AllowedRun(cfg, interest, links, Start(cfg), events)
        ensures StoredChain(cfg, links, Run(cfg, interest, links, Start(cfg), events))
      {
        NothingFollows(cfg, interest, links, events);
        StartInv(cfg, links);
        SameStored(cfg, links, Start(cfg), Run(cfg, interest, links, Start(cfg), events));
      }
    } else {
      var links, events := BreakingRun(cfg, interest);
    }
  }

  /** A run that stores something else. */
  lemma BreakingRun(cfg: Config, interest: set<string>) returns (links: Links, events: seq<Event>)
    requires cfg.confirmationBlockCount == 0 && Origin(cfg).slot < LAST_SLOT
    ensures AllowedRun(cfg, interest, links, Start(cfg), events)
    ensures !StoredChain(cfg, links, Run(cfg, interest, links, Start(cfg), events))
  {
    links := (p, h) => true;
    var h := BlockHeader(LAST_SLOT, ZeroHash(), 0, 0);
    var env := Env(Some([]), None, None, true);
    events := [Restart, Forward(h, env)];
    ZeroConfirmationsBreaks(cfg, interest, links, h, env);
    hide Next, StoredChain;
    assert events[..1] == [Restart] && [Restart][..0] == [];
    assert AllowedRun(cfg, interest, links, Start(cfg), []);
    assert AllowedRun(cfg, interest, links, Start(cfg), [Restart]);
  }

  /** From the last slot on, no run stores anything. */
  lemma {:induction false} NothingFollows(cfg: Config, interest: set<string>, links: Links, events: seq<Event>)
    requires AllowedRun(cfg, interest, links, Start(cfg), events) && Origin(cfg).slot == LAST_SLOT
    ensures var s := Run(cfg, interest, links, Start(cfg), events);
            s.store == EmptyStore && s.blocks == [] && s.chain == [] && s.base == Origin(cfg)
    decreases |events|
  {
    hide Indexing.Forward, Linked, StoredChain;
    if events != [] {
      NothingFollows(cfg, interest, links, events[..|events| - 1]);
    }
  }
}
