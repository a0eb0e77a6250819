/** Threads running `with UciBackend()` blocks at the same time.

    Each block holds the write lock of the RwLock machine from `__enter__` to `__exit__`.  The
    body of a block is any program that looks at what `read` shows, issues uci commands, adds to
    `affected_configs`, and ends normally or by an exception.  L is the type of its local state. */
module Transactions {
  import opened Wrappers
  import opened UciStore
  import RwLock

  type Tid = RwLock.Tid

  // ---------------------------------------------------------------- one block

  /** A uci command rewrites one config, or fails. */
  datatype Command = Command(config: string, rewrite: Config -> Option<Config>)

  datatype Move<L> =
    | Issue(command: Command, ok: L, failed: L)   // a command; failed is where a caught UciException leads
    | Mark(config: string, next: L)               // affected_configs.add
    | Finish
    | Raise

  datatype Body<!L> = Body(start: L, next: (L, Store) -> Move<L>)

  /** A block under way: where its program stands, the pending changes, the configs to commit. */
  datatype Block<L> = Block(local: L, changes: Store, affected: set<string>)

  function Carry<L>(committed: Store, b: Block<L>, m: Move<L>): Block<L>
    requires m.Issue? || m.Mark?
  {
    match m
    case Issue(command, ok, failed) =>
      var view := committed + b.changes;
      var c := command.config;
      if c in view && command.rewrite(view[c]).Some?
      then Block(ok, b.changes[c := command.rewrite(view[c]).value], b.affected)
      else b.(local := failed)
    case Mark(config, next) => Block(next, b.changes, b.affected + {config})
  }

  /** The block after its first n moves when nobody else is around; None if it ends sooner. */
  ghost function Alone<L>(body: Body<L>, committed: Store, n: nat): Option<Block<L>> {
    if n == 0 then Some(Block(body.start, map[], {}))
    else match Alone(body, committed, n - 1)
      case None => None
      case Some(b) =>
        var m := body.next(b.local, committed + b.changes);
        if m.Issue? || m.Mark? then Some(Carry(committed, b, m)) else None
  }

  function Only(changes: Store, configs: set<string>): Store {
    map c | c in changes && c in configs :: changes[c]
  }

  /** One finished block: who ran which body, how many moves it made, how it ended. */
  datatype Entry<!L> = Entry(t: Tid, body: Body<L>, moves: nat, normal: bool)

  /** The files after the finished blocks are run one after the other, each by itself. */
  ghost function Replay<L>(initial: Store, log: seq<Entry<L>>): Store {
    if log == [] then initial
    else
      var before, e := Replay(initial, log[..|log| - 1]), log[|log| - 1];
      match Alone(e.body, before, e.moves)
      case Some(b) => if e.normal then before + Only(b.changes, b.affected) else before
      case None => before
  }

  // ---------------------------------------------------------------- the system

  datatype Phase<!L> =
    | Queued(body: Body<L>)                                              // in writelock.acquire, or just past it
    | Running(body: Body<L>, moves: nat, local: L, affected: set<string>)
    | Committing(left: set<string>)
    | Leaving                                                            // about to release the lock

  /** changes is the one CHANGES_DIR of all threads; entered lists who got into a block, in order. */
  datatype Sys<!L> = Sys(
    lock: RwLock.State,
    committed: Store,
    changes: Store,
    phase: map<Tid, Phase<L>>,
    entered: seq<Tid>,
    log: seq<Entry<L>>)

  datatype Action<!L> =
    | Begin(t: Tid, body: Body<L>)          // call __enter__
    | LockStep(a: RwLock.Action)            // a step inside acquire or release, or of a reader
    | Cleanup(t: Tid)                       // the end of __enter__
    | Proceed(t: Tid)                       // the next move of the body
    | CommitOne(t: Tid, config: string)     // commit and revert of one config
    | Close(t: Tid)                         // nothing left to commit

  function Init<L>(threads: set<Tid>, initial: Store): Sys<L> {
    Sys(RwLock.Init(threads), initial, map[], map[], [], [])
  }

  predicate Inside(s: RwLock.State, t: Tid) {
    t in s.pc && s.pc[t].Writing?
  }

  /** A thread inside its block releases the lock only when it is leaving. */
  ghost predicate MayStep<L>(s: Sys<L>, a: RwLock.Action) {
    && !a.StartWrite?
    && (a.Go? && Inside(s.lock, a.t) ==> a.t in s.phase && s.phase[a.t].Leaving?)
  }

  ghost function Step<L>(s: Sys<L>, a: Action<L>): Option<Sys<L>> {
    match a
    case Begin(t, body) =>
      (match RwLock.Step(s.lock, RwLock.StartWrite(t))
       case None => None
       case Some(lock) => Some(s.(lock := lock, phase := s.phase[t := Queued(body)])))
    case LockStep(b) =>
      if !MayStep(s, b) then None
      else (match RwLock.Step(s.lock, b)
            case None => None
            case Some(lock) =>
              Some(s.(lock := lock, phase := if b.Go? && Inside(s.lock, b.t) then s.phase - {b.t} else s.phase)))
    case Cleanup(t) =>
      if !Inside(s.lock, t) || t !in s.phase || !s.phase[t].Queued? then None
      else
        var body := s.phase[t].body;
        Some(s.(changes := map[], phase := s.phase[t := Running(body, 0, body.start, {})], entered := s.entered + [t]))
    case Proceed(t) =>
      if !Inside(s.lock, t) || t !in s.phase || !s.phase[t].Running? then None else Some(Advance(s, t))
    case CommitOne(t, c) =>
      if !Inside(s.lock, t) || t !in s.phase || !s.phase[t].Committing? || c !in s.phase[t].left then None
      else Some(s.(committed := s.committed + Only(s.changes, {c}), changes := s.changes - {c},
                   phase := s.phase[t := Committing(s.phase[t].left - {c})]))
    case Close(t) =>
      if !Inside(s.lock, t) || t !in s.phase || s.phase[t] != Committing({}) then None
      else Some(s.(phase := s.phase[t := Leaving]))
  }

  ghost function Advance<L>(s: Sys<L>, t: Tid): Sys<L>
    requires t in s.phase && s.phase[t].Running?
  {
    var p := s.phase[t];
    match p.body.next(p.local, s.committed + s.changes)
    case Finish =>
      s.(log := s.log + [Entry(t, p.body, p.moves, true)], phase := s.phase[t := Committing(p.affected)])
    case Raise =>
      s.(log := s.log + [Entry(t, p.body, p.moves, false)], phase := s.phase[t := Leaving])
    case m =>
      var b := Carry(s.committed, Block(p.local, s.changes, p.affected), m);
      s.(changes := b.changes, phase := s.phase[t := Running(p.body, p.moves + 1, b.local, b.affected)])
  }

  ghost function Run<L>(s: Sys<L>, schedule: seq<Action<L>>): Option<Sys<L>>
    decreases |schedule|
  {
    if schedule == [] then Some(s)
    else match Step(s, schedule[0])
      case None => None
      case Some(s') => Run(s', schedule[1..])
  }

  // ---------------------------------------------------------------- the invariant

  predicate Acquiring(p: RwLock.Pc) {
    p.WriteTakeTurn? || p.WriteTakeGate? || (RwLock.HoldsGateAsWriter(p) && !p.Writing?)
  }

  /** A thread has a phase exactly while it is between `__enter__` and the end of `__exit__`. */
  ghost predicate PhasesFit<L>(s: Sys<L>) {
    && (forall t | t in s.phase && s.phase[t].Queued? :: Inside(s.lock, t) || (t in s.lock.pc && Acquiring(s.lock.pc[t])))
    && (forall t | t in s.phase && !s.phase[t].Queued? :: Inside(s.lock, t))
    && (forall t | t in s.lock.pc && Acquiring(s.lock.pc[t]) :: t in s.phase && s.phase[t].Queued?)
  }

  predicate Active<L>(p: Phase<L>) {
    p.Running? || p.Committing?
  }

  ghost predicate AnyActive<L>(s: Sys<L>) {
    exists t :: t in s.phase && Active(s.phase[t])
  }

  ghost predicate AnyRunning<L>(s: Sys<L>) {
    exists t :: t in s.phase && s.phase[t].Running?
  }

  /** What a block under way means for the files. */
  ghost predicate BlockFits<L>(s: Sys<L>, initial: Store, p: Phase<L>) {
    match p
    case Running(body, moves, local, affected) =>
      && s.committed == Replay(initial, s.log)
      && Alone(body, s.committed, moves) == Some(Block(local, s.changes, affected))
    case Committing(left) => s.committed + Only(s.changes, left) == Replay(initial, s.log)
    case _ => true
  }

  ghost predicate FilesFit<L>(s: Sys<L>, initial: Store) {
    && (forall t | t in s.phase :: BlockFits(s, initial, s.phase[t]))
    && (!AnyActive(s) ==> s.committed == Replay(initial, s.log))
  }

  /** Blocks finish in the order in which they were entered. */
  ghost predicate OrderFits<L>(s: Sys<L>) {
    && |s.entered| == |s.log| + (if AnyRunning(s) then 1 else 0)
    && (forall i | 0 <= i < |s.log| :: s.log[i].t == s.entered[i])
    && (forall t | t in s.phase && s.phase[t].Running? :: s.entered[|s.log|] == t)
  }

  ghost predicate Inv<L>(s: Sys<L>, initial: Store) {
    RwLock.Inv(s.lock) && PhasesFit(s) && FilesFit(s, initial) && OrderFits(s)
  }

  /** Threads past `__enter__` are one thread: the lock admits one writer. */
  lemma OneInside(s: RwLock.State, t: Tid, u: Tid)
    requires RwLock.Inv(s) && Inside(s, t) && Inside(s, u)
    ensures t == u
  {
  }

  /** While a thread is inside, every other thread with a phase is still queueing. */
  lemma OthersQueue<L>(s: Sys<L>, t: Tid)
    requires RwLock.Inv(s.lock) && PhasesFit(s) && Inside(s.lock, t)
    ensures forall u | u in s.phase && u != t :: s.phase[u].Queued?
  {
    forall u | u in s.phase && u != t ensures s.phase[u].Queued? {
      if Inside(s.lock, u) { OneInside(s.lock, t, u); }
    }
  }

  lemma InitInv<L>(threads: set<Tid>, initial: Store)
    ensures Inv(Init<L>(threads, initial), initial)
  {
    RwLock.InitInv(threads);
  }

  /** Lock steps and Begin move one thread of the lock and leave files, log and entries alone. */
  ghost predicate SameFiles<L>(s: Sys<L>, s': Sys<L>) {
    && s'.committed == s.committed && s'.changes == s.changes
    && s'.log == s.log && s'.entered == s.entered
  }

  /** Phases that are neither running nor committing come and go without touching the files. */
  lemma IdlePhasesKeepFit<L>(s: Sys<L>, s': Sys<L>, initial: Store, t: Tid)
    requires FilesFit(s, initial) && OrderFits(s) && SameFiles(s, s')
    requires forall u | u != t :: (u in s.phase <==> u in s'.phase) && (u in s.phase ==> s'.phase[u] == s.phase[u])
    requires t in s.phase ==> !Active(s.phase[t])
    requires t in s'.phase ==> s'.phase[t].Queued?
    ensures FilesFit(s', initial) && OrderFits(s')
  {
    hide Replay, Alone;
    forall u | u in s'.phase ensures BlockFits(s', initial, s'.phase[u]) {
      if u != t { assert BlockFits(s, initial, s.phase[u]); }
    }
    if AnyActive(s) {
      var u :| u in s.phase && Active(s.phase[u]);
      assert u in s'.phase && Active(s'.phase[u]);
    }
    if AnyRunning(s) {
      var u :| u in s.phase && s.phase[u].Running?;
      assert u in s'.phase && s'.phase[u].Running?;
    }
    if AnyRunning(s') {
      var u :| u in s'.phase && s'.phase[u].Running?;
      assert u in s.phase && s.phase[u].Running?;
    }
  }

  lemma BeginInv<L>(s: Sys<L>, initial: Store, t: Tid, body: Body<L>)
    requires Inv(s, initial) && Step(s, Begin(t, body)).Some?
    ensures Inv(Step(s, Begin(t, body)).value, initial)
  {
    RwLock.StepInv(s.lock, RwLock.StartWrite(t));
    hide RwLock.Inv, Replay, Alone, FilesFit, OrderFits, PhasesFit;
    BeginKeepsPhases(s, t, body);
    IdlePhasesKeepFit(s, Step(s, Begin(t, body)).value, initial, t);
  }

  lemma BeginKeepsPhases<L>(s: Sys<L>, t: Tid, body: Body<L>)
    requires PhasesFit(s) && Step(s, Begin(t, body)).Some?
    ensures PhasesFit(Step(s, Begin(t, body)).value) && t !in s.phase
  {
    assert Step(s, Begin(t, body)).value.lock.pc == s.lock.pc[t := RwLock.WriteTakeTurn];
  }

  lemma LockStepInv<L>(s: Sys<L>, initial: Store, a: RwLock.Action)
    requires Inv(s, initial) && Step(s, LockStep(a)).Some?
    ensures Inv(Step(s, LockStep(a)).value, initial)
  {
    RwLock.StepInv(s.lock, a);
    hide RwLock.Inv, Replay, Alone, FilesFit, OrderFits;
    var s' := Step(s, LockStep(a)).value;
    LockStepKeepsPhases(s, a);
    IdlePhasesKeepFit(s, s', initial, a.t);
  }

  /** A thread that is acquiring goes on acquiring until it is inside, and no other starts. */
  lemma AcquiringMoves(s: RwLock.State, a: RwLock.Action)
    requires RwLock.Step(s, a).Some? && !a.StartWrite?
    ensures var s' := RwLock.Step(s, a).value;
      && a.t in s.pc && s'.pc == s.pc[a.t := s'.pc[a.t]]
      && (Acquiring(s'.pc[a.t]) ==> Acquiring(s.pc[a.t]))
      && (Acquiring(s.pc[a.t]) ==> Acquiring(s'.pc[a.t]) || s'.pc[a.t].Writing?)
      && (s.pc[a.t].Writing? ==> a.Go? && !Acquiring(s'.pc[a.t]))
  {
    RwLock.StepMoves(s, a);
    MoverMoves(s, a);
    hide RwLock.Step, Acquiring;
  }

  lemma MoverMoves(s: RwLock.State, a: RwLock.Action)
    requires RwLock.Step(s, a).Some? && !a.StartWrite? && a.t in RwLock.Step(s, a).value.pc
    ensures var p := RwLock.Step(s, a).value.pc[a.t];
      && (Acquiring(p) ==> Acquiring(s.pc[a.t]))
      && (Acquiring(s.pc[a.t]) ==> Acquiring(p) || p.Writing?)
      && (s.pc[a.t].Writing? ==> a.Go? && !Acquiring(p))
  {
    if a.Go? {
      if RwLock.Writes(s.pc[a.t]) {
        WriterMoves(s, a.t);
      } else {
        ReaderMoves(s, a.t);
      }
      hide RwLock.AdvanceReader, RwLock.AdvanceWriter, Acquiring;
    }
  }

  lemma WriterMoves(s: RwLock.State, t: Tid)
    requires t in s.pc && RwLock.AdvanceWriter(s, t).Some? && t in RwLock.AdvanceWriter(s, t).value.pc
    ensures var p := RwLock.AdvanceWriter(s, t).value.pc[t];
      && (Acquiring(p) ==> Acquiring(s.pc[t]))
      && (Acquiring(s.pc[t]) ==> Acquiring(p) || p.Writing?)
      && (s.pc[t].Writing? ==> !Acquiring(p))
  {
  }

  lemma ReaderMoves(s: RwLock.State, t: Tid)
    requires t in s.pc && RwLock.AdvanceReader(s, t).Some? && t in RwLock.AdvanceReader(s, t).value.pc
    ensures !Acquiring(s.pc[t]) && !s.pc[t].Writing? && !Acquiring(RwLock.AdvanceReader(s, t).value.pc[t])
  {
  }

  /** A thread keeps its place in the queue, and a leaving one drops its phase. */
  lemma LockStepKeepsPhases<L>(s: Sys<L>, a: RwLock.Action)
    requires PhasesFit(s) && Step(s, LockStep(a)).Some?
    ensures PhasesFit(Step(s, LockStep(a)).value)
    ensures a.t in s.phase ==> !Active(s.phase[a.t])
    ensures a.t in Step(s, LockStep(a)).value.phase ==> Step(s, LockStep(a)).value.phase[a.t].Queued?
  {
    AcquiringMoves(s.lock, a);
    hide RwLock.Step, Acquiring;
  }

  /** All that there is to the files when one thread is past the queue. */
  lemma OneBlock<L>(s: Sys<L>, initial: Store, t: Tid)
    requires t in s.phase && forall u | u in s.phase && u != t :: s.phase[u].Queued?
    requires BlockFits(s, initial, s.phase[t])
    requires !Active(s.phase[t]) ==> s.committed == Replay(initial, s.log)
    ensures FilesFit(s, initial)
  {
    hide Replay, Alone, Only;
    if Active(s.phase[t]) { assert AnyActive(s); }
    forall u | u in s.phase ensures BlockFits(s, initial, s.phase[u]) { }
  }

  /** And to the order of the blocks. */
  lemma OneOrder<L>(s: Sys<L>, t: Tid)
    requires t in s.phase && forall u | u in s.phase && u != t :: s.phase[u].Queued?
    requires |s.entered| == |s.log| + if s.phase[t].Running? then 1 else 0
    requires forall i | 0 <= i < |s.log| :: s.log[i].t == s.entered[i]
    requires s.phase[t].Running? ==> s.entered[|s.log|] == t
    ensures OrderFits(s)
  {
    OneRunning(s, t);
  }

  lemma OneRunning<L>(s: Sys<L>, t: Tid)
    requires t in s.phase && forall u | u in s.phase && u != t :: s.phase[u].Queued?
    ensures AnyRunning(s) == s.phase[t].Running? && AnyActive(s) == Active(s.phase[t])
  {
    if s.phase[t].Running? { assert AnyRunning(s); }
    if Active(s.phase[t]) { assert AnyActive(s); }
  }

  /** What holds before a thread past the queue makes its next step. */
  lemma BeforeStep<L>(s: Sys<L>, initial: Store, t: Tid)
    requires Inv(s, initial) && Inside(s.lock, t) && t in s.phase
    ensures forall u | u in s.phase && u != t :: s.phase[u].Queued?
    ensures BlockFits(s, initial, s.phase[t]) && (!Active(s.phase[t]) ==> s.committed == Replay(initial, s.log))
    ensures |s.entered| == |s.log| + if s.phase[t].Running? then 1 else 0
    ensures forall i | 0 <= i < |s.log| :: s.log[i].t == s.entered[i]
    ensures s.phase[t].Running? ==> s.entered[|s.log|] == t
  {
    OthersQueue(s, t);
    OneRunning(s, t);
    hide RwLock.Inv, Replay, Alone, PhasesFit, BlockFits;
  }

  lemma CleanupInv<L>(s: Sys<L>, initial: Store, t: Tid)
    requires Inv(s, initial) && Step(s, Cleanup(t)).Some?
    ensures Inv(Step(s, Cleanup(t)).value, initial)
  {
    var s' := Step(s, Cleanup(t)).value;
    BeforeStep(s, initial, t);
    CleanupKeepsPhases(s, t);
    hide RwLock.Inv, Replay, PhasesFit, FilesFit, OrderFits;
    OneBlock(s', initial, t);
    OneOrder(s', t);
  }

  lemma CleanupKeepsPhases<L>(s: Sys<L>, t: Tid)
    requires PhasesFit(s) && Step(s, Cleanup(t)).Some?
    ensures PhasesFit(Step(s, Cleanup(t)).value)
  {
    hide Acquiring;
    assert !Acquiring(s.lock.pc[t]) by { WritersAcquiredAlready(s.lock.pc[t]); }
  }

  lemma WritersAcquiredAlready(p: RwLock.Pc)
    requires p.Writing?
    ensures !Acquiring(p)
  {
  }

  /** The move the body of a running block makes next. */
  ghost function NextMove<L>(s: Sys<L>, t: Tid): Move<L>
    requires t in s.phase && s.phase[t].Running?
  {
    s.phase[t].body.next(s.phase[t].local, s.committed + s.changes)
  }

  lemma CarryOnInv<L>(s: Sys<L>, initial: Store, t: Tid)
    requires Inv(s, initial) && Step(s, Proceed(t)).Some? && (NextMove(s, t).Issue? || NextMove(s, t).Mark?)
    ensures Inv(Step(s, Proceed(t)).value, initial)
  {
    var s' := Step(s, Proceed(t)).value;
    BeforeStep(s, initial, t);
    CarriedBlockFits(s, initial, t);
    hide RwLock.Inv, Replay, Alone, FilesFit, OrderFits, BlockFits, PhasesFit, Advance;
    SamePhases(s, s', t, s'.phase[t]);
    OneBlock(s', initial, t);
    OneOrder(s', t);
  }

  /** One more move, as the block would make it alone. */
  lemma CarriedBlockFits<L>(s: Sys<L>, initial: Store, t: Tid)
    requires t in s.phase && s.phase[t].Running? && BlockFits(s, initial, s.phase[t])
    requires NextMove(s, t).Issue? || NextMove(s, t).Mark?
    ensures var s' := Advance(s, t);
      && t in s'.phase && s'.phase == s.phase[t := s'.phase[t]] && s'.phase[t].Running? && s'.lock == s.lock
      && s'.log == s.log && s'.entered == s.entered && BlockFits(s', initial, s'.phase[t])
  {
    hide Replay, Carry;
  }

  /** A thread past the queue stays past it, and nobody else moves. */
  lemma SamePhases<L>(s: Sys<L>, s': Sys<L>, t: Tid, p: Phase<L>)
    requires PhasesFit(s) && t in s.phase && !s.phase[t].Queued? && !p.Queued?
    requires s'.lock == s.lock && s'.phase == s.phase[t := p]
    ensures PhasesFit(s')
  {
    hide Acquiring;
  }

  lemma FinishInv<L>(s: Sys<L>, initial: Store, t: Tid)
    requires Inv(s, initial) && Step(s, Proceed(t)).Some? && NextMove(s, t).Finish?
    ensures Inv(Step(s, Proceed(t)).value, initial)
  {
    var s' := Step(s, Proceed(t)).value;
    BeforeStep(s, initial, t);
    SamePhases(s, s', t, s'.phase[t]);
    assert s'.log[..|s'.log| - 1] == s.log;
    FinishCommits(s, initial, t);
    hide RwLock.Inv, Replay, Alone, PhasesFit, FilesFit, OrderFits, BlockFits, Only;
    OneBlock(s', initial, t);
    OneOrder(s', t);
  }

  /** What is still to be committed makes the files what the log says. */
  lemma FinishCommits<L>(s: Sys<L>, initial: Store, t: Tid)
    requires t in s.phase && s.phase[t].Running? && NextMove(s, t).Finish? && BlockFits(s, initial, s.phase[t])
    ensures t in Advance(s, t).phase && BlockFits(Advance(s, t), initial, Advance(s, t).phase[t])
  {
    var s' := Advance(s, t);
    assert s'.log[..|s'.log| - 1] == s.log;
    hide Alone, Only;
  }

  lemma RaiseInv<L>(s: Sys<L>, initial: Store, t: Tid)
    requires Inv(s, initial) && Step(s, Proceed(t)).Some? && NextMove(s, t).Raise?
    ensures Inv(Step(s, Proceed(t)).value, initial)
  {
    var s' := Step(s, Proceed(t)).value;
    BeforeStep(s, initial, t);
    SamePhases(s, s', t, s'.phase[t]);
    RaiseLeavesFiles(initial, s.log, Entry(t, s.phase[t].body, s.phase[t].moves, false));
    hide RwLock.Inv, Replay, Alone, PhasesFit, FilesFit, OrderFits, Only;
    OneBlock(s', initial, t);
    OneOrder(s', t);
  }

  lemma RaiseLeavesFiles<L>(initial: Store, log: seq<Entry<L>>, e: Entry<L>)
    requires !e.normal
    ensures Replay(initial, log + [e]) == Replay(initial, log)
  {
    var all := log + [e];
    assert all[..|all| - 1] == log && all[|all| - 1] == e;
    hide Alone, Only;
  }

  lemma CommitOneInv<L>(s: Sys<L>, initial: Store, t: Tid, c: string)
    requires Inv(s, initial) && Step(s, CommitOne(t, c)).Some?
    ensures Inv(Step(s, CommitOne(t, c)).value, initial)
  {
    var s', left := Step(s, CommitOne(t, c)).value, s.phase[t].left;
    BeforeStep(s, initial, t);
    SamePhases(s, s', t, s'.phase[t]);
    CommitSplits(s.committed, s.changes, left, c);
    hide RwLock.Inv, Replay, Alone, PhasesFit, FilesFit, OrderFits, Only;
    OneBlock(s', initial, t);
    OneOrder(s', t);
  }

  /** Committing one config first and the rest after is committing them all. */
  lemma CommitSplits(committed: Store, changes: Store, left: set<string>, c: string)
    requires c in left
    ensures committed + Only(changes, {c}) + Only(changes - {c}, left - {c}) == committed + Only(changes, left)
  {
  }

  lemma CloseInv<L>(s: Sys<L>, initial: Store, t: Tid)
    requires Inv(s, initial) && Step(s, Close(t)).Some?
    ensures Inv(Step(s, Close(t)).value, initial)
  {
    var s' := Step(s, Close(t)).value;
    BeforeStep(s, initial, t);
    NothingLeft(s.committed, s.changes);
    assert s'.lock == s.lock && s'.phase == s.phase[t := Leaving] && SameFiles(s, s');
    assert s'.committed == Replay(initial, s'.log);
    hide RwLock.Inv, Replay, Alone, PhasesFit, FilesFit, OrderFits, Only, Step;
    SamePhases(s, s', t, Leaving);
    OneBlock(s', initial, t);
    OneOrder(s', t);
  }

  lemma NothingLeft(committed: Store, changes: Store)
    ensures committed + Only(changes, {}) == committed
  {
  }

  lemma {:induction false} RunInv<L>(s: Sys<L>, initial: Store, schedule: seq<Action<L>>)
    requires Inv(s, initial) && Run(s, schedule).Some?
    ensures Inv(Run(s, schedule).value, initial)
    decreases |schedule|
  {
    if schedule != [] {
      match schedule[0] {
        case Begin(t, body) => BeginInv(s, initial, t, body);
        case LockStep(a) => LockStepInv(s, initial, a);
        case Cleanup(t) => CleanupInv(s, initial, t);
        case Proceed(t) =>
          if NextMove(s, t).Issue? || NextMove(s, t).Mark? { CarryOnInv(s, initial, t); }
          else if NextMove(s, t).Finish? { FinishInv(s, initial, t); }
          else { RaiseInv(s, initial, t); }
        case CommitOne(t, c) => CommitOneInv(s, initial, t, c);
        case Close(t) => CloseInv(s, initial, t);
      }
      RunInv(Step(s, schedule[0]).value, initial, schedule[1..]);
    }
  }

  // ---------------------------------------------------------------- the theorems

  /** In every interleaving: whenever no block is under way, the files are what the finished
      blocks leave when each runs by itself, in the order in which they got the lock. */
  lemma Serializable<L>(threads: set<Tid>, initial: Store, schedule: seq<Action<L>>)
    requires Run(Init(threads, initial), schedule).Some?
    ensures var s := Run(Init(threads, initial), schedule).value;
      && (!AnyActive(s) ==> s.committed == Replay(initial, s.log))
      && |s.entered| == |s.log| + (if AnyRunning(s) then 1 else 0)
      && (forall i | 0 <= i < |s.log| :: s.log[i].t == s.entered[i])
  {
    InitInv<L>(threads, initial);
    RunInv(Init(threads, initial), initial, schedule);
  }

  /** A block sees the files as the normally ended blocks before it left them and its own pending
      changes, exactly as if it ran alone: not a partial commit, nothing of an aborted block. */
  lemma Isolated<L>(threads: set<Tid>, initial: Store, schedule: seq<Action<L>>, t: Tid)
    requires Run(Init(threads, initial), schedule).Some?
    requires var s := Run(Init(threads, initial), schedule).value; t in s.phase && s.phase[t].Running?
    ensures var s := Run(Init(threads, initial), schedule).value;
      && s.committed == Replay(initial, s.log)
      && Alone(s.phase[t].body, Replay(initial, s.log), s.phase[t].moves)
         == Some(Block(s.phase[t].local, s.changes, s.phase[t].affected))
      && (s.phase[t].moves == 0 ==> s.committed + s.changes == Replay(initial, s.log))
  {
    InitInv<L>(threads, initial);
    RunInv(Init(threads, initial), initial, schedule);
    var s := Run(Init(threads, initial), schedule).value;
    if s.phase[t].moves == 0 { assert s.committed + map[] == s.committed; }
  }

  /** The finished blocks that ended normally. */
  ghost function NormalEnds<L>(log: seq<Entry<L>>): seq<Entry<L>> {
    if log == [] then []
    else NormalEnds(log[..|log| - 1]) + if log[|log| - 1].normal then [log[|log| - 1]] else []
  }

  /** Blocks that ended by an exception might as well not have run. */
  lemma {:induction false} AbortsLeaveNothing<L>(initial: Store, log: seq<Entry<L>>)
    ensures Replay(initial, log) == Replay(initial, NormalEnds(log))
  {
    if log != [] {
      var front, e := log[..|log| - 1], log[|log| - 1];
      AbortsLeaveNothing(initial, front);
      if e.normal {
        var kept := NormalEnds(log);
        assert kept[..|kept| - 1] == NormalEnds(front) && kept[|kept| - 1] == e;
      } else {
        assert NormalEnds(log) == NormalEnds(front);
      }
    }
  }

  /** What one more block leaves: all that it saw of its own edits if it ends normally and has noted every
      config it changed, the files as they were if it raises. */
  lemma CommitsWhole<L>(initial: Store, log: seq<Entry<L>>, e: Entry<L>)
    ensures !e.normal ==> Replay(initial, log + [e]) == Replay(initial, log)
    ensures var before := Replay(initial, log);
      var b := Alone(e.body, before, e.moves);
      e.normal && b.Some? && b.value.changes.Keys <= b.value.affected ==>
        Replay(initial, log + [e]) == before + b.value.changes
  {
    var all, before := log + [e], Replay(initial, log);
    assert all[..|all| - 1] == log && all[|all| - 1] == e;
    hide Alone;
    match Alone(e.body, before, e.moves) {
      case None =>
      case Some(b) => if b.changes.Keys <= b.affected { assert Only(b.changes, b.affected) == b.changes; }
    }
  }
}
