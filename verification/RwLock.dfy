/** The reader/writer lock as a step machine.

    A step is one operation on a lock, on the condition or on the counter, so a schedule
    can switch threads between any two of them.  The counter is loaded and stored in
    separate steps.  Nothing here assumes fairness. */
module RwLock {
  import opened Wrappers

  type Tid = nat

  /** Where a thread stands.  A name says which operation comes next. */
  datatype Pc =
    | Idle
      // ReadLock.acquire
    | ReadTakeGate | ReadTakeCounter | ReadLoad | ReadStore(seen: int) | ReadNotify | ReadDropCounter | ReadDropGate
    | Reading
      // ReadLock.release
    | DoneTakeCounter | DoneLoad | DoneStore(seen: int) | DoneNotify | DoneDropCounter
      // WriteLock.acquire
    | WriteTakeTurn | WriteTakeGate | WriteTakeCounter | WriteTest | WriteWait | WriteDropCounter
    | Writing
      // WriteLock.release: the gate goes first, straight from Writing
    | WriteDropTurn

  /** turn is `_writer_lock`, gate is `_new_readers`, counterLock is the condition's lock,
      waiters the condition's queue of threads not yet notified. */
  datatype State = State(
    pc: map<Tid, Pc>,
    turn: Option<Tid>,
    gate: Option<Tid>,
    counterLock: Option<Tid>,
    waiters: seq<Tid>,
    counter: int)

  /** An idle thread picks a side; any other thread goes on to its next operation. */
  datatype Action = StartRead(t: Tid) | StartWrite(t: Tid) | Go(t: Tid)

  function Init(threads: set<Tid>): State {
    State(map t | t in threads :: Idle, None, None, None, [], 0)
  }

  function At(s: State, t: Tid, p: Pc): State {
    s.(pc := s.pc[t := p])
  }

  /** `Condition.notify`: the thread that has waited longest leaves the queue. */
  function Notify(s: State): State {
    s.(waiters := if s.waiters == [] then [] else s.waiters[1..])
  }

  /** One operation of one thread, or None when the thread is blocked or has none. */
  function Step(s: State, a: Action): Option<State> {
    if a.t !in s.pc then None
    else match a
      case StartRead(t) => if s.pc[t].Idle? then Some(At(s, t, ReadTakeGate)) else None
      case StartWrite(t) => if s.pc[t].Idle? then Some(At(s, t, WriteTakeTurn)) else None
      case Go(t) => Advance(s, t)
  }

  function Advance(s: State, t: Tid): Option<State>
    requires t in s.pc
  {
    if Writes(s.pc[t]) then AdvanceWriter(s, t) else AdvanceReader(s, t)
  }

  /** In WriteLock's acquire or release, or between them. */
  predicate Writes(p: Pc) {
    p.WriteTakeTurn? || HoldsTurn(p)
  }

  function AdvanceReader(s: State, t: Tid): Option<State>
    requires t in s.pc
  {
    match s.pc[t]
    case ReadTakeGate => if s.gate.None? then Some(At(s, t, ReadTakeCounter).(gate := Some(t))) else None
    case ReadTakeCounter => TakeCounter(s, t, ReadLoad)
    case ReadLoad => Some(At(s, t, ReadStore(s.counter)))
    case ReadStore(seen) => Some(At(s, t, ReadNotify).(counter := seen + 1))
    case ReadNotify => Some(At(Notify(s), t, ReadDropCounter))
    case ReadDropCounter => Some(At(s, t, ReadDropGate).(counterLock := None))
    case ReadDropGate => Some(At(s, t, Reading).(gate := None))
    case Reading => Some(At(s, t, DoneTakeCounter))
    case DoneTakeCounter => TakeCounter(s, t, DoneLoad)
    case DoneLoad => Some(At(s, t, DoneStore(s.counter)))
    case DoneStore(seen) => Some(At(s, t, DoneNotify).(counter := seen - 1))
    case DoneNotify => Some(At(Notify(s), t, DoneDropCounter))
    case DoneDropCounter => Some(At(s, t, Idle).(counterLock := None))
    case _ => None
  }

  function AdvanceWriter(s: State, t: Tid): Option<State>
    requires t in s.pc
  {
    match s.pc[t]
    case WriteTakeTurn => if s.turn.None? then Some(At(s, t, WriteTakeGate).(turn := Some(t))) else None
    case WriteTakeGate => if s.gate.None? then Some(At(s, t, WriteTakeCounter).(gate := Some(t))) else None
    case WriteTakeCounter => TakeCounter(s, t, WriteTest)
    case WriteTest =>
      if s.counter != 0 then Some(At(s, t, WriteWait).(counterLock := None, waiters := s.waiters + [t]))
      else Some(At(s, t, WriteDropCounter))
    case WriteWait => if t in s.waiters then None else TakeCounter(s, t, WriteTest)
    case WriteDropCounter => Some(At(s, t, Writing).(counterLock := None))
    case Writing => Some(At(s, t, WriteDropTurn).(gate := None))
    case WriteDropTurn => Some(At(s, t, Idle).(turn := None))
    case _ => None
  }

  function TakeCounter(s: State, t: Tid, p: Pc): Option<State> {
    if s.counterLock.None? then Some(At(s, t, p).(counterLock := Some(t))) else None
  }

  /** The state after a schedule, or None when it names a step that cannot be taken. */
  function Run(s: State, schedule: seq<Action>): Option<State>
    decreases |schedule|
  {
    if schedule == [] then Some(s)
    else match Step(s, schedule[0])
      case None => None
      case Some(s') => Run(s', schedule[1..])
  }

  // ---------------------------------------------------------------- the invariant

  predicate HoldsTurn(p: Pc) {
    p.WriteTakeGate? || HoldsGateAsWriter(p) || p.WriteDropTurn?
  }

  predicate HoldsGateAsWriter(p: Pc) {
    p.WriteTakeCounter? || p.WriteTest? || p.WriteWait? || p.WriteDropCounter? || p.Writing?
  }

  predicate HoldsGate(p: Pc) {
    || p.ReadTakeCounter? || p.ReadLoad? || p.ReadStore? || p.ReadNotify? || p.ReadDropCounter? || p.ReadDropGate?
    || HoldsGateAsWriter(p)
  }

  predicate HoldsCounter(p: Pc) {
    || p.ReadLoad? || p.ReadStore? || p.ReadNotify? || p.ReadDropCounter?
    || p.DoneLoad? || p.DoneStore? || p.DoneNotify? || p.DoneDropCounter?
    || p.WriteTest? || p.WriteDropCounter?
  }

  /** Between the increment and the decrement. */
  predicate Counted(p: Pc) {
    || p.ReadNotify? || p.ReadDropCounter? || p.ReadDropGate? || p.Reading?
    || p.DoneTakeCounter? || p.DoneLoad? || p.DoneStore?
  }

  function CountedThreads(pc: map<Tid, Pc>): set<Tid> {
    set t | t in pc && Counted(pc[t])
  }

  // A lock is owned by exactly the thread whose position says so.

  ghost predicate TurnOwned(s: State) {
    && (s.turn.Some? ==> s.turn.value in s.pc && HoldsTurn(s.pc[s.turn.value]))
    && (forall t | t in s.pc && HoldsTurn(s.pc[t]) :: s.turn == Some(t))
  }

  ghost predicate GateOwned(s: State) {
    && (s.gate.Some? ==> s.gate.value in s.pc && HoldsGate(s.pc[s.gate.value]))
    && (forall t | t in s.pc && HoldsGate(s.pc[t]) :: s.gate == Some(t))
  }

  ghost predicate CounterOwned(s: State) {
    && (s.counterLock.Some? ==> s.counterLock.value in s.pc && HoldsCounter(s.pc[s.counterLock.value]))
    && (forall t | t in s.pc && HoldsCounter(s.pc[t]) :: s.counterLock == Some(t))
  }

  ghost predicate CounterExact(s: State) {
    s.counter == |CountedThreads(s.pc)|
  }

  /** What was loaded under the counter lock is still the counter. */
  ghost predicate SeenFresh(s: State) {
    && (forall t | t in s.pc && s.pc[t].ReadStore? :: s.pc[t].seen == s.counter)
    && (forall t | t in s.pc && s.pc[t].DoneStore? :: s.pc[t].seen == s.counter)
  }

  ghost predicate WriterAlone(s: State) {
    forall t | t in s.pc && (s.pc[t].WriteDropCounter? || s.pc[t].Writing?) :: s.counter == 0
  }

  /** Only the gate's holder waits, and a waiter left behind at zero has its notification coming. */
  ghost predicate WakeupDue(s: State) {
    && |s.waiters| <= 1
    && (forall t | t in s.waiters :: t in s.pc && s.pc[t].WriteWait?)
    && (s.waiters != [] && s.counter == 0 ==> s.counterLock.Some? && s.counterLock.value in s.pc && s.pc[s.counterLock.value].DoneNotify?)
  }

  ghost predicate Owned(s: State) {
    TurnOwned(s) && GateOwned(s) && CounterOwned(s)
  }

  ghost predicate Inv(s: State) {
    Owned(s) && CounterExact(s) && SeenFresh(s) && WriterAlone(s) && WakeupDue(s)
  }

  lemma InitInv(threads: set<Tid>)
    ensures Inv(Init(threads))
  {
    assert CountedThreads(Init(threads).pc) == {};
  }

  lemma WithoutOne(threads: set<Tid>, t: Tid)
    ensures |threads| == |threads - {t}| + if t in threads then 1 else 0
  {
    if t !in threads { assert threads - {t} == threads; }
  }

  /** Moving one thread changes the counted set by at most that thread. */
  lemma CountedAfter(pc: map<Tid, Pc>, t: Tid, p: Pc)
    requires t in pc
    ensures |CountedThreads(pc[t := p])| ==
            |CountedThreads(pc)| - (if Counted(pc[t]) then 1 else 0) + (if Counted(p) then 1 else 0)
  {
    CountedOthers(pc, t, p);
    hide CountedThreads, Counted;
    WithoutOne(CountedThreads(pc), t);
    WithoutOne(CountedThreads(pc[t := p]), t);
  }

  lemma CountedOthers(pc: map<Tid, Pc>, t: Tid, p: Pc)
    requires t in pc
    ensures CountedThreads(pc) - {t} == CountedThreads(pc[t := p]) - {t}
    ensures t in CountedThreads(pc) <==> Counted(pc[t])
    ensures t in CountedThreads(pc[t := p]) <==> Counted(p)
  {
    hide Counted;
  }

  /** A counted thread shows in the counter. */
  lemma CountedShows(s: State, t: Tid)
    requires CounterExact(s) && t in s.pc && Counted(s.pc[t])
    ensures s.counter > 0
  {
    assert t in CountedThreads(s.pc);
  }

  /** A step moves its own thread and no other. */
  lemma StepMoves(s: State, a: Action)
    requires Step(s, a).Some?
    ensures a.t in s.pc && Step(s, a).value.pc == s.pc[a.t := Step(s, a).value.pc[a.t]]
  {
  }

  /** What a step does to one lock: taken by the thread that now holds it, free when given back. */
  predicate Handed(before: Option<Tid>, after: Option<Tid>, t: Tid, held: bool, holds: bool) {
    if held == holds then after == before
    else if holds then before.None? && after == Some(t)
    else after.None?
  }

  ghost predicate LocksHanded(s: State, s': State, t: Tid)
    requires t in s.pc && t in s'.pc
  {
    && Handed(s.turn, s'.turn, t, HoldsTurn(s.pc[t]), HoldsTurn(s'.pc[t]))
    && Handed(s.gate, s'.gate, t, HoldsGate(s.pc[t]), HoldsGate(s'.pc[t]))
    && Handed(s.counterLock, s'.counterLock, t, HoldsCounter(s.pc[t]), HoldsCounter(s'.pc[t]))
  }

  lemma ReaderHands(s: State, t: Tid)
    requires t in s.pc && !Writes(s.pc[t]) && AdvanceReader(s, t).Some?
    ensures LocksHanded(s, AdvanceReader(s, t).value, t)
  {
    ReaderHandsGate(s, t);
    ReaderHandsCounter(s, t);
    ReaderKeepsTurn(s, t);
    hide AdvanceReader, HoldsTurn, HoldsGate, HoldsCounter, Handed;
  }

  lemma ReaderKeepsTurn(s: State, t: Tid)
    requires t in s.pc && !Writes(s.pc[t]) && AdvanceReader(s, t).Some?
    ensures t in AdvanceReader(s, t).value.pc
    ensures Handed(s.turn, AdvanceReader(s, t).value.turn, t, HoldsTurn(s.pc[t]), HoldsTurn(AdvanceReader(s, t).value.pc[t]))
  {
  }

  lemma ReaderHandsGate(s: State, t: Tid)
    requires t in s.pc && !Writes(s.pc[t]) && AdvanceReader(s, t).Some?
    ensures t in AdvanceReader(s, t).value.pc
    ensures Handed(s.gate, AdvanceReader(s, t).value.gate, t, HoldsGate(s.pc[t]), HoldsGate(AdvanceReader(s, t).value.pc[t]))
  {
  }

  lemma ReaderHandsCounter(s: State, t: Tid)
    requires t in s.pc && !Writes(s.pc[t]) && AdvanceReader(s, t).Some?
    ensures t in AdvanceReader(s, t).value.pc
    ensures Handed(s.counterLock, AdvanceReader(s, t).value.counterLock, t,
                   HoldsCounter(s.pc[t]), HoldsCounter(AdvanceReader(s, t).value.pc[t]))
  {
  }

  lemma WriterHands(s: State, t: Tid)
    requires t in s.pc && Writes(s.pc[t]) && AdvanceWriter(s, t).Some?
    ensures LocksHanded(s, AdvanceWriter(s, t).value, t)
  {
    WriterHandsTurn(s, t);
    WriterHandsGate(s, t);
    WriterHandsCounter(s, t);
    hide AdvanceWriter, HoldsTurn, HoldsGate, HoldsCounter, Handed;
  }

  lemma WriterHandsTurn(s: State, t: Tid)
    requires t in s.pc && Writes(s.pc[t]) && AdvanceWriter(s, t).Some?
    ensures t in AdvanceWriter(s, t).value.pc
    ensures Handed(s.turn, AdvanceWriter(s, t).value.turn, t, HoldsTurn(s.pc[t]), HoldsTurn(AdvanceWriter(s, t).value.pc[t]))
  {
  }

  lemma WriterHandsGate(s: State, t: Tid)
    requires t in s.pc && Writes(s.pc[t]) && AdvanceWriter(s, t).Some?
    ensures t in AdvanceWriter(s, t).value.pc
    ensures Handed(s.gate, AdvanceWriter(s, t).value.gate, t, HoldsGate(s.pc[t]), HoldsGate(AdvanceWriter(s, t).value.pc[t]))
  {
  }

  lemma WriterHandsCounter(s: State, t: Tid)
    requires t in s.pc && Writes(s.pc[t]) && AdvanceWriter(s, t).Some?
    ensures t in AdvanceWriter(s, t).value.pc
    ensures Handed(s.counterLock, AdvanceWriter(s, t).value.counterLock, t,
                   HoldsCounter(s.pc[t]), HoldsCounter(AdvanceWriter(s, t).value.pc[t]))
  {
  }

  lemma StepHands(s: State, a: Action)
    requires Step(s, a).Some?
    ensures a.t in s.pc && Step(s, a).value.pc == s.pc[a.t := Step(s, a).value.pc[a.t]]
    ensures LocksHanded(s, Step(s, a).value, a.t)
  {
    StepMoves(s, a);
    hide AdvanceReader, AdvanceWriter, LocksHanded;
    if a.Go? {
      if Writes(s.pc[a.t]) { WriterHands(s, a.t); } else { ReaderHands(s, a.t); }
    } else {
      StartHands(s, a);
    }
  }

  lemma StartHands(s: State, a: Action)
    requires !a.Go? && Step(s, a).Some?
    ensures a.t in s.pc && LocksHanded(s, Step(s, a).value, a.t)
  {
  }

  lemma StepTurnOwned(s: State, a: Action)
    requires TurnOwned(s) && Step(s, a).Some?
    ensures TurnOwned(Step(s, a).value)
  {
    StepHands(s, a);
    hide Step, HoldsTurn, HoldsGate, HoldsCounter;
  }

  lemma StepGateOwned(s: State, a: Action)
    requires GateOwned(s) && Step(s, a).Some?
    ensures GateOwned(Step(s, a).value)
  {
    StepHands(s, a);
    hide Step, HoldsTurn, HoldsGate, HoldsCounter;
  }

  lemma StepCounterOwned(s: State, a: Action)
    requires CounterOwned(s) && Step(s, a).Some?
    ensures CounterOwned(Step(s, a).value)
  {
    StepHands(s, a);
    hide Step, HoldsTurn, HoldsGate, HoldsCounter;
  }

  /** Only the two stores write the counter, and what they store is one more or one less than it. */
  lemma StepCounts(s: State, a: Action)
    requires SeenFresh(s) && Step(s, a).Some?
    ensures a.t in s.pc && a.t in Step(s, a).value.pc
    ensures Step(s, a).value.counter ==
      s.counter - (if Counted(s.pc[a.t]) then 1 else 0) + (if Counted(Step(s, a).value.pc[a.t]) then 1 else 0)
    ensures Step(s, a).value.counter != s.counter ==> a.Go? && (s.pc[a.t].ReadStore? || s.pc[a.t].DoneStore?)
  {
    if a.Go? {
      if Writes(s.pc[a.t]) { WriterCounts(s, a.t); } else { ReaderCounts(s, a.t); }
      hide AdvanceReader, AdvanceWriter, Counted;
    }
  }

  lemma WriterCounts(s: State, t: Tid)
    requires t in s.pc && Writes(s.pc[t]) && AdvanceWriter(s, t).Some?
    ensures t in AdvanceWriter(s, t).value.pc
    ensures AdvanceWriter(s, t).value.counter == s.counter && !Counted(s.pc[t]) && !Counted(AdvanceWriter(s, t).value.pc[t])
  {
  }

  lemma ReaderCounts(s: State, t: Tid)
    requires SeenFresh(s) && t in s.pc && AdvanceReader(s, t).Some?
    ensures t in AdvanceReader(s, t).value.pc
    ensures AdvanceReader(s, t).value.counter ==
      s.counter - (if Counted(s.pc[t]) then 1 else 0) + (if Counted(AdvanceReader(s, t).value.pc[t]) then 1 else 0)
    ensures AdvanceReader(s, t).value.counter != s.counter ==> s.pc[t].ReadStore? || s.pc[t].DoneStore?
  {
  }

  lemma StepCounterExact(s: State, a: Action)
    requires CounterExact(s) && SeenFresh(s) && Step(s, a).Some?
    ensures CounterExact(Step(s, a).value)
  {
    StepMoves(s, a);
    StepCounts(s, a);
    hide Step, Counted, CountedThreads;
    CountedAfter(s.pc, a.t, Step(s, a).value.pc[a.t]);
  }

  /** A thread that is about to store has just loaded. */
  lemma MoverFresh(s: State, a: Action)
    requires Step(s, a).Some? && a.t in Step(s, a).value.pc
    ensures var (p, n) := (Step(s, a).value.pc[a.t], Step(s, a).value.counter);
      (p.ReadStore? ==> p.seen == n) && (p.DoneStore? ==> p.seen == n)
  {
  }

  lemma StepSeenFresh(s: State, a: Action)
    requires CounterOwned(s) && SeenFresh(s) && Step(s, a).Some?
    ensures SeenFresh(Step(s, a).value)
  {
    var s' := Step(s, a).value;
    StepMoves(s, a);
    StepCounts(s, a);
    MoverFresh(s, a);
    hide Step;
    forall u | u in s'.pc && (s'.pc[u].ReadStore? || s'.pc[u].DoneStore?)
      ensures s'.pc[u].seen == s'.counter
    {
      if u != a.t { assert s'.pc[u] == s.pc[u] && s.counterLock == Some(u); }
    }
  }

  predicate PastTest(p: Pc) {
    p.WriteDropCounter? || p.Writing?
  }

  lemma MoverAlone(s: State, a: Action)
    requires Step(s, a).Some? && a.t in s.pc && a.t in Step(s, a).value.pc && PastTest(Step(s, a).value.pc[a.t])
    ensures PastTest(s.pc[a.t]) || s.counter == 0
    ensures Step(s, a).value.counter == s.counter
  {
  }

  lemma StepWriterAlone(s: State, a: Action)
    requires Inv(s) && Step(s, a).Some?
    ensures WriterAlone(Step(s, a).value)
  {
    var s' := Step(s, a).value;
    StepMoves(s, a);
    StepCounts(s, a);
    if PastTest(s'.pc[a.t]) { MoverAlone(s, a); }
    if Counted(s.pc[a.t]) { CountedShows(s, a.t); }
    hide CountedThreads, Step;
    forall u | u in s'.pc && PastTest(s'.pc[u]) ensures s'.counter == 0 {
      if u != a.t { assert s'.pc[u] == s.pc[u] && s.gate == Some(u); }
    }
  }

  lemma StepWakeupDue(s: State, a: Action)
    requires Inv(s) && Step(s, a).Some?
    ensures WakeupDue(Step(s, a).value)
  {
    hide CountedThreads;
    if a.Go? {
      if Writes(s.pc[a.t]) { WriterWakeup(s, a.t); } else { ReaderWakeup(s, a.t); }
      hide AdvanceReader, AdvanceWriter, Inv, WakeupDue;
    }
  }

  lemma WriterWakeup(s: State, t: Tid)
    requires Owned(s) && WakeupDue(s) && t in s.pc && Writes(s.pc[t]) && AdvanceWriter(s, t).Some?
    ensures WakeupDue(AdvanceWriter(s, t).value)
  {
    WaiterHoldsLocks(s);
  }

  /** A thread that waits has the turn and the gate. */
  lemma WaiterHoldsLocks(s: State)
    requires Owned(s) && WakeupDue(s)
    ensures forall t | t in s.waiters :: t in s.pc && s.pc[t].WriteWait? && s.turn == Some(t) && s.gate == Some(t)
    ensures s.waiters != [] ==> s.waiters[0] in s.waiters
  {
  }

  lemma ReaderWakeup(s: State, t: Tid)
    requires Owned(s) && SeenFresh(s) && WakeupDue(s) && t in s.pc && !Writes(s.pc[t]) && AdvanceReader(s, t).Some?
    requires CounterExact(s)
    ensures WakeupDue(AdvanceReader(s, t).value)
  {
    hide CountedThreads;
    WaiterHoldsLocks(s);
  }

  lemma StepInv(s: State, a: Action)
    requires Inv(s) && Step(s, a).Some?
    ensures Inv(Step(s, a).value)
  {
    StepTurnOwned(s, a);
    StepGateOwned(s, a);
    StepCounterOwned(s, a);
    StepCounterExact(s, a);
    StepSeenFresh(s, a);
    StepWriterAlone(s, a);
    StepWakeupDue(s, a);
  }

  lemma {:induction false} RunInv(s: State, schedule: seq<Action>)
    requires Inv(s) && Run(s, schedule).Some?
    ensures Inv(Run(s, schedule).value)
    decreases |schedule|
  {
    if schedule != [] {
      StepInv(s, schedule[0]);
      RunInv(Step(s, schedule[0]).value, schedule[1..]);
    }
  }

  lemma ReachableInv(threads: set<Tid>, schedule: seq<Action>)
    requires Run(Init(threads), schedule).Some?
    ensures Inv(Run(Init(threads), schedule).value)
  {
    InitInv(threads);
    RunInv(Init(threads), schedule);
  }

  // ---------------------------------------------------------------- safety

  /** Whatever the schedule: the counter is exact, writers exclude each other, and a writer
      inside excludes every reader between its increment and its decrement. */
  lemma Exclusion(threads: set<Tid>, schedule: seq<Action>)
    requires Run(Init(threads), schedule).Some?
    ensures var s := Run(Init(threads), schedule).value;
      && s.counter == |CountedThreads(s.pc)|
      && (forall t, u | t in s.pc && u in s.pc && s.pc[t].Writing? && s.pc[u].Writing? :: t == u)
      && (forall t, u | t in s.pc && u in s.pc && s.pc[t].Writing? :: !Counted(s.pc[u]))
  {
    ReachableInv(threads, schedule);
    var s := Run(Init(threads), schedule).value;
    forall t, u | t in s.pc && u in s.pc && s.pc[t].Writing? ensures !Counted(s.pc[u]) {
      if Counted(s.pc[u]) { CountedShows(s, u); }
    }
  }

  /** At most one thread is in `wait()`, and when nobody holds the counter lock a thread that
      has not been notified waits for a positive counter, so a release is still to come. */
  lemma NoLostWakeup(threads: set<Tid>, schedule: seq<Action>)
    requires Run(Init(threads), schedule).Some?
    ensures var s := Run(Init(threads), schedule).value;
      && (forall t, u | t in s.pc && u in s.pc && s.pc[t].WriteWait? && s.pc[u].WriteWait? :: t == u)
      && (s.waiters != [] && s.counterLock.None? ==> s.counter > 0 && CountedThreads(s.pc) != {})
  {
    ReachableInv(threads, schedule);
  }

  predicate Outside(p: Pc) {
    p.Idle? || p.Reading? || p.Writing?
  }

  /** While a thread is inside an acquire or a release, some busy thread can take a step. */
  lemma NoDeadlock(threads: set<Tid>, schedule: seq<Action>, t: Tid)
    requires Run(Init(threads), schedule).Some?
    requires t in Run(Init(threads), schedule).value.pc && !Outside(Run(Init(threads), schedule).value.pc[t])
    ensures var s := Run(Init(threads), schedule).value;
      exists u | u in s.pc :: !s.pc[u].Idle? && Step(s, Go(u)).Some?
  {
    ReachableInv(threads, schedule);
    var s := Run(Init(threads), schedule).value;
    var u := Unblocked(s, t);
    assert !s.pc[u].Idle? && Step(s, Go(u)).Some?;
  }

  /** Follows the chain of who waits for whom down to a thread that can move. */
  lemma Unblocked(s: State, t: Tid) returns (u: Tid)
    requires Inv(s) && t in s.pc && !Outside(s.pc[t])
    ensures u in s.pc && !s.pc[u].Idle? && Step(s, Go(u)).Some?
  {
    hide Step;
    if s.counterLock.Some? {
      u := s.counterLock.value;
      HolderGoes(s, u);
    } else if s.waiters != [] {
      u := SomeCounted(s);
      LeaverGoes(s, u);
    } else if s.gate.Some? {
      u := s.gate.value;
      GateHolderGoes(s, u);
    } else if s.pc[t].WriteTakeTurn? && s.turn.Some? {
      u := s.turn.value;
      EveryoneGoes(s, u);
    } else {
      u := t;
      EveryoneGoes(s, u);
    }
  }

  /** Nobody waits for a lock that the thread at the counter needs. */
  lemma HolderGoes(s: State, u: Tid)
    requires u in s.pc && HoldsCounter(s.pc[u])
    ensures !s.pc[u].Idle? && Step(s, Go(u)).Some?
  {
  }

  /** Somebody waits, so the counter is positive: a reader is on its way out. */
  lemma SomeCounted(s: State) returns (u: Tid)
    requires Inv(s) && s.counterLock.None? && s.waiters != []
    ensures u in s.pc && Counted(s.pc[u]) && !HoldsGate(s.pc[u]) && !HoldsCounter(s.pc[u])
  {
    assert CountedThreads(s.pc) != {};
    u :| u in CountedThreads(s.pc);
    assert s.gate == Some(s.waiters[0]);
  }

  lemma LeaverGoes(s: State, u: Tid)
    requires u in s.pc && Counted(s.pc[u]) && !HoldsGate(s.pc[u]) && !HoldsCounter(s.pc[u]) && s.counterLock.None?
    ensures !s.pc[u].Idle? && Step(s, Go(u)).Some?
  {
  }

  lemma GateHolderGoes(s: State, u: Tid)
    requires u in s.pc && HoldsGate(s.pc[u]) && s.counterLock.None? && s.waiters == []
    ensures !s.pc[u].Idle? && Step(s, Go(u)).Some?
  {
  }

  /** With gate and counter free, only the turn can be missing. */
  lemma EveryoneGoes(s: State, u: Tid)
    requires u in s.pc && !s.pc[u].Idle? && s.counterLock.None? && s.waiters == [] && s.gate.None?
    requires s.pc[u].WriteTakeTurn? ==> s.turn.None?
    ensures Step(s, Go(u)).Some?
  {
  }

  // ---------------------------------------------------------------- bounded wait

  /** Inside WriteLock.acquire with the gate already taken. */
  predicate Claims(s: State, w: Tid) {
    w in s.pc && HoldsGateAsWriter(s.pc[w]) && !s.pc[w].Writing?
  }

  /** The writer is still claiming after every step of the schedule. */
  ghost predicate KeepsClaiming(s: State, w: Tid, schedule: seq<Action>)
    decreases |schedule|
  {
    && Claims(s, w)
    && (schedule != [] ==>
          Step(s, schedule[0]).Some? && KeepsClaiming(Step(s, schedule[0]).value, w, schedule[1..]))
  }

  /** The reader releases in a schedule: the steps that store a decremented counter. */
  ghost function Releases(s: State, schedule: seq<Action>): nat
    requires Run(s, schedule).Some?
    decreases |schedule|
  {
    if schedule == [] then 0
    else
      var t := schedule[0].t;
      (if schedule[0].Go? && s.pc[t].DoneStore? then 1 else 0)
      + Releases(Step(s, schedule[0]).value, schedule[1..])
  }

  /** While a writer claims, no step raises the counter, and only a release lowers it. */
  lemma ClaimFreezesCounter(s: State, w: Tid, a: Action)
    requires Inv(s) && Claims(s, w) && Step(s, a).Some?
    ensures Step(s, a).value.counter == s.counter - if a.Go? && s.pc[a.t].DoneStore? then 1 else 0
    ensures Claims(Step(s, a).value, w) || Step(s, a).value.pc[w].Writing?
  {
    StepMoves(s, a);
    assert s.gate == Some(w);
  }

  /** From the claim on the counter falls by exactly the readers that left, so by the time the
      writer is through its test as many have left as the counter showed. */
  lemma {:induction false} WaitsForCountedReaders(s: State, w: Tid, schedule: seq<Action>)
    requires Inv(s) && KeepsClaiming(s, w, schedule) && Run(s, schedule).Some?
    ensures var s' := Run(s, schedule).value;
      && s'.counter == s.counter - Releases(s, schedule)
      && Releases(s, schedule) <= s.counter
      && w in s'.pc
      && (s'.pc[w].WriteDropCounter? ==> Releases(s, schedule) == s.counter)
    decreases |schedule|
  {
    if schedule != [] {
      ClaimFreezesCounter(s, w, schedule[0]);
      StepInv(s, schedule[0]);
      WaitsForCountedReaders(Step(s, schedule[0]).value, w, schedule[1..]);
    }
  }

  /** Steps a thread can still cause before a claiming writer is inside.  A reader about to
      notify also pays for the writer's extra round through the test. */
  ghost function Weight(s: State, t: Tid): nat
    requires t in s.pc
  {
    match s.pc[t]
    case ReadTakeGate => 0
    case WriteTakeTurn => 0
    case Idle => 1
    case DoneDropCounter => 2
    case DoneNotify => 6
    case DoneStore(_) => 7
    case DoneLoad => 8
    case DoneTakeCounter => 9
    case Reading => 10
    case WriteDropCounter => 1
    case WriteTest => 3
    case WriteTakeCounter => 4
    case WriteWait => if t in s.waiters then 2 else 4
    case _ => 0
  }

  ghost function Pick(among: set<Tid>): (t: Tid)
    requires among != {}
    ensures t in among
  {
    var t :| t in among; t
  }

  ghost function Total(s: State, among: set<Tid>): (n: nat)
    requires among <= s.pc.Keys
    ensures n <= 10 * |among|
  {
    if among == {} then 0 else Weight(s, Pick(among)) + Total(s, among - {Pick(among)})
  }

  lemma {:induction false} TotalSplit(s: State, among: set<Tid>, t: Tid)
    requires among <= s.pc.Keys && t in among
    ensures Total(s, among) == Weight(s, t) + Total(s, among - {t})
  {
    var p := Pick(among);
    if p != t {
      TotalSplit(s, among - {p}, t);
      TotalSplit(s, among - {t}, p);
      assert among - {p} - {t} == among - {t} - {p};
    }
  }

  lemma {:induction false} TotalSame(s: State, s': State, among: set<Tid>)
    requires among <= s.pc.Keys && among <= s'.pc.Keys
    requires forall t | t in among :: Weight(s, t) == Weight(s', t)
    ensures Total(s, among) == Total(s', among)
  {
    if among != {} { TotalSame(s, s', among - {Pick(among)}); }
  }

  /** Only the stepping thread and the claiming writer change weight, and together they lose some. */
  lemma WeightFalls(s: State, w: Tid, a: Action)
    requires Owned(s) && WakeupDue(s) && Claims(s, w) && Step(s, a).Some?
    ensures var s' := Step(s, a).value;
      && s'.pc.Keys == s.pc.Keys
      && (forall t | t in s.pc && t != a.t && t != w :: Weight(s', t) == Weight(s, t))
      && (a.t == w ==> Weight(s', w) < Weight(s, w))
      && (a.t != w ==> Weight(s', a.t) + Weight(s', w) < Weight(s, a.t) + Weight(s, w))
  {
    StepMoves(s, a);
    OnlyTheClaimantWaits(s, w);
    OthersWeigh(s, w, a);
    hide WakeupDue, GateOwned, CounterOwned, Weight;
    if a.t == w {
      assert a.Go?;
      ClaimantWeight(s, w);
    } else if a.Go? {
      if Writes(s.pc[a.t]) { OtherWriterIsStuck(s, w, a.t); } else { ReaderWeight(s, w, a.t); }
    } else {
      StartWeight(s, w, a);
    }
  }

  lemma ClaimantWeight(s: State, w: Tid)
    requires Claims(s, w) && AdvanceWriter(s, w).Some? && (s.waiters == [] || s.waiters == [w])
    requires w in AdvanceWriter(s, w).value.pc
    ensures Weight(AdvanceWriter(s, w).value, w) < Weight(s, w)
  {
  }

  /** The turn is taken, so another writer can neither take it nor have it. */
  lemma OtherWriterIsStuck(s: State, w: Tid, t: Tid)
    requires TurnOwned(s) && s.turn == Some(w) && t in s.pc && t != w && Writes(s.pc[t])
    ensures AdvanceWriter(s, t).None?
  {
    assert !HoldsTurn(s.pc[t]);
  }

  /** A reader on its way out loses weight, and its notification costs the claimant less than that. */
  lemma ReaderWeight(s: State, w: Tid, t: Tid)
    requires GateOwned(s) && s.gate == Some(w) && (s.waiters == [] || s.waiters == [w])
    requires Claims(s, w) && t in s.pc && t != w && !Writes(s.pc[t]) && AdvanceReader(s, t).Some?
    ensures var s' := AdvanceReader(s, t).value;
      t in s'.pc && w in s'.pc && Weight(s', t) + Weight(s', w) < Weight(s, t) + Weight(s, w)
  {
    assert !HoldsGate(s.pc[t]);
  }

  lemma StartWeight(s: State, w: Tid, a: Action)
    requires Claims(s, w) && !a.Go? && Step(s, a).Some? && a.t != w
    ensures var s' := Step(s, a).value;
      a.t in s'.pc && w in s'.pc && Weight(s', a.t) + Weight(s', w) < Weight(s, a.t) + Weight(s, w)
  {
  }

  /** The claimant has the turn and the gate, and nobody else can be waiting. */
  lemma OnlyTheClaimantWaits(s: State, w: Tid)
    requires Owned(s) && WakeupDue(s) && Claims(s, w)
    ensures s.gate == Some(w) && s.turn == Some(w) && (s.waiters == [] || s.waiters == [w])
    ensures s.pc[w].WriteDropCounter? ==> s.counterLock == Some(w)
  {
    if s.waiters != [] { assert s.waiters == [w] by { assert HoldsGate(s.pc[s.waiters[0]]); } }
  }

  lemma OthersWeigh(s: State, w: Tid, a: Action)
    requires Step(s, a).Some? && Claims(s, w) && s.turn == Some(w) && (s.waiters == [] || s.waiters == [w])
    requires a.t in s.pc && Step(s, a).value.pc == s.pc[a.t := Step(s, a).value.pc[a.t]]
    requires TurnOwned(s)
    ensures forall t | t in s.pc && t != a.t && t != w :: Weight(Step(s, a).value, t) == Weight(s, t)
  {
    var s' := Step(s, a).value;
    forall t | t in s.pc && t != a.t && t != w ensures Weight(s', t) == Weight(s, t) {
      assert s'.pc[t] == s.pc[t] && !HoldsTurn(s.pc[t]);
      hide Step;
    }
  }

  lemma TotalFalls(s: State, w: Tid, a: Action)
    requires Inv(s) && Claims(s, w) && Step(s, a).Some?
    ensures var s' := Step(s, a).value;
      s'.pc.Keys == s.pc.Keys && Total(s', s'.pc.Keys) < Total(s, s.pc.Keys)
  {
    WeightFalls(s, w, a);
    StepMoves(s, a);
    hide Step, Inv, Weight, Total;
    TotalLess(s, Step(s, a).value, w, a.t);
  }

  lemma TotalLess(s: State, s': State, w: Tid, u: Tid)
    requires s'.pc.Keys == s.pc.Keys && w in s.pc && u in s.pc
    requires forall t | t in s.pc && t != u && t != w :: Weight(s', t) == Weight(s, t)
    requires u == w ==> Weight(s', w) < Weight(s, w)
    requires u != w ==> Weight(s', u) + Weight(s', w) < Weight(s, u) + Weight(s, w)
    ensures Total(s', s'.pc.Keys) < Total(s, s.pc.Keys)
  {
    hide Weight, Total;
    var all := s.pc.Keys;
    TotalSplit(s, all, w);
    TotalSplit(s', all, w);
    if u == w {
      TotalSame(s, s', all - {w});
    } else {
      TotalSplit(s, all - {w}, u);
      TotalSplit(s', all - {w}, u);
      TotalSame(s, s', all - {w} - {u});
    }
  }

  lemma {:induction false} ClaimIsShort(s: State, w: Tid, schedule: seq<Action>)
    requires Inv(s) && KeepsClaiming(s, w, schedule)
    ensures |schedule| <= Total(s, s.pc.Keys)
    decreases |schedule|
  {
    if schedule != [] {
      TotalFalls(s, w, schedule[0]);
      StepInv(s, schedule[0]);
      ClaimIsShort(Step(s, schedule[0]).value, w, schedule[1..]);
    }
  }

  /** A writer that has the gate is inside after at most ten steps per thread, whoever takes them:
      no schedule, fair or not, keeps it waiting longer. */
  lemma BoundedWait(threads: set<Tid>, before: seq<Action>, w: Tid, schedule: seq<Action>)
    requires Run(Init(threads), before).Some?
    requires KeepsClaiming(Run(Init(threads), before).value, w, schedule)
    ensures |schedule| <= 10 * |threads|
  {
    ReachableInv(threads, before);
    var s := Run(Init(threads), before).value;
    RunKeepsThreads(Init(threads), before);
    assert Init(threads).pc.Keys == threads;
    ClaimIsShort(s, w, schedule);
  }

  lemma {:induction false} RunKeepsThreads(s: State, schedule: seq<Action>)
    requires Run(s, schedule).Some?
    ensures Run(s, schedule).value.pc.Keys == s.pc.Keys
    decreases |schedule|
  {
    if schedule != [] {
      StepMoves(s, schedule[0]);
      RunKeepsThreads(Step(s, schedule[0]).value, schedule[1..]);
    }
  }
}
