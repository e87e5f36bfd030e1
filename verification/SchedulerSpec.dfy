/** The scheduler and the blocking objects as one state machine (kernel/ps/scheduler.cpp,
    kernel/sync/event.cpp, the wait and release cases of kernel/syscall/syscall.cpp, thread creation
    and exit in kernel/ps/process.cpp).

    A call that blocks, with the switch it ends in, is one step.  The current thread performs every
    step but the clock tick.  The main thread of the kernel never blocks, so it idles. */
module SchedulerSpec {
  import opened Wrappers
  import opened QueueSpec
  import opened QueueLaws

  const U32: nat := 0x1_0000_0000
  const I32_MAX: nat := 0x7fff_ffff

  datatype Event = Event(signaled: bool, autoReset: bool)
  datatype Sema = Sema(count: int, max: int)
  datatype Mutant<T> = Mutant(owner: Option<T>, depth: nat)
  datatype Process = Process(threads: nat, exited: bool)

  datatype State<T(==)> = State(
    q: Queues<T>,
    events: seq<Event>,
    semas: seq<Sema>,
    mutants: seq<Mutant<T>>,
    procs: seq<Process>,
    home: map<T, nat>,           // the process of each thread
    main: T,
    now: nat)                    // timer ticks

  datatype Op<T> =
    | Tick | Yield | Sleep(ms: nat)
    | SetEvent(e: nat) | ResetEvent(e: nat) | WaitEvent(e: nat, timeout: nat)
    | WaitSema(s: nat, timeout: nat) | ReleaseSema(s: nat, units: int)
    | WaitMutant(m: nat) | ReleaseMutant(m: nat)
    | WaitProcess(p: nat, timeout: nat)
    | Exit | Spawn(t: T, p: nat) | SetPriority(level: nat)

  datatype Status = Success | Timeout | InvalidHandle | InvalidParameter | NotOwned

  // ---- What a call does to the threads -----------------------------------------------------

  datatype Effect<T> =
    | NoEffect
    | Block(o: Obj, front: bool)
    | Grant(o: Obj, n: nat)
    | Die(o: Obj, n: nat)
    | Nap(until: nat)
    | Advance
    | Give
    | Enter(t: T)
    | Rank(level: nat)

  ghost function WaitersOf<T>(q: Queues<T>, o: Obj): seq<T> { if o in q.waiters then q.waiters[o] else [] }

  function Min(a: int, b: int): int { if a < b then a else b }

  /** Ticks of 10 ms, rounded up. */
  function SleepTicks(ms: nat): (n: nat) {
    var n := (ms * 100 + 999) / 1000;
    if n == 0 then 1 else n
  }

  /** A release count that is not positive means one. */
  function Units(units: int): int { if units <= 0 then 1 else units }

  function Wrap32(x: int): int { if x > I32_MAX then x - U32 else x }

  ghost function EffectOf<T>(s: State<T>, op: Op<T>): Effect<T> {
    match op
    case Tick => Advance
    case Yield => Give
    case Sleep(ms) => if ms == 0 then NoEffect else Nap(s.now + SleepTicks(ms))
    case SetEvent(i) =>
      if i < |s.events| && WaitersOf(s.q, EventObj(i)) != [] then Grant(EventObj(i), 1) else NoEffect
    case ResetEvent(i) => NoEffect
    case WaitEvent(i, timeout) =>
      if i < |s.events| && !s.events[i].signaled && timeout % U32 != 0 then Block(EventObj(i), true) else NoEffect
    case WaitSema(i, timeout) =>
      if i < |s.semas| && s.semas[i].count <= 0 && timeout != 0 then Block(SemaObj(i), false) else NoEffect
    case ReleaseSema(i, units) =>
      if i < |s.semas| then Grant(SemaObj(i), Min(Units(units), |WaitersOf(s.q, SemaObj(i))|)) else NoEffect
    case WaitMutant(i) =>
      if i < |s.mutants| && s.mutants[i].owner.Some? && s.mutants[i].owner.value != s.q.current
      then Block(MutantObj(i), false) else NoEffect
    case ReleaseMutant(i) =>
      if i < |s.mutants| && s.mutants[i].owner == Some(s.q.current) && s.mutants[i].depth == 1
        && WaitersOf(s.q, MutantObj(i)) != [] then Grant(MutantObj(i), 1) else NoEffect
    case WaitProcess(i, timeout) =>
      if i < |s.procs| && !s.procs[i].exited && timeout != 0 then Block(ProcessObj(i), true) else NoEffect
    case Exit =>
      var h := Home(s);
      Die(ProcessObj(h), if h < |s.procs| && s.procs[h].threads == 1 then |WaitersOf(s.q, ProcessObj(h))| else 0)
    case Spawn(t, p) => Enter(t)
    case SetPriority(l) => if l < PRIORITIES then Rank(l) else NoEffect
  }

  ghost function Home<T>(s: State<T>): nat { if s.q.current in s.home then s.home[s.q.current] else 0 }

  ghost function Moves<T>(q: Queues<T>, now: nat, e: Effect<T>): seq<Move<T>>
    requires |q.ready| == PRIORITIES
  {
    match e
    case NoEffect => []
    case Block(o, front) => [Wait(o, front), Switch]
    case Grant(o, n) => WakeMoves(o, n)
    case Die(o, n) => [Finish] + (WakeMoves(o, n) + [Switch])
    case Nap(u) => [Doze(u), Switch]
    case Advance =>
      RouseMoves(q, 0, now + 1)
        + (if q.quantum == 0 then [] else if q.quantum == 1 then [Burn, Switch] else [Burn])
    case Give => [Switch]
    case Enter(t) => [Admit(t, NORMAL)]
    case Rank(l) => [Reprioritize(l)]
  }

  // ---- What a call does to the objects --------------------------------------------------------

  function SemaAfterRelease(x: Sema, units: int, woken: nat): Sema {
    var sum := Wrap32(x.count + (units - woken));
    x.(count := if sum > x.max then x.max else sum)
  }

  ghost function MutantAfterRelease<T>(x: Mutant<T>, waiters: seq<T>): Mutant<T> {
    var depth := (x.depth + U32 - 1) % U32;
    if depth != 0 then x.(depth := depth)
    else if waiters != [] then Mutant(Some(waiters[0]), 1)
    else Mutant(None, 0)
  }

  /** The objects after a call; the threads are still as before. */
  ghost function Objects<T>(s: State<T>, op: Op<T>): State<T> {
    match op
    case Tick => s.(now := s.now + 1)
    case SetEvent(i) =>
      if i >= |s.events| then s else
      s.(events := s.events[i := s.events[i].(
        signaled := s.events[i].signaled || WaitersOf(s.q, EventObj(i)) == [] || !s.events[i].autoReset)])
    case ResetEvent(i) =>
      if i >= |s.events| then s else s.(events := s.events[i := s.events[i].(signaled := false)])
    case WaitEvent(i, _) =>
      if i < |s.events| && s.events[i].signaled && s.events[i].autoReset
      then s.(events := s.events[i := s.events[i].(signaled := false)]) else s
    case WaitSema(i, _) =>
      if i < |s.semas| && s.semas[i].count > 0
      then s.(semas := s.semas[i := s.semas[i].(count := s.semas[i].count - 1)]) else s
    case ReleaseSema(i, units) =>
      if i >= |s.semas| then s else
      s.(semas := s.semas[i := SemaAfterRelease(s.semas[i], Units(units),
                                                Min(Units(units), |WaitersOf(s.q, SemaObj(i))|))])
    case WaitMutant(i) =>
      if i >= |s.mutants| then s else
      var x := s.mutants[i];
      if x.owner.None? then s.(mutants := s.mutants[i := Mutant(Some(s.q.current), 1)])
      else if x.owner.value == s.q.current then s.(mutants := s.mutants[i := x.(depth := (x.depth + 1) % U32)])
      else s
    case ReleaseMutant(i) =>
      if i >= |s.mutants| || s.mutants[i].owner != Some(s.q.current) then s else
      s.(mutants := s.mutants[i := MutantAfterRelease(s.mutants[i], WaitersOf(s.q, MutantObj(i)))])
    case Exit =>
      var h := Home(s);
      if h >= |s.procs| || s.procs[h].threads == 0 then s else
      s.(procs := s.procs[h := Process(s.procs[h].threads - 1, s.procs[h].exited || s.procs[h].threads == 1)])
    case Spawn(t, p) =>
      var s1 := s.(home := s.home[t := p]);
      if p >= |s.procs| then s1 else s1.(procs := s.procs[p := s.procs[p].(threads := s.procs[p].threads + 1)])
    case _ => s
  }

  ghost function Step<T>(s: State<T>, op: Op<T>): (r: State<T>)
    requires |s.q.ready| == PRIORITIES
    ensures |r.q.ready| == PRIORITIES
  {
    Objects(s, op).(q := DoAll(s.q, Moves(s.q, s.now, EffectOf(s, op))))
  }

  /** The status the call returns, at once or when the thread runs again. */
  ghost function Result<T>(s: State<T>, op: Op<T>): Status {
    match op
    case SetEvent(i) => if i < |s.events| then Success else InvalidHandle
    case ResetEvent(i) => if i < |s.events| then Success else InvalidHandle
    case WaitEvent(i, timeout) =>
      if i >= |s.events| then InvalidHandle else if !s.events[i].signaled
        && timeout % U32 == 0 then Timeout else Success
    case WaitSema(i, timeout) =>
      if i >= |s.semas| then InvalidHandle else if s.semas[i].count <= 0 && timeout == 0 then Timeout else Success
    case ReleaseSema(i, _) => if i < |s.semas| then Success else InvalidHandle
    case WaitMutant(i) => if i < |s.mutants| then Success else InvalidHandle
    case ReleaseMutant(i) =>
      if i >= |s.mutants| then InvalidHandle else if s.mutants[i].owner != Some(s.q.current) then NotOwned else Success
    case WaitProcess(i, timeout) =>
      if i >= |s.procs| then InvalidHandle else if !s.procs[i].exited && timeout == 0 then Timeout else Success
    case SetPriority(l) => if l < PRIORITIES then Success else InvalidParameter
    case _ => Success
  }

  ghost function Run<T>(s: State<T>, ops: seq<Op<T>>): (r: State<T>)
    requires |s.q.ready| == PRIORITIES
    ensures |r.q.ready| == PRIORITIES
    decreases |ops|
  {
    if ops == [] then s else Run(Step(s, ops[0]), ops[1..])
  }

  // ---- Invariants ---------------------------------------------------------------------------------

  ghost predicate Exists<T>(s: State<T>, o: Obj) {
    match o
    case EventObj(i) => i < |s.events|
    case SemaObj(i) => i < |s.semas|
    case MutantObj(i) => i < |s.mutants|
    case ProcessObj(i) => i < |s.procs|
  }

  ghost predicate KeysOk<T>(s: State<T>) {
    && (forall o :: o in s.q.waiters <==> Exists(s, o))
    && s.home.Keys == s.q.place.Keys
    && (forall t | t in s.home :: s.home[t] < |s.procs|)
  }

  /** The main thread runs or is ready: it idles. */
  ghost predicate Up<T>(q: Queues<T>, main: T) {
    main in q.place && (q.place[main].Running? || q.place[main].Ready?)
  }

  ghost predicate ThreadsOk<T>(s: State<T>) { |s.q.ready| == PRIORITIES && Placed(s.q) && Up(s.q, s.main) }

  /** An auto-reset event is never both signaled and waited for. */
  ghost predicate EventsOk<T>(s: State<T>) {
    forall i | 0 <= i < |s.events| ::
      s.events[i].autoReset && s.events[i].signaled ==> WaitersOf(s.q, EventObj(i)) == []
  }

  ghost predicate SemaOk<T>(x: Sema, waiters: seq<T>) {
    0 <= x.count <= x.max <= I32_MAX && (waiters != [] ==> x.count == 0)
  }

  /** A semaphore's count is between 0 and its maximum, and nobody waits for a unit that is there. */
  ghost predicate SemasOk<T>(s: State<T>) {
    forall i | 0 <= i < |s.semas| :: SemaOk(s.semas[i], WaitersOf(s.q, SemaObj(i)))
  }

  ghost predicate MutantOk<T>(x: Mutant<T>, waiters: seq<T>) {
    && x.depth < U32
    && (x.owner.None? <==> x.depth == 0)
    && (waiters != [] ==> x.owner.Some?)
    && (x.owner.Some? ==> x.owner.value !in waiters)
  }

  /** A mutant is free exactly at depth 0, is waited for only when owned, and never by its owner. */
  ghost predicate MutantsOk<T>(s: State<T>) {
    forall i | 0 <= i < |s.mutants| :: MutantOk(s.mutants[i], WaitersOf(s.q, MutantObj(i)))
  }

  /** The threads of a process that have not terminated. */
  ghost function Living<T>(q: Queues<T>, home: map<T, nat>, p: nat): set<T> {
    set t | t in q.place && t in home && home[t] == p && q.place[t] != Terminated
  }

  ghost predicate ProcessOk<T>(s: State<T>, p: nat)
    requires p < |s.procs|
  {
    && s.procs[p].threads == |Living(s.q, s.home, p)|
    && (WaitersOf(s.q, ProcessObj(p)) != [] ==> !s.procs[p].exited)
  }

  /** A process counts its living threads, and nobody waits for one that has exited. */
  ghost predicate ProcessesOk<T>(s: State<T>) {
    forall p | 0 <= p < |s.procs| :: ProcessOk(s, p)
  }

  /** Nobody sleeps past the deadline. */
  ghost predicate SleepOk<T>(s: State<T>) {
    forall t | t in s.q.sleepers :: t in s.q.until && s.now < s.q.until[t]
  }

  ghost predicate Inv<T>(s: State<T>) {
    ThreadsOk(s) && KeysOk(s) && EventsOk(s) && SemasOk(s) && MutantsOk(s) && ProcessesOk(s) && SleepOk(s)
  }

  /** What a step asks: the main thread does not block or exit, a spawned thread is new and its
      process exists, and neither a semaphore release nor a mutant depth overflows its counter. */
  ghost predicate Allowed<T>(s: State<T>, op: Op<T>) {
    var e := EffectOf(s, op);
    && (e.Block? || e.Die? || e.Nap? ==> s.q.current != s.main)
    && (op.Spawn? ==> op.t !in s.q.place && op.p < |s.procs|)
    && (op.ReleaseSema? && op.s < |s.semas| ==> ReleaseFits(s, op.s, op.units))
    && (op.WaitMutant? && op.m < |s.mutants| && s.mutants[op.m].owner == Some(s.q.current) ==>
        s.mutants[op.m].depth + 1 < U32)
  }

  ghost predicate ReleaseFits<T>(s: State<T>, i: nat, units: int)
    requires i < |s.semas|
  {
    s.semas[i].count + (Units(units) - Min(Units(units), |WaitersOf(s.q, SemaObj(i))|)) <= I32_MAX
  }

  ghost predicate AllowedRun<T>(s: State<T>, ops: seq<Op<T>>)
    requires |s.q.ready| == PRIORITIES
    decreases |ops|
  {
    ops == [] || (Allowed(s, ops[0]) && AllowedRun(Step(s, ops[0]), ops[1..]))
  }

  // ---- The machine at boot ------------------------------------------------------------------------

  /** Only the main thread exists, and it runs. */
  ghost function BootQueues<T>(main: T, pri: nat, objects: set<Obj>): Queues<T> {
    Queues(main, [[], [], []], [], map o | o in objects ::
           [], map[main := Running], map[main := pri], map[], QUANTUM_TICKS)
  }

  /** The objects of tables of the given sizes. */
  ghost function AllObjects(events: nat, semas: nat, mutants: nat, procs: nat): set<Obj> {
    (set i: nat | i < events :: EventObj(i)) + (set i: nat | i < semas :: SemaObj(i))
      + (set i: nat | i < mutants :: MutantObj(i)) + (set i: nat | i < procs :: ProcessObj(i))
  }

  ghost function BootState<T>(main: T, pri: nat, home: nat, events: seq<Event>, semas: seq<Sema>,
                              mutants: seq<Mutant<T>>, procs: seq<Process>, now: nat): State<T> {
    State(BootQueues(main, pri, AllObjects(|events|, |semas|, |mutants|, |procs|)),
          events, semas, mutants, procs, map[main := home], main, now)
  }
}
