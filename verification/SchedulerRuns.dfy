/** Theorems about every run of the scheduler machine. */
module SchedulerRuns {
  import opened Wrappers
  import opened QueueSpec
  import opened QueueLaws
  import opened SchedulerSpec
  import opened SchedulerLaws

  // ---- One step keeps the invariant -----------------------------------------------------------

  /** A call blocks on, or wakes the waiters of, an object that exists. */
  lemma EffectFits<T>(s: State<T>, op: Op<T>)
    requires ThreadsOk(s) && KeysOk(s) && Allowed(s, op)
    ensures Fit(s.q, EffectOf(s, op), s.main) && InRange(s.q, EffectOf(s, op))
  {
    hide Placed, Up;
    assert forall o :: o in s.q.waiters <==> Exists(s, o);
    if op.Exit? { ExitFits(s); }
  }

  lemma ExitFits<T>(s: State<T>)
    requires ThreadsOk(s) && KeysOk(s)
    ensures s.q.current in s.home && Home(s) < |s.procs| && ProcessObj(Home(s)) in s.q.waiters
  {
    hide Up, Lists;
    assert Exists(s, ProcessObj(Home(s)));
  }

  /** The new waiters of an object, for the cases of one step. */
  lemma StepLists<T>(s: State<T>, op: Op<T>)
    requires ThreadsOk(s) && KeysOk(s) && Allowed(s, op)
    ensures ListsAfter(s.q, s.now, EffectOf(s, op), Step(s, op).q)
    ensures forall o :: WaitersOf(Step(s, op).q, o) == WaitersAfter(s.q, EffectOf(s, op), o)
  {
    EffectFits(s, op);
    hide Placed, Up, EffectOf, Moves, DoAll, Objects;
    EffectLists(s.q, s.now, EffectOf(s, op));
  }

  lemma StepThreads<T>(s: State<T>, op: Op<T>)
    requires ThreadsOk(s) && KeysOk(s) && Allowed(s, op)
    ensures ThreadsOk(Step(s, op))
  {
    EffectFits(s, op);
    hide Placed, Up, EffectOf, Moves, DoAll;
    EffectPlaced(s.q, s.now, EffectOf(s, op), s.main);
  }

  /** Steps keep the objects; only a creation changes who belongs where. */
  lemma ObjectsFrame<T>(s: State<T>, op: Op<T>)
    ensures var r := Objects(s, op);
      && |r.events| == |s.events| && |r.semas| == |s.semas| && |r.mutants| == |s.mutants| && |r.procs| == |s.procs|
      && r.home == (if op.Spawn? then s.home[op.t := op.p] else s.home)
      && r.now == (if op.Tick? then s.now + 1 else s.now) && r.main == s.main && r.q == s.q
    ensures EffectOf(s, op).Enter? <==> op.Spawn?
    ensures op.Spawn? ==> EffectOf(s, op).t == op.t
    ensures EffectOf(s, op).Die? <==> op.Exit?
    ensures EffectOf(s, op).Advance? <==> op.Tick?
    ensures EffectOf(s, op).Nap? <==> op.Sleep? && op.ms > 0
    ensures EffectOf(s, op).Nap? ==> EffectOf(s, op).until == s.now + SleepTicks(op.ms)
  {}

  lemma KeysTransfer<T>(s: State<T>, op: Op<T>, r: State<T>)
    requires KeysOk(s) && r.q.waiters.Keys == s.q.waiters.Keys && (op.Spawn? ==> op.p < |s.procs|)
    requires |r.events| == |s.events| && |r.semas| == |s.semas| && |r.mutants| == |s.mutants| && |r.procs| == |s.procs|
    requires r.home == if op.Spawn? then s.home[op.t := op.p] else s.home
    requires r.q.place.Keys == s.q.place.Keys + if op.Spawn? then {op.t} else {}
    ensures KeysOk(r)
  {
    forall o ensures o in r.q.waiters <==> Exists(r, o) {
      assert o in s.q.waiters <==> Exists(s, o);
    }
  }

  lemma StepKeys<T>(s: State<T>, op: Op<T>)
    requires ThreadsOk(s) && KeysOk(s) && Allowed(s, op)
    ensures KeysOk(Step(s, op))
  {
    hide Placed, Up, KeysOk, Moves, DoAll, WaitersOf, Alive, EffectOf, Objects;
    StepKeysOk(s, op);
    ObjectsFrame(s, op);
    KeysTransfer(s, op, Step(s, op));
  }

  lemma StepKeysOk<T>(s: State<T>, op: Op<T>)
    requires ThreadsOk(s) && KeysOk(s) && Allowed(s, op)
    ensures Step(s, op).q.waiters.Keys == s.q.waiters.Keys
    ensures LivingAfter(s.q, EffectOf(s, op), Step(s, op).q)
  {
    EffectFits(s, op);
    hide Placed, Up, EffectOf, Moves, DoAll, Objects, InRange, Fit, LivingAfter, KeysOk, Allowed, WaitersAfter,
      SleepersAfter;
    EffectLists(s.q, s.now, EffectOf(s, op));
    EffectLiving(s.q, s.now, EffectOf(s, op), s.main);
  }

  lemma EventStep<T>(s: State<T>, op: Op<T>, i: nat)
    requires i < |s.events|
    requires s.events[i].autoReset && s.events[i].signaled ==> WaitersOf(s.q, EventObj(i)) == []
    ensures var e := Objects(s, op).events[i];
      e.autoReset && e.signaled ==> WaitersAfter(s.q, EffectOf(s, op), EventObj(i)) == []
  {
    hide WaitersOf;
  }

  lemma StepEvents<T>(s: State<T>, op: Op<T>)
    requires ThreadsOk(s) && KeysOk(s) && EventsOk(s) && Allowed(s, op)
    ensures EventsOk(Step(s, op))
  {
    hide Placed, Up, KeysOk, Moves, DoAll, ListsAfter, WaitersOf, WaitersAfter, EffectOf, Objects, Allowed;
    StepLists(s, op);
    ObjectsFrame(s, op);
    forall i | 0 <= i < |s.events| ensures var e := Step(s, op).events[i];
      e.autoReset && e.signaled ==> WaitersOf(Step(s, op).q, EventObj(i)) == []
    {
      EventStep(s, op, i);
    }
  }

  /** Only its own waits and releases touch a semaphore and its waiters. */
  predicate ForSema<T>(op: Op<T>, i: nat) {
    (op.WaitSema? && op.s == i) || (op.ReleaseSema? && op.s == i)
  }

  lemma OtherSema<T>(s: State<T>, op: Op<T>, i: nat)
    requires i < |s.semas| && !ForSema(op, i)
    ensures Objects(s, op).semas[i] == s.semas[i]
    ensures WaitersAfter(s.q, EffectOf(s, op), SemaObj(i)) == WaitersOf(s.q, SemaObj(i))
  {
    hide WaitersOf, SemaAfterRelease, MutantAfterRelease, Home, Units, SleepTicks;
  }

  lemma SemaStep<T>(s: State<T>, op: Op<T>, i: nat)
    requires i < |s.semas| && SemaOk(s.semas[i], WaitersOf(s.q, SemaObj(i))) && Allowed(s, op)
    ensures SemaOk(Objects(s, op).semas[i], WaitersAfter(s.q, EffectOf(s, op), SemaObj(i)))
  {
    if ForSema(op, i) {
      hide WaitersOf, MutantAfterRelease, Home, SleepTicks;
    } else {
      hide *;
      OtherSema(s, op, i);
    }
  }

  lemma StepSemas<T>(s: State<T>, op: Op<T>)
    requires ThreadsOk(s) && KeysOk(s) && SemasOk(s) && Allowed(s, op)
    ensures SemasOk(Step(s, op))
  {
    hide Placed, Up, KeysOk, Moves, DoAll, ListsAfter, WaitersOf, WaitersAfter, EffectOf, Objects, Allowed, SemaOk;
    StepLists(s, op);
    ObjectsFrame(s, op);
    forall i | 0 <= i < |s.semas| ensures SemaOk(Step(s, op).semas[i], WaitersOf(Step(s, op).q, SemaObj(i))) {
      SemaStep(s, op, i);
    }
  }

  /** The current thread waits for nothing. */
  lemma CurrentWaitsForNothing<T>(q: Queues<T>, o: Obj)
    requires Placed(q)
    ensures q.current !in WaitersOf(q, o)
    ensures NoDup(WaitersOf(q, o))
  {
    if o in q.waiters { assert HasList(q, Waiting(o)) && ListAt(q, Waiting(o)) == q.waiters[o]; }
  }

  lemma MutantStep<T>(s: State<T>, op: Op<T>, i: nat)
    requires i < |s.mutants| && MutantOk(s.mutants[i], WaitersOf(s.q, MutantObj(i))) && Allowed(s, op)
    requires s.q.current !in WaitersOf(s.q, MutantObj(i)) && NoDup(WaitersOf(s.q, MutantObj(i)))
    ensures MutantOk(Objects(s, op).mutants[i], WaitersAfter(s.q, EffectOf(s, op), MutantObj(i)))
  {
    hide WaitersOf;
  }

  lemma StepMutants<T>(s: State<T>, op: Op<T>)
    requires ThreadsOk(s) && KeysOk(s) && MutantsOk(s) && Allowed(s, op)
    ensures MutantsOk(Step(s, op))
  {
    hide Placed, Up, KeysOk, Moves, DoAll, ListsAfter, WaitersOf, WaitersAfter, EffectOf, Objects, Allowed, MutantOk;
    StepLists(s, op);
    ObjectsFrame(s, op);
    forall i | 0 <= i < |s.mutants| ensures MutantOk(Step(s, op).mutants[i], WaitersOf(Step(s, op).q, MutantObj(i))) {
      CurrentWaitsForNothing(s.q, MutantObj(i));
      MutantStep(s, op, i);
    }
  }

  lemma CurrentIsAwake<T>(q: Queues<T>)
    requires Placed(q)
    ensures q.current !in q.sleepers
  {
    assert HasList(q, Asleep) && ListAt(q, Asleep) == q.sleepers;
  }

  lemma StepSleep<T>(s: State<T>, op: Op<T>)
    requires ThreadsOk(s) && KeysOk(s) && SleepOk(s) && Allowed(s, op)
    ensures SleepOk(Step(s, op))
  {
    hide Placed, Up, KeysOk, Moves, DoAll, WaitersOf, WaitersAfter, EffectOf, Objects, Allowed, Due;
    StepLists(s, op);
    ObjectsFrame(s, op);
    CurrentIsAwake(s.q);
    var r := Step(s, op);
    forall t | t in r.q.sleepers ensures t in r.q.until && r.now < r.q.until[t] {
      if op.Tick? { SelectMembers(s.q, s.q.sleepers, s.now + 1, false, t); DueMeans(s.q, t, s.now + 1); }
    }
  }

  lemma DueMeans<T>(q: Queues<T>, t: T, now: nat)
    ensures Due(q, t, now) <==> t in q.until && q.until[t] <= now
  {}

  /** The living threads of a process after a step. */
  lemma StepLiving<T>(s: State<T>, op: Op<T>, p: nat)
    requires ThreadsOk(s) && KeysOk(s) && Allowed(s, op)
    ensures var r := Step(s, op);
      Living(r.q, r.home, p) ==
        if op.Exit? && p == Home(s) then Living(s.q, s.home, p) - {s.q.current}
        else if op.Spawn? && p == op.p then Living(s.q, s.home, p) + {op.t}
        else Living(s.q, s.home, p)
  {
    hide Placed, Up, Moves, DoAll, EffectOf, Objects;
    StepKeysOk(s, op);
    ObjectsFrame(s, op);
  }

  lemma CurrentLives<T>(s: State<T>)
    requires ThreadsOk(s) && KeysOk(s)
    ensures s.q.current in s.home && s.q.current in Living(s.q, s.home, Home(s))
  {
    hide Lists, Up;
  }

  lemma ExitStep<T>(s: State<T>, p: nat)
    requires p < |s.procs| && ProcessOk(s, p)
    requires s.q.current in Living(s.q, s.home, Home(s)) && Home(s) < |s.procs|
    ensures p < |Objects(s, Exit).procs|
    ensures Objects(s, Exit).procs[p].threads ==
      |if p == Home(s) then Living(s.q, s.home, p) - {s.q.current} else Living(s.q, s.home, p)|
    ensures WaitersAfter(s.q, EffectOf(s, Exit), ProcessObj(p)) != [] ==> !Objects(s, Exit).procs[p].exited
  {
    hide WaitersOf, Living, Home;
  }

  lemma ProcessStep<T>(s: State<T>, op: Op<T>, p: nat)
    requires ThreadsOk(s) && KeysOk(s) && p < |s.procs| && ProcessOk(s, p) && Allowed(s, op)
    requires op.Exit? ==> s.q.current in Living(s.q, s.home, Home(s)) && Home(s) < |s.procs|
    requires op.Spawn? ==> op.t !in Living(s.q, s.home, op.p)
    ensures p < |Objects(s, op).procs|
    ensures Objects(s, op).procs[p].threads ==
      |if op.Exit? && p == Home(s) then Living(s.q, s.home, p) - {s.q.current}
       else if op.Spawn? && p == op.p then Living(s.q, s.home, p) + {op.t}
       else Living(s.q, s.home, p)|
    ensures WaitersAfter(s.q, EffectOf(s, op), ProcessObj(p)) != [] ==> !Objects(s, op).procs[p].exited
  {
    hide ThreadsOk, KeysOk, WaitersOf, Living, Home;
    if op.Exit? { ExitStep(s, p); }
  }

  lemma StepProcesses<T>(s: State<T>, op: Op<T>)
    requires ThreadsOk(s) && KeysOk(s) && ProcessesOk(s) && Allowed(s, op)
    ensures ProcessesOk(Step(s, op))
  {
    hide Placed, Up, KeysOk, Moves, DoAll, ListsAfter, WaitersOf, WaitersAfter, EffectOf, Objects, Living, Home;
    var r := Step(s, op);
    StepLists(s, op);
    ObjectsFrame(s, op);
    CurrentLives(s);
    ExitFits(s);
    forall p | 0 <= p < |s.procs| ensures ProcessOk(r, p) {
      assert ProcessOk(s, p);
      StepLiving(s, op, p);
      if op.Spawn? { NewIsNotLiving(s.q, s.home, op.t, op.p); }
      ProcessStep(s, op, p);
    }
  }

  lemma NewIsNotLiving<T>(q: Queues<T>, home: map<T, nat>, t: T, p: nat)
    requires t !in q.place
    ensures t !in Living(q, home, p)
  {}

  /** Every allowed step keeps the whole invariant. */
  lemma StepKeepsInvariant<T>(s: State<T>, op: Op<T>)
    requires Inv(s) && Allowed(s, op)
    ensures Inv(Step(s, op))
  {
    hide ThreadsOk, KeysOk, EventsOk, SemasOk, MutantsOk, ProcessesOk, SleepOk, Allowed, Step;
    StepThreads(s, op);
    StepKeys(s, op);
    StepEvents(s, op);
    StepSemas(s, op);
    StepMutants(s, op);
    StepProcesses(s, op);
    StepSleep(s, op);
  }

  /** Over every run, each thread is in exactly one place, every object is consistent, and nobody
      sleeps past the deadline. */
  lemma {:induction false} RunKeepsInvariant<T>(s: State<T>, ops: seq<Op<T>>)
    requires |s.q.ready| == PRIORITIES && Inv(s) && AllowedRun(s, ops)
    ensures Inv(Run(s, ops))
    decreases |ops|
  {
    if ops != [] {
      StepKeepsInvariant(s, ops[0]);
      hide Inv, Allowed, Step;
      RunKeepsInvariant(Step(s, ops[0]), ops[1..]);
    }
  }

  // ---- The machine starts consistent -------------------------------------------------------------

  lemma BootFacts<T>(main: T, pri: nat, objects: set<Obj>)
    ensures var q := BootQueues(main, pri, objects);
      && q.ready == [[], [], []] && q.sleepers == [] && q.place == map[main := Running] && q.pri == map[main := pri]
      && q.current == main && q.quantum == QUANTUM_TICKS
  {}

  lemma BootParked<T>(main: T, pri: nat, objects: set<Obj>)
    ensures Placed(BootQueues(main, pri, objects)) && Parked(BootQueues(main, pri, objects))
  {
    var q := BootQueues(main, pri, objects);
    forall at | HasList(q, at) ensures Holds(ListAt(q, at), q.place, at) {
      assert ListAt(q, at) == [];
    }
  }

  lemma BootWaiters<T>(main: T, pri: nat, objects: set<Obj>, o: Obj)
    ensures var q := BootQueues(main, pri, objects);
      WaitersOf(q, o) == [] && (o in q.waiters <==> o in objects)
  {}

  /** At boot only the main thread exists; any events, semaphores within bounds, and mutants that are
      free or held once by the main thread are consistent. */
  lemma BootIsConsistent<T>(main: T, pri: nat, home: nat, events: seq<Event>, semas: seq<Sema>,
                            mutants: seq<Mutant<T>>, procs: seq<Process>, now: nat)
    requires home < |procs|
    requires forall i | 0 <= i < |semas| :: 0 <= semas[i].count <= semas[i].max <= I32_MAX
    requires forall i | 0 <= i < |mutants| :: mutants[i] == Mutant(None, 0) || mutants[i] == Mutant(Some(main), 1)
    requires forall i | 0 <= i < |procs| :: procs[i] == Process(if i == home then 1 else 0, false)
    ensures Inv(BootState(main, pri, home, events, semas, mutants, procs, now))
  {
    var s := BootState(main, pri, home, events, semas, mutants, procs, now);
    var objects := AllObjects(|events|, |semas|, |mutants|, |procs|);
    BootFacts(main, pri, objects);
    BootParked(main, pri, objects);
    forall o ensures WaitersOf(s.q, o) == [] && (o in s.q.waiters <==> Exists(s, o)) {
      BootWaiters(main, pri, objects, o);
    }
    hide Placed, BootQueues, AllObjects, WaitersOf;
    forall p | 0 <= p < |procs| ensures ProcessOk(s, p) {
      assert Living(s.q, s.home, p) == if p == home then {main} else {};
    }
  }

  // ---- Exactly when a call would break an object ------------------------------------------------

  lemma SetEventCore<T>(s: State<T>, i: nat)
    requires i < |s.events|
    requires s.events[i].autoReset && s.events[i].signaled ==> WaitersOf(s.q, EventObj(i)) == []
    ensures (Objects(s, SetEvent(i)).events[i].signaled
             && WaitersAfter(s.q, EffectOf(s, SetEvent(i)), EventObj(i)) != [])
      <==> (!s.events[i].autoReset && |WaitersOf(s.q, EventObj(i))| >= 2)
  {
    hide WaitersOf;
  }

  /** Setting a manual-reset event that two or more threads wait for leaves it signaled with
      waiters, and nothing else does. */
  lemma SetEventOverlap<T>(s: State<T>, i: nat)
    requires ThreadsOk(s) && KeysOk(s) && EventsOk(s) && i < |s.events|
    ensures i < |Step(s, SetEvent(i)).events|
    ensures (Step(s, SetEvent(i)).events[i].signaled && WaitersOf(Step(s, SetEvent(i)).q, EventObj(i)) != [])
      <==> (!s.events[i].autoReset && |WaitersOf(s.q, EventObj(i))| >= 2)
  {
    hide Placed, Up, KeysOk, Moves, DoAll, ListsAfter, WaitersOf, WaitersAfter, EffectOf, Objects;
    SetEventIsAllowed(s, i);
    StepLists(s, SetEvent(i));
    ObjectsFrame(s, SetEvent(i));
    SetEventCore(s, i);
  }

  lemma SetEventIsAllowed<T>(s: State<T>, i: nat)
    ensures Allowed(s, SetEvent(i))
  {
    hide WaitersOf;
  }

  /** A release keeps the semaphore consistent exactly when the count plus the units that wake
      nobody fits a 32-bit integer. */
  lemma ReleaseKeepsSemaIff<T>(s: State<T>, i: nat, units: int)
    requires ThreadsOk(s) && KeysOk(s) && i < |s.semas| && SemaOk(s.semas[i], WaitersOf(s.q, SemaObj(i)))
    requires units <= I32_MAX
    ensures SemaOk(Objects(s, ReleaseSema(i, units)).semas[i],
                   WaitersAfter(s.q, EffectOf(s, ReleaseSema(i, units)), SemaObj(i)))
      <==> ReleaseFits(s, i, units)
  {
    hide ThreadsOk, KeysOk, WaitersOf;
  }

  /** One more acquisition by the owner keeps the mutant consistent exactly when the depth does not
      wrap around. */
  lemma ReacquireKeepsMutantIff<T>(s: State<T>, i: nat)
    requires i < |s.mutants| && MutantOk(s.mutants[i], WaitersOf(s.q, MutantObj(i)))
    requires s.mutants[i].owner == Some(s.q.current)
    ensures MutantOk(Objects(s, WaitMutant(i)).mutants[i], WaitersAfter(s.q, EffectOf(s, WaitMutant(i)), MutantObj(i)))
      <==> s.mutants[i].depth + 1 < U32
  {
    hide WaitersOf;
  }

  /** A full semaphore of the largest maximum, released once more: the count becomes the smallest
      integer. */
  lemma FullSemaOverflows()
    ensures var full := Sema(I32_MAX, I32_MAX);
      SemaOk<nat>(full, []) && SemaAfterRelease(full, 1, 0).count == -0x8000_0000
        && !SemaOk<nat>(SemaAfterRelease(full, 1, 0), [])
  {}

  /** A mutant held as deep as its counter goes, acquired once more by its owner: the depth is 0
      although it is owned. */
  lemma DeepMutantWraps()
    ensures var deep := Mutant(Some(7), U32 - 1);
      MutantOk(deep, []) && (deep.depth + 1) % U32 == 0 && !MutantOk(deep.(depth := (deep.depth + 1) % U32), [])
  {}

  // ---- Semaphores conserve units -------------------------------------------------------------------

  /** Units handed to threads by a step: to the caller, or to the threads it wakes. */
  ghost function GrantedBy<T>(s: State<T>, op: Op<T>, i: nat): nat {
    if i >= |s.semas| then 0 else
    match op
    case WaitSema(j, _) => if j == i && s.semas[i].count > 0 then 1 else 0
    case ReleaseSema(j, units) => if j == i then Min(Units(units), |WaitersOf(s.q, SemaObj(i))|) else 0
    case _ => 0
  }

  ghost function ReleasedBy<T>(s: State<T>, op: Op<T>, i: nat): nat {
    if i < |s.semas| && op.ReleaseSema? && op.s == i then Units(op.units) else 0
  }

  /** Units lost because the count was at its maximum. */
  ghost function ClampedBy<T>(s: State<T>, op: Op<T>, i: nat): int {
    if i < |s.semas| && op.ReleaseSema? && op.s == i
    then var sum := s.semas[i].count + Units(op.units) - GrantedBy(s, op, i);
      if sum > s.semas[i].max then sum - s.semas[i].max else 0
    else 0
  }

  ghost function Granted<T>(s: State<T>, ops: seq<Op<T>>, i: nat): nat
    requires |s.q.ready| == PRIORITIES
    decreases |ops|
  {
    if ops == [] then 0 else GrantedBy(s, ops[0], i) + Granted(Step(s, ops[0]), ops[1..], i)
  }

  ghost function Released<T>(s: State<T>, ops: seq<Op<T>>, i: nat): nat
    requires |s.q.ready| == PRIORITIES
    decreases |ops|
  {
    if ops == [] then 0 else ReleasedBy(s, ops[0], i) + Released(Step(s, ops[0]), ops[1..], i)
  }

  ghost function Clamped<T>(s: State<T>, ops: seq<Op<T>>, i: nat): int
    requires |s.q.ready| == PRIORITIES
    decreases |ops|
  {
    if ops == [] then 0 else ClampedBy(s, ops[0], i) + Clamped(Step(s, ops[0]), ops[1..], i)
  }

  lemma StepConservesUnits<T>(s: State<T>, op: Op<T>, i: nat)
    requires |s.q.ready| == PRIORITIES && i < |s.semas| && Allowed(s, op)
    ensures i < |Step(s, op).semas|
    ensures s.semas[i].count + ReleasedBy(s, op, i) == Step(s, op).semas[i].count + GrantedBy(s, op, i) + ClampedBy(s,
        op, i)
    ensures ClampedBy(s, op, i) >= 0
  {
    ObjectsFrame(s, op);
    hide DoAll, Moves, WaitersOf;
  }

  /** Over every run, the units a semaphore had and received are the units it has, gave out and
      clamped. */
  lemma {:induction false} RunConservesUnits<T>(s: State<T>, ops: seq<Op<T>>, i: nat)
    requires |s.q.ready| == PRIORITIES && i < |s.semas| && AllowedRun(s, ops)
    ensures i < |Run(s, ops).semas|
    ensures s.semas[i].count + Released(s, ops, i) == Run(s, ops).semas[i].count + Granted(s, ops, i) + Clamped(s, ops,
        i)
    ensures Clamped(s, ops, i) >= 0
    decreases |ops|
  {
    hide Allowed, Step, GrantedBy, ReleasedBy, ClampedBy;
    if ops != [] {
      StepConservesUnits(s, ops[0], i);
      RunConservesUnits(Step(s, ops[0]), ops[1..], i);
    }
  }

  // ---- A run as one sequence of moves -----------------------------------------------------------------

  /** All the moves of a run. */
  ghost function AllMoves<T>(s: State<T>, ops: seq<Op<T>>): seq<Move<T>>
    requires |s.q.ready| == PRIORITIES
    decreases |ops|
  {
    if ops == [] then [] else Moves(s.q, s.now, EffectOf(s, ops[0])) + AllMoves(Step(s, ops[0]), ops[1..])
  }

  lemma {:induction false} RunIsAllMoves<T>(s: State<T>, ops: seq<Op<T>>)
    requires |s.q.ready| == PRIORITIES
    ensures Run(s, ops).q == DoAll(s.q, AllMoves(s, ops))
    decreases |ops|
  {
    if ops != [] {
      var ms := Moves(s.q, s.now, EffectOf(s, ops[0]));
      RunIsAllMoves(Step(s, ops[0]), ops[1..]);
      DoAllAppend(s.q, ms, AllMoves(Step(s, ops[0]), ops[1..]));
    }
  }

  lemma MovesJoinAtTheBack<T>(s: State<T>, op: Op<T>, o: Obj)
    requires |s.q.ready| == PRIORITIES && (o.SemaObj? || o.MutantObj?)
    ensures AtTheBack(Moves(s.q, s.now, EffectOf(s, op)), o)
  {
    var e := EffectOf(s, op);
    assert e.Block? && e.o == o ==> !e.front;
    hide EffectOf;
    if e.Grant? || e.Die? { WakeMovesOnlyWake<T>(e.o, e.n); }
    if e.Advance? { RouseMovesOnlyRouse(s.q, 0, s.now + 1); }
  }

  lemma {:induction false} RunJoinsAtTheBack<T>(s: State<T>, ops: seq<Op<T>>, o: Obj)
    requires |s.q.ready| == PRIORITIES && (o.SemaObj? || o.MutantObj?)
    ensures AtTheBack(AllMoves(s, ops), o)
    decreases |ops|
  {
    hide EffectOf, Moves, Step;
    if ops != [] {
      MovesJoinAtTheBack(s, ops[0], o);
      RunJoinsAtTheBack(Step(s, ops[0]), ops[1..], o);
    }
  }

  /** Over every run, semaphores and mutants serve their waiters first come, first served. */
  lemma RunServesInOrder<T>(s: State<T>, ops: seq<Op<T>>, o: Obj)
    requires |s.q.ready| == PRIORITIES && o in s.q.waiters && (o.SemaObj? || o.MutantObj?)
    ensures o in Run(s, ops).q.waiters
    ensures Woken(s.q, AllMoves(s, ops), o) + Run(s, ops).q.waiters[o] == s.q.waiters[o] + Joined(s.q,
        AllMoves(s, ops), o)
  {
    RunIsAllMoves(s, ops);
    RunJoinsAtTheBack(s, ops, o);
    FirstComeFirstServed(s.q, AllMoves(s, ops), o);
  }

  /** Over every run, while the queues above priority `p` stay empty, the thread at index `k` of
      queue `p` is at index `k - n` after `n <= k` switches; the next switch gives it the
      processor. */
  lemma RunBoundsWaiting<T>(s: State<T>, ops: seq<Op<T>>, p: nat, k: nat)
    requires |s.q.ready| == PRIORITIES && p < PRIORITIES && k < |s.q.ready[p]|
    requires QuietAbove(s.q, AllMoves(s, ops), p) && Switches(AllMoves(s, ops)) <= k
    ensures var n := Switches(AllMoves(s, ops)); var r := Run(s, ops).q;
      && k - n < |r.ready[p]| && r.ready[p][k - n] == s.q.ready[p][k]
      && (n == k ==> Dispatch(r).current == s.q.ready[p][k])
  {
    hide DoAll, Run, AllMoves, Dispatch, QuietAbove, Switches;
    RunIsAllMoves(s, ops);
    WaitingMovesUp(s.q, AllMoves(s, ops), p, k);
    if Switches(AllMoves(s, ops)) == k { SwitchAdvances(Run(s, ops).q, p, 0); }
  }

  // ---- A sleeper sleeps until its deadline, and no longer -----------------------------------------------

  ghost predicate SleepsUntil<T>(s: State<T>, t: T, deadline: nat) {
    t in s.q.place && s.q.place[t] == Asleep && t in s.q.until && s.q.until[t] == deadline
  }

  lemma AsleepIsListed<T>(q: Queues<T>, t: T)
    requires Placed(q) && t in q.place
    ensures q.place[t] == Asleep <==> t in q.sleepers
  {
    assert HasList(q, Asleep) && ListAt(q, Asleep) == q.sleepers;
  }

  lemma WaitingIsListed<T>(q: Queues<T>, t: T)
    requires Placed(q) && t in q.place && q.place[t].Waiting?
    ensures q.place[t].obj in q.waiters && t in q.waiters[q.place[t].obj]
  {
    var o := q.place[t].obj;
    assert HasList(q, Waiting(o)) && t in ListAt(q, Waiting(o));
  }

  lemma ListedIsWaiting<T>(q: Queues<T>, t: T, o: Obj)
    requires Placed(q) && o in q.waiters && t in q.waiters[o]
    ensures t in q.place && q.place[t] == Waiting(o)
  {
    assert HasList(q, Waiting(o)) && t in ListAt(q, Waiting(o));
  }

  /** A call other than a tick past the deadline leaves a sleeper asleep. */
  lemma StaysAsleep<T>(s: State<T>, op: Op<T>, t: T, deadline: nat)
    requires ThreadsOk(s) && KeysOk(s) && Allowed(s, op) && SleepsUntil(s, t, deadline)
    requires Step(s, op).now < deadline
    ensures SleepsUntil(Step(s, op), t, deadline)
  {
    hide Placed, Up, KeysOk, Moves, DoAll, WaitersOf, WaitersAfter, EffectOf, Objects, Allowed, Due, LivingAfter;
    AsleepIsListed(s.q, t);
    CurrentIsAwake(s.q);
    StepLists(s, op);
    StepKeysOk(s, op);
    StepThreads(s, op);
    ObjectsFrame(s, op);
    LivingStays(s, op, t);
    AsleepIsListed(Step(s, op).q, t);
    if op.Tick? {
      SelectMembers(s.q, s.q.sleepers, s.now + 1, false, t);
      DueMeans(s.q, t, s.now + 1);
    }
  }

  lemma LivingStays<T>(s: State<T>, op: Op<T>, t: T)
    requires |s.q.ready| == PRIORITIES && LivingAfter(s.q, EffectOf(s, op), Step(s, op).q) && t in s.q.place
    requires s.q.place[t] != Terminated && t != s.q.current
    ensures t in Step(s, op).q.place && Step(s, op).q.place[t] != Terminated
  {
    hide Step, EffectOf;
    assert Alive(s.q, t) && t in Step(s, op).q.place && Alive(Step(s, op).q, t);
  }

  /** The tick that reaches the deadline makes a sleeper ready, and the switch that may end the tick
      may already give it the processor. */
  lemma WakesWhenDue<T>(s: State<T>, t: T, deadline: nat)
    requires ThreadsOk(s) && KeysOk(s) && SleepsUntil(s, t, deadline) && deadline <= s.now + 1
    ensures var r := Step(s, Tick).q; t in r.place && (r.place[t].Ready? || r.place[t].Running?)
  {
    hide Placed, Up, KeysOk, Moves, DoAll, Objects, Due, LivingAfter;
    assert Allowed(s, Tick) by { TickIsAllowed(s); }
    var r := Step(s, Tick).q;
    AsleepIsListed(s.q, t);
    CurrentIsAwake(s.q);
    StepLists(s, Tick);
    StepKeysOk(s, Tick);
    StepThreads(s, Tick);
    ObjectsFrame(s, Tick);
    LivingStays(s, Tick, t);
    AsleepIsListed(r, t);
    SelectMembers(s.q, s.q.sleepers, s.now + 1, false, t);
    DueMeans(s.q, t, s.now + 1);
    if r.place[t].Waiting? {
      WaitingIsListed(r, t);
      ListedIsWaiting(s.q, t, r.place[t].obj);
    }
  }

  lemma TickIsAllowed<T>(s: State<T>)
    ensures Allowed(s, Tick)
  {}

  ghost function Ticks<T>(ops: seq<Op<T>>): nat {
    if ops == [] then 0 else (if ops[0].Tick? then 1 else 0) + Ticks(ops[1..])
  }

  lemma StepNow<T>(s: State<T>, op: Op<T>)
    requires |s.q.ready| == PRIORITIES
    ensures Step(s, op).now == s.now + if op.Tick? then 1 else 0
  {
    hide DoAll, Moves, EffectOf;
  }

  /** Over every run, a sleeper whose deadline is not reached is still asleep. */
  lemma {:induction false} SleepsThroughRun<T>(s: State<T>, ops: seq<Op<T>>, t: T, deadline: nat)
    requires |s.q.ready| == PRIORITIES && Inv(s) && AllowedRun(s, ops)
    requires SleepsUntil(s, t, deadline) && s.now + Ticks(ops) < deadline
    ensures SleepsUntil(Run(s, ops), t, deadline) && Run(s, ops).now == s.now + Ticks(ops)
    ensures Inv(Run(s, ops))
    decreases |ops|
  {
    if ops != [] {
      StepKeepsInvariant(s, ops[0]);
      StepNow(s, ops[0]);
      StaysAsleep(s, ops[0], t, deadline);
      hide Inv, Allowed, Step, SleepsUntil;
      SleepsThroughRun(Step(s, ops[0]), ops[1..], t, deadline);
    }
  }

  lemma SleepStarts<T>(s: State<T>, ms: nat)
    requires Inv(s) && s.q.current != s.main && ms > 0
    ensures Allowed(s, Sleep(ms)) && Inv(Step(s, Sleep(ms)))
    ensures SleepsUntil(Step(s, Sleep(ms)), s.q.current, s.now + SleepTicks(ms)) && Step(s, Sleep(ms)).now == s.now
  {
    assert Allowed(s, Sleep(ms));
    StepKeepsInvariant(s, Sleep(ms));
    StepLists(s, Sleep(ms));
    var r := Step(s, Sleep(ms));
    assert s.q.current in r.q.sleepers && r.q.until[s.q.current] == s.now + SleepTicks(ms);
    hide Moves, DoAll, Lists;
    SleeperIsPlaced(r.q, s.q.current);
  }

  lemma SleeperIsPlaced<T>(q: Queues<T>, t: T)
    requires Placed(q) && t in q.sleepers
    ensures t in q.place && q.place[t] == Asleep
  {
    assert HasList(q, Asleep) && t in ListAt(q, Asleep);
  }

  /** A thread that sleeps for `ms` milliseconds is asleep for the next `ceil(ms / 10) - 1` ticks,
      whatever else happens, and is woken by the one after. */
  lemma SleepsExactly<T>(s: State<T>, ms: nat, ops: seq<Op<T>>)
    requires Inv(s) && s.q.current != s.main && ms > 0 && |Step(s, Sleep(ms)).q.ready| == PRIORITIES
    requires AllowedRun(Step(s, Sleep(ms)), ops)
    requires Ticks(ops) < (ms + 9) / 10
    ensures var r := Run(Step(s, Sleep(ms)), ops); var t := s.q.current;
      && t in r.q.place && r.q.place[t] == Asleep
      && (Ticks(ops) + 1 == (ms + 9) / 10 ==>
            (var w := Step(r, Tick).q; t in w.place && (w.place[t].Ready? || w.place[t].Running?)))
  {
    SleepStarts(s, ms);
    CeilingTicks(ms);
    hide Step, AllowedRun, Allowed, SleepTicks, Run, Placed, KeysOk, EventsOk, SemasOk, MutantsOk, ProcessesOk,
      SleepOk, Up;
    var deadline := s.now + SleepTicks(ms);
    SleepsThroughRun(Step(s, Sleep(ms)), ops, s.q.current, deadline);
    var r := Run(Step(s, Sleep(ms)), ops);
    if Ticks(ops) + 1 == (ms + 9) / 10 { WakesWhenDue(r, s.q.current, deadline); }
  }

  lemma CeilingTicks(ms: nat)
    requires ms > 0
    ensures SleepTicks(ms) == (ms + 9) / 10
  {}

  // ---- A mutant excludes all but its holder -----------------------------------------------------------

  ghost predicate HeldBy<T>(s: State<T>, t: T, i: nat, depth: int) {
    i < |s.mutants| && depth >= 0 && s.mutants[i] == Mutant(Some(t), depth)
  }

  /** What a call adds to the depth at which `t` holds mutant `i`: calls of other threads add nothing. */
  ghost function Net<T>(s: State<T>, op: Op<T>, t: T, i: nat): int {
    if s.q.current != t then 0
    else if op == WaitMutant(i) then 1
    else if op == ReleaseMutant(i) then -1
    else 0
  }

  ghost function NetAll<T>(s: State<T>, ops: seq<Op<T>>, t: T, i: nat): int
    requires |s.q.ready| == PRIORITIES
    decreases |ops|
  {
    if ops == [] then 0 else Net(s, ops[0], t, i) + NetAll(Step(s, ops[0]), ops[1..], t, i)
  }

  /** At every point of the run `t` has acquired mutant `i` more often than it has released it. */
  ghost predicate Ahead<T>(s: State<T>, ops: seq<Op<T>>, t: T, i: nat, depth: int)
    requires |s.q.ready| == PRIORITIES
    decreases |ops|
  {
    depth > 0 && (ops == [] || Ahead(Step(s, ops[0]), ops[1..], t, i, depth + Net(s, ops[0], t, i)))
  }

  /** Whatever call comes, and whoever makes it, the holder keeps the mutant unless it releases it at depth 1. */
  lemma HolderStep<T>(s: State<T>, op: Op<T>, t: T, i: nat, d: nat)
    requires |s.q.ready| == PRIORITIES && Allowed(s, op) && HeldBy(s, t, i, d) && 0 < d < U32
    requires d + Net(s, op, t, i) > 0
    ensures d + Net(s, op, t, i) < U32 && HeldBy(Step(s, op), t, i, d + Net(s, op, t, i))
  {
    hide Moves, DoAll, WaitersOf, EffectOf;
  }

  /** Over any run, however it interleaves switches and calls of other threads, a mutant stays with its
      holder as long as the holder's releases have not caught up with its acquisitions. */
  lemma {:induction false} HolderRun<T>(s: State<T>, ops: seq<Op<T>>, t: T, i: nat, d: nat)
    requires |s.q.ready| == PRIORITIES && AllowedRun(s, ops) && HeldBy(s, t, i, d) && d < U32
    requires Ahead(s, ops, t, i, d)
    ensures 0 < d + NetAll(s, ops, t, i) < U32
    ensures HeldBy(Run(s, ops), t, i, d + NetAll(s, ops, t, i))
    decreases |ops|
  {
    hide Step, Allowed, Net, HeldBy;
    if ops == [] {
    } else {
      var d1 := d + Net(s, ops[0], t, i);
      assert Ahead(Step(s, ops[0]), ops[1..], t, i, d1);
      HolderStep(s, ops[0], t, i, d);
      HolderRun(Step(s, ops[0]), ops[1..], t, i, d1);
    }
  }

  lemma {:induction false} AllowedPrefix<T>(s: State<T>, ops: seq<Op<T>>, op: Op<T>)
    requires |s.q.ready| == PRIORITIES && AllowedRun(s, ops + [op])
    ensures AllowedRun(s, ops) && Allowed(Run(s, ops), op)
    decreases |ops|
  {
    hide Step, Allowed;
    if ops == [] {
      assert (ops + [op])[0] == op;
    } else {
      assert (ops + [op])[0] == ops[0] && (ops + [op])[1..] == ops[1..] + [op];
      AllowedPrefix(Step(s, ops[0]), ops[1..], op);
    }
  }

  lemma WaitEffect<T>(s: State<T>, t: T, i: nat, d: nat)
    requires HeldBy(s, t, i, d) && s.q.current != t
    ensures EffectOf(s, WaitMutant(i)) == Block(MutantObj(i), false) && Objects(s, WaitMutant(i)) == s
  {}

  /** A wait for a mutant that another thread holds puts the caller behind the waiters and gives the
      processor to another thread. */
  lemma WaitBlocks<T>(s: State<T>, t: T, i: nat, d: nat)
    requires Inv(s) && HeldBy(s, t, i, d) && s.q.current != t && Allowed(s, WaitMutant(i))
    ensures var w := Step(s, WaitMutant(i));
      && HeldBy(w, t, i, d)
      && WaitersOf(w.q, MutantObj(i)) == WaitersOf(s.q, MutantObj(i)) + [s.q.current]
      && w.q.current != s.q.current
  {
    hide Placed, Up, KeysOk, EventsOk, SemasOk, MutantsOk, ProcessesOk, SleepOk, Moves, DoAll, EffectOf, Objects,
      Allowed;
    var op: Op<T> := WaitMutant(i);
    WaitEffect(s, t, i, d);
    StepLists(s, op);
    StepThreads(s, op);
    var w := Step(s, op);
    assert WaitersOf(w.q, MutantObj(i)) == WaitersOf(s.q, MutantObj(i)) + [s.q.current];
    ListedIsWaiting(w.q, s.q.current, MutantObj(i));
    RunningIsCurrent(w.q);
  }

  lemma RunningIsCurrent<T>(q: Queues<T>)
    requires Placed(q)
    ensures q.current in q.place && q.place[q.current] == Running
  {}

  lemma HeldDepth<T>(s: State<T>, t: T, i: nat, d: nat)
    requires Inv(s) && HeldBy(s, t, i, d)
    ensures |s.q.ready| == PRIORITIES && d < U32
  {
    assert MutantOk(s.mutants[i], WaitersOf(s.q, MutantObj(i)));
  }

  /** Mutual exclusion: after such a run a wait by any thread but the holder does not return.  The
      caller joins the mutant's wait list behind the threads already there, and another thread runs. */
  lemma OthersBlock<T>(s: State<T>, ops: seq<Op<T>>, t: T, i: nat, d: nat)
    requires Inv(s) && AllowedRun(s, ops + [WaitMutant(i)]) && HeldBy(s, t, i, d)
    requires Ahead(s, ops, t, i, d) && Run(s, ops).q.current != t
    ensures var r := Run(s, ops); var w := Step(r, WaitMutant(i));
      && HeldBy(w, t, i, d + NetAll(s, ops, t, i))
      && WaitersOf(w.q, MutantObj(i)) == WaitersOf(r.q, MutantObj(i)) + [r.q.current]
      && w.q.current != r.q.current
  {
    hide Step, Allowed, AllowedRun, Run, Ahead, HeldBy, NetAll, Inv, WaitersOf;
    HeldDepth(s, t, i, d);
    AllowedPrefix(s, ops, WaitMutant(i));
    HolderRun(s, ops, t, i, d);
    RunKeepsInvariant(s, ops);
    WaitBlocks(Run(s, ops), t, i, d + NetAll(s, ops, t, i));
  }

  /** A call that leaves the mutant with its holder wakes none of its waiters. */
  lemma WaitersStep<T>(s: State<T>, op: Op<T>, t: T, i: nat, d: nat)
    requires Inv(s) && Allowed(s, op) && HeldBy(s, t, i, d) && d + Net(s, op, t, i) > 0
    ensures WaitersOf(s.q, MutantObj(i)) <= WaitersOf(Step(s, op).q, MutantObj(i))
  {
    assert EffectOf(s, op).Grant? || EffectOf(s, op).Die? ==> EffectOf(s, op).o != MutantObj(i);
    assert EffectOf(s, op).Block? && EffectOf(s, op).o == MutantObj(i) ==> !EffectOf(s, op).front;
    hide Placed, Up, EventsOk, SemasOk, MutantsOk, ProcessesOk, SleepOk, Moves, DoAll, EffectOf, Objects, Allowed,
      WaitersOf;
    StepLists(s, op);
  }

  /** Who waits for the mutant goes on waiting, in the same place in the list, through such a run. */
  lemma {:induction false} WaitersStay<T>(s: State<T>, ops: seq<Op<T>>, t: T, i: nat, d: nat)
    requires Inv(s) && AllowedRun(s, ops) && HeldBy(s, t, i, d) && d < U32 && Ahead(s, ops, t, i, d)
    ensures WaitersOf(s.q, MutantObj(i)) <= WaitersOf(Run(s, ops).q, MutantObj(i))
    decreases |ops|
  {
    assert |s.q.ready| == PRIORITIES;
    hide Step, Allowed, Net, HeldBy, ThreadsOk, KeysOk, EventsOk, SemasOk, MutantsOk, ProcessesOk, SleepOk;
    if ops == [] {
    } else {
      var d1 := d + Net(s, ops[0], t, i);
      assert Ahead(Step(s, ops[0]), ops[1..], t, i, d1);
      HolderStep(s, ops[0], t, i, d);
      WaitersStep(s, ops[0], t, i, d);
      StepKeepsInvariant(s, ops[0]);
      WaitersStay(Step(s, ops[0]), ops[1..], t, i, d1);
    }
  }

  /** The release that catches up hands the mutant to the first waiter, or frees it if there is none. */
  lemma LastRelease<T>(s: State<T>, op: Op<T>, t: T, i: nat, d: nat)
    requires |s.q.ready| == PRIORITIES && HeldBy(s, t, i, d) && 0 < d < U32 && d + Net(s, op, t, i) == 0
    ensures Step(s, op).mutants == s.mutants[i :=
      if WaitersOf(s.q, MutantObj(i)) != [] then Mutant(Some(WaitersOf(s.q, MutantObj(i))[0]), 1) else Mutant(None, 0)]
  {
    hide Moves, DoAll, WaitersOf, EffectOf;
  }
}
